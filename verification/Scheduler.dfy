/** The reconfiguration scheduler as atomic steps of its threads: the deployment
    loop, the RPCs Schedule, DeleteScheduledConfig and Cleanup, and the monitor.
    Every critical section under rss_lock is one step, deployment_lock is held over
    many. Acquiring deployment_lock never times out. */
module Scheduler {
  import opened Options

  type Tenant = string
  type Config = string

  datatype Status = UNSPECIFIED | SCHEDULED | PROCESSING | PROCESSED | FAILED | DELETED

  datatype Action = CREATE | UPDATE | DELETE

  /** One key of all four maps of the storage. */
  datatype Row = Row(action: Option<Action>, tConfig: Option<Config>, inTConfig: Option<Config>, status: Status)

  type Storage = map<Tenant, Row>

  function Or<T>(a: Option<T>, b: Option<T>): Option<T> {
    if a.Some? then a else b
  }

  /** RSS.add: overwrites the parts that are not None and creates missing keys. */
  function Put(rss: Storage, t: Tenant, action: Option<Action>, tConfig: Option<Config>, inTConfig: Option<Config>, status: Status): Storage {
    var row := if t in rss then rss[t] else Row(None, None, None, UNSPECIFIED);
    rss[t := Row(Or(action, row.action), Or(tConfig, row.tConfig), Or(inTConfig, row.inTConfig), status)]
  }

  function SetStatus(rss: Storage, t: Tenant, status: Status): Storage {
    Put(rss, t, None, None, None, status)
  }

  function SetStatuses(rss: Storage, ts: seq<Tenant>, status: Status): Storage
    decreases ts
  {
    if ts == [] then rss else SetStatuses(SetStatus(rss, ts[0], status), ts[1..], status)
  }

  /** A config waiting for, or sent to, the in-network updater. */
  datatype Entry = Entry(tenant: Tenant, config: Option<Config>)

  /** Where the deployment loop stands. `i` is the tenant of the batch it works on. */
  datatype Loop =
    | Waiting
    | Skipping
    | Begin(batch: seq<Tenant>, i: nat)
    | Asking(batch: seq<Tenant>, i: nat, tConfig: Option<Config>, entry: Entry)
    | Collecting(batch: seq<Tenant>, i: nat, entry: Entry)
    | Failing(batch: seq<Tenant>, i: nat)
    | Sending(batch: seq<Tenant>)
    | Accepted(batch: seq<Tenant>)
    | Refused(batch: seq<Tenant>)
    | Handling(batch: seq<Tenant>)
    | Closing(batch: seq<Tenant>)
    | Dead

  datatype Call =
    | ToSchedule(tenant: Tenant, action: Action, tConfig: Option<Config>, inTConfig: Option<Config>)
    | ToDelete(tenant: Tenant)
    | ToCleanUp
    | Cleaning
    | Finished

  datatype Holder = Free | HeldByLoop | HeldByCall(call: Call)

  /** Which of the three times the postprocessing needs are in an entry of the time
      measurement structure. */
  datatype Times = Times(scheduled: bool, started: bool, finished: bool)

  const NO_TIMES := Times(false, false, false)

  type Timing = map<Tenant, Times>

  /** `timing` is the time measurement structure, `pending` is inTConfigs and `current`
      the loop variable t_id. The last three only record what happened: configs the
      NOS updater took with 200, batches handed to the in-network updater, and the
      replies to them. */
  datatype State = State(
    rss: Storage, timing: Timing, pending: seq<Entry>,
    holder: Holder, waiting: multiset<Call>, loop: Loop, current: Option<Tenant>,
    accepted: seq<Entry>, sent: seq<seq<Entry>>, replies: seq<InReply>)

  const INITIAL := State(map[], map[], [], Free, multiset{}, Waiting, None, [], [], [])

  datatype NosReply = NosOk | NosRefused | NosRaised
  datatype InReply = InOk | InRefused | InRaised

  datatype Event =
    | Snapshot(batch: seq<Tenant>, due: bool)
    | Release
    | BeginTenant
    | NosAnswers(nosReply: NosReply)
    | Collect
    | FailTenant
    | EndTenants
    | InAnswers(inReply: InReply)
    | MarkProcessed(before: set<Tenant>, saveFails: bool)
    | MarkFailed
    | Handle
    | CallSchedule(tenant: Tenant, action: Action, tConfig: Option<Config>, inTConfig: Option<Config>)
    | CallDelete(tenant: Tenant)
    | CallCleanup
    | Acquire(call: Call)
    | Commit
    | Remove(tenant: Tenant)
    | Hangup
    | MonitorWrites(tenant: Tenant, status: Status)
    | MonitorFails(tenant: Tenant)

  // -------------------------------------------------------------------------
  // Steps
  // -------------------------------------------------------------------------

  ghost predicate IsBatch(rss: Storage, batch: seq<Tenant>) {
    && (forall i, j :: 0 <= i < j < |batch| ==> batch[i] != batch[j])
    && (forall t :: t in batch <==> t in rss && rss[t].status.SCHEDULED?)
  }

  /** What Schedule decides before it takes a lock: None for the 400 answer. */
  function Admit(s: State, t: Tenant, action: Action, tConfig: Option<Config>, inTConfig: Option<Config>): Option<Call> {
    if t !in s.rss then Some(ToSchedule(t, action, tConfig, inTConfig))
    else if s.rss[t].status.PROCESSING? || !s.holder.Free? then None
    else if s.rss[t].status.SCHEDULED? && action.DELETE? then Some(ToDelete(t))
    else if s.rss[t].status.UNSPECIFIED? then None
    else Some(ToSchedule(t, action, tConfig, inTConfig))
  }

  /** Converting a missing config for the request raises. */
  predicate LacksConfig(entries: seq<Entry>) {
    exists e :: e in entries && e.config.None?
  }

  /** Whether an event can happen now. */
  ghost predicate Enabled(s: State, e: Event) {
    match e
    case Snapshot(batch, due) => s.loop.Waiting? && s.holder.Free? && IsBatch(s.rss, batch)
    case Release => s.loop.Skipping? || s.loop.Closing?
    case BeginTenant => s.loop.Begin? && s.loop.i < |s.loop.batch|
    case NosAnswers(_) => s.loop.Asking?
    case Collect => s.loop.Collecting?
    case FailTenant => s.loop.Failing? && s.loop.i < |s.loop.batch|
    case EndTenants => s.loop.Begin? && s.loop.i >= |s.loop.batch|
    case InAnswers(reply) => s.loop.Sending? && (LacksConfig(s.pending) ==> reply.InRaised?)
    case MarkProcessed(_, _) => s.loop.Accepted?
    case MarkFailed => s.loop.Refused?
    case Handle => s.loop.Handling?
    case CallSchedule(_, _, _, _) | CallDelete(_) | CallCleanup => true
    case Acquire(call) => s.holder.Free? && call in s.waiting
    case Commit => s.holder.HeldByCall? && !s.holder.call.Cleaning? && !s.holder.call.Finished?
    case Remove(_) => s.holder == HeldByCall(Cleaning)
    case Hangup => s.holder.HeldByCall?
    case MonitorWrites(t, status) =>
      t in s.rss && s.rss[t].tConfig.Some? && !s.rss[t].status.SCHEDULED? && !s.rss[t].status.DELETED?
      && (status.FAILED? || status.PROCESSED? || status.DELETED?)
    case MonitorFails(_) => true
  }

  /** The tenant is looked up in the timing structure first; its configs are read
      when its status is set. */
  function BeginStep(s: State): State
    requires s.loop.Begin? && s.loop.i < |s.loop.batch|
  {
    var t := s.loop.batch[s.loop.i];
    if t !in s.timing then s.(loop := Failing(s.loop.batch, s.loop.i), current := Some(t)) else
    var rss := SetStatus(s.rss, t, PROCESSING);
    s.(rss := rss, timing := s.timing[t := s.timing[t].(started := true)], current := Some(t),
       loop := Asking(s.loop.batch, s.loop.i, rss[t].tConfig, Entry(t, rss[t].inTConfig)))
  }

  /** A missing config raises before the request is made. */
  function NosStep(s: State, reply: NosReply): State
    requires s.loop.Asking?
  {
    var l := s.loop;
    if l.tConfig.None? || !reply.NosOk? then s.(loop := Failing(l.batch, l.i))
    else s.(loop := Collecting(l.batch, l.i, l.entry), accepted := s.accepted + [l.entry])
  }

  function InStep(s: State, reply: InReply): State
    requires s.loop.Sending?
  {
    var batch := s.loop.batch;
    s.(sent := s.sent + [s.pending], replies := s.replies + [reply],
       loop := match reply case InOk => Accepted(batch) case InRefused => Refused(batch) case InRaised => Handling(batch))
  }

  function Finish(timing: Timing, batch: seq<Tenant>): Timing {
    map t | t in timing :: if t in batch then timing[t].(finished := true) else timing[t]
  }

  predicate IsComplete(times: Times) {
    times.scheduled && times.started && times.finished
  }

  predicate AllComplete(timing: Timing) {
    forall t :: t in timing ==> IsComplete(timing[t])
  }

  /** The entries the postprocessing has come through have lost their times. */
  function Pop(timing: Timing, before: set<Tenant>): Timing {
    map t | t in timing :: if t in before && IsComplete(timing[t]) then NO_TIMES else timing[t]
  }

  /** The loop over the batch stops at a tenant without timing entry; afterwards the
      configs are cleared and the timing data is postprocessed. That raises at the
      first entry that lacks a time, behind the entries `before` it, or when the data
      cannot be saved, and clears the structure otherwise. */
  function ProcessedStep(s: State, before: set<Tenant>, saveFails: bool): State
    requires s.loop.Accepted?
  {
    var batch := s.loop.batch;
    var known := TimedPrefix(batch, s.timing.Keys);
    if known < |batch| then
      s.(rss := SetStatuses(s.rss, batch[..known + 1], PROCESSED), timing := Finish(s.timing, batch[..known]),
         loop := Handling(batch))
    else
      var marked := s.(rss := SetStatuses(s.rss, batch, PROCESSED), pending := []);
      var timing := Finish(s.timing, batch);
      if !AllComplete(timing) then marked.(timing := Pop(timing, before), loop := Handling(batch))
      else if saveFails then marked.(timing := Pop(timing, timing.Keys), loop := Handling(batch))
      else marked.(timing := map[], loop := Closing(batch))
  }

  function TimedPrefix(batch: seq<Tenant>, timing: set<Tenant>): (n: nat)
    ensures n <= |batch|
    ensures n == |batch| <==> forall t :: t in batch ==> t in timing
  {
    if batch == [] then 0
    else if batch[0] in timing then
      assert batch == [batch[0]] + batch[1..];
      1 + TimedPrefix(batch[1..], timing)
    else
      assert batch[0] in batch;
      0
  }

  /** Without a loop variable the handler itself raises and the lock stays taken. */
  function HandleStep(s: State): State
    requires s.loop.Handling?
  {
    if s.current.None? then s.(loop := Dead)
    else s.(rss := SetStatus(s.rss, s.current.value, FAILED), loop := Closing(s.loop.batch))
  }

  /** The work of an RPC under deployment_lock. */
  function CommitStep(s: State): State
    requires s.holder.HeldByCall?
  {
    match s.holder.call
    case ToSchedule(t, action, tConfig, inTConfig) =>
      s.(rss := Put(s.rss, t, Some(action), tConfig, inTConfig, SCHEDULED), timing := s.timing[t := (if t in s.timing then s.timing[t] else NO_TIMES).(scheduled := true)],
         holder := HeldByCall(Finished))
    case ToDelete(t) =>
      s.(rss := if t in s.rss then SetStatus(s.rss, t, DELETED) else s.rss, holder := HeldByCall(Finished))
    case ToCleanUp =>
      s.(rss := map t | t in s.rss :: if s.rss[t].status.SCHEDULED? then s.rss[t].(status := DELETED) else s.rss[t],
         holder := HeldByCall(Cleaning))
    case _ => s
  }

  function Step(s: State, e: Event): State
    requires Enabled(s, e)
  {
    match e
    case Snapshot(batch, due) =>
      s.(holder := HeldByLoop, loop := if due && s.rss != map[] then Begin(batch, 0) else Skipping)
    case Release => s.(holder := Free, loop := Waiting)
    case BeginTenant => BeginStep(s)
    case NosAnswers(reply) => NosStep(s, reply)
    case Collect => s.(pending := s.pending + [s.loop.entry], loop := Begin(s.loop.batch, s.loop.i + 1))
    case FailTenant =>
      s.(rss := SetStatus(s.rss, s.loop.batch[s.loop.i], FAILED), loop := Begin(s.loop.batch, s.loop.i + 1))
    case EndTenants => s.(loop := if s.pending != [] then Sending(s.loop.batch) else Closing(s.loop.batch))
    case InAnswers(reply) => InStep(s, reply)
    case MarkProcessed(before, saveFails) => ProcessedStep(s, before, saveFails)
    case MarkFailed =>
      s.(rss := SetStatuses(s.rss, s.loop.batch, FAILED), pending := [], loop := Handling(s.loop.batch))
    case Handle => HandleStep(s)
    case CallSchedule(t, action, tConfig, inTConfig) =>
      var call := Admit(s, t, action, tConfig, inTConfig);
      if call.None? then s else s.(waiting := s.waiting + multiset{call.value})
    case CallDelete(t) => s.(waiting := s.waiting + multiset{ToDelete(t)})
    case CallCleanup => s.(waiting := s.waiting + multiset{ToCleanUp})
    case Acquire(call) => s.(waiting := s.waiting - multiset{call}, holder := HeldByCall(call))
    case Commit => CommitStep(s)
    case Remove(t) => s.(rss := s.rss - {t})
    case Hangup => s.(holder := Free)
    case MonitorWrites(t, status) => s.(rss := SetStatus(s.rss, t, status))
    case MonitorFails(t) => s.(rss := SetStatus(s.rss, t, FAILED))
  }

  /** Any sequence of events; those that cannot happen when their turn comes do
      nothing. */
  ghost function RunFrom(s: State, events: seq<Event>): State {
    if events == [] then s else
    var r, e := RunFrom(s, events[..|events| - 1]), events[|events| - 1];
    if Enabled(r, e) then Step(r, e) else r
  }

  ghost function Run(events: seq<Event>): State {
    RunFrom(INITIAL, events)
  }
}
