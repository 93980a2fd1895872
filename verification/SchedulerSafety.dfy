/** What every interleaving of the scheduler's threads keeps. */
module SchedulerSafety {
  import opened Scheduler

  // -------------------------------------------------------------------------
  // Writing statuses
  // -------------------------------------------------------------------------

  /** Same stored configs and actions; keys may be added. */
  ghost predicate SameConfigs(a: Storage, b: Storage) {
    forall t :: t in a ==> t in b && b[t].(status := a[t].status) == a[t]
  }

  lemma {:induction false} StatusesSet(rss: Storage, ts: seq<Tenant>, status: Status)
    ensures var r := SetStatuses(rss, ts, status);
            && SameConfigs(rss, r)
            && (forall t :: t in ts ==> t in r && r[t].status == status)
            && (forall t :: t !in ts ==> (t in r <==> t in rss) && (t in r ==> r[t] == rss[t]))
    decreases ts
  {
    if ts != [] {
      StatusesSet(SetStatus(rss, ts[0], status), ts[1..], status);
      assert ts == [ts[0]] + ts[1..];
    }
  }

  ghost predicate Scheduled(rss: Storage, t: Tenant) {
    t in rss && rss[t].status.SCHEDULED?
  }

  // -------------------------------------------------------------------------
  // The invariant
  // -------------------------------------------------------------------------

  function Flatten(batches: seq<seq<Entry>>): seq<Entry> {
    if batches == [] then [] else Flatten(batches[..|batches| - 1]) + batches[|batches| - 1]
  }

  /** The configs a raising call leaves behind for the next one. */
  function Carried(sent: seq<seq<Entry>>, replies: seq<InReply>): seq<Entry>
    requires |sent| == |replies|
  {
    if sent != [] && replies[|replies| - 1].InRaised? then sent[|sent| - 1] else []
  }

  /** Every call starts with what the one before left behind and brings something. */
  ghost predicate Linked(sent: seq<seq<Entry>>, replies: seq<InReply>) {
    && |sent| == |replies|
    && (sent != [] ==>
          var n := |sent| - 1;
          && Linked(sent[..n], replies[..n])
          && sent[n] != [] && Carried(sent[..n], replies[..n]) <= sent[n])
  }

  /** What is sent for the first time, call after call. */
  ghost function Firsts(sent: seq<seq<Entry>>, replies: seq<InReply>): seq<Entry>
    requires Linked(sent, replies)
  {
    if sent == [] then [] else
    var n := |sent| - 1;
    Firsts(sent[..n], replies[..n]) + sent[n][|Carried(sent[..n], replies[..n])|..]
  }

  lemma LinkedGrows(sent: seq<seq<Entry>>, replies: seq<InReply>, b: seq<Entry>, reply: InReply)
    requires Linked(sent, replies) && b != [] && Carried(sent, replies) <= b
    ensures Linked(sent + [b], replies + [reply])
    ensures Firsts(sent + [b], replies + [reply]) == Firsts(sent, replies) + b[|Carried(sent, replies)|..]
    ensures Carried(sent + [b], replies + [reply]) == if reply.InRaised? then b else []
  {
    assert (sent + [b])[..|sent|] == sent && (replies + [reply])[..|sent|] == replies;
  }

  predicate HasBatch(l: Loop) {
    !l.Waiting? && !l.Skipping? && !l.Dead?
  }

  /** Tenants of the batch that may still be SCHEDULED. */
  function Ahead(l: Loop): seq<Tenant>
    requires HasBatch(l)
  {
    match l
    case Begin(batch, i) => From(batch, i)
    case Failing(batch, i) => From(batch, i)
    case Asking(batch, i, _, _) => From(batch, i + 1)
    case Collecting(batch, i, _) => From(batch, i + 1)
    case _ => []
  }

  /** Tenants of the batch the loop has not begun with. */
  function Unbegun(l: Loop): seq<Tenant>
    requires HasBatch(l)
  {
    match l
    case Begin(batch, i) => From(batch, i)
    case Asking(batch, i, _, _) => From(batch, i + 1)
    case Collecting(batch, i, _) => From(batch, i + 1)
    case Failing(batch, i) => From(batch, i + 1)
    case _ => []
  }

  function From(batch: seq<Tenant>, i: nat): seq<Tenant> {
    if i <= |batch| then batch[i..] else []
  }

  lemma FromShrinks(batch: seq<Tenant>, i: nat, t: Tenant)
    requires t in From(batch, i)
    ensures i < |batch| && (t == batch[i] || t in From(batch, i + 1))
  {
    assert batch[i..] == [batch[i]] + batch[i + 1..];
  }

  /** The lock belongs to the loop exactly while it is in a round, and the handler of
      a failed round always finds a loop variable. */
  ghost predicate LocksOk(s: State) {
    && (s.holder.HeldByLoop? <==> !s.loop.Waiting?)
    && !s.loop.Dead?
    && (s.pending != [] || s.loop.Sending? || s.loop.Accepted? || s.loop.Refused? || s.loop.Handling? ==> s.current.Some?)
    && (s.loop.Asking? || s.loop.Collecting? || s.loop.Failing? ==> s.current.Some?)
  }

  ghost predicate TimingOf(s: State, t: Tenant) {
    && (Scheduled(s.rss, t) ==> t in s.timing && s.timing[t].scheduled)
    && (HasBatch(s.loop) && !s.loop.Handling? && !s.loop.Closing? && t in s.loop.batch ==>
          t in s.timing && s.timing[t].scheduled && (t in Unbegun(s.loop) || s.timing[t].started))
  }

  /** Scheduled tenants have the time of their call; those of the batch keep it until they
      are marked, and get another time when the loop begins with them. */
  ghost predicate TimingOk(s: State) {
    forall t :: TimingOf(s, t)
  }

  /** While the loop works on a batch, only tenants it has not come to are SCHEDULED. */
  ghost predicate BatchOk(s: State) {
    HasBatch(s.loop) ==> forall t :: Scheduled(s.rss, t) ==> t in Ahead(s.loop)
  }

  /** Configs collected or sent were accepted by the NOS updater. The accepted ones are
      those sent for the first time, call after call, and those collected since. */
  ghost predicate ConfigsOk(s: State) {
    && |s.sent| == |s.replies| && Linked(s.sent, s.replies)
    && (forall e :: e in s.pending ==> e in s.accepted)
    && (forall i, e :: 0 <= i < |s.sent| && e in s.sent[i] ==> e in s.accepted)
    && (s.loop.Collecting? ==> s.loop.entry in s.accepted)
    && (s.loop.Sending? ==> s.pending != [])
    && Carried(s.sent, s.replies) <= Unsent(s)
    && s.accepted == Firsts(s.sent, s.replies) + Unsent(s)[|Carried(s.sent, s.replies)|..]
    && (Settled(s.loop) ==> s.pending == Carried(s.sent, s.replies))
  }

  /** The loop is not collecting. */
  predicate Settled(l: Loop) {
    l.Waiting? || l.Skipping? || l.Closing? || l.Handling?
  }

  function Unsent(s: State): seq<Entry> {
    if s.loop.Accepted? || s.loop.Refused? then []
    else if s.loop.Collecting? then s.pending + [s.loop.entry]
    else s.pending
  }

  ghost predicate Inv(s: State) {
    LocksOk(s) && TimingOk(s) && BatchOk(s) && ConfigsOk(s)
  }

  // -------------------------------------------------------------------------
  // Every step keeps it
  // -------------------------------------------------------------------------

  lemma TimedPrefixIsAll(batch: seq<Tenant>, timing: set<Tenant>)
    requires forall t :: t in batch ==> t in timing
    ensures TimedPrefix(batch, timing) == |batch|
  {
  }

  /** So the loop that marks the batch comes to its end. */
  lemma BatchIsTimed(s: State)
    requires TimingOk(s) && s.loop.Accepted?
    ensures TimedPrefix(s.loop.batch, s.timing.Keys) == |s.loop.batch|
  {
    forall t | t in s.loop.batch
      ensures t in s.timing.Keys
    {
      assert TimingOf(s, t);
    }
    TimedPrefixIsAll(s.loop.batch, s.timing.Keys);
  }

  /** Steps of the RPC threads and of the monitor. */
  predicate Outside(e: Event) {
    e.CallSchedule? || e.CallDelete? || e.CallCleanup? || e.Acquire? || e.Commit? || e.Remove? || e.Hangup?
    || e.MonitorWrites? || e.MonitorFails?
  }

  /** The monitor changes one status, which it never makes SCHEDULED. */
  lemma MonitorLeavesTheRound(s: State, e: Event)
    requires Enabled(s, e) && (e.MonitorWrites? || e.MonitorFails?)
    ensures var r := Step(s, e);
            && r == s.(rss := r.rss) && SameConfigs(s.rss, r.rss)
            && forall t :: Scheduled(r.rss, t) ==> Scheduled(s.rss, t)
  {
  }

  /** The other threads never touch the variables of the loop, and during a round
      they can neither change a config nor make a tenant SCHEDULED. */
  lemma OutsidersLeaveTheRound(s: State, e: Event)
    requires LocksOk(s) && Enabled(s, e) && Outside(e)
    ensures var r := Step(s, e);
            && r.loop == s.loop && r.current == s.current && r.pending == s.pending
            && r.accepted == s.accepted && r.sent == s.sent && r.replies == s.replies
            && (r.holder.HeldByLoop? <==> s.holder.HeldByLoop?)
            && (s.holder.HeldByLoop? ==> r.timing == s.timing && SameConfigs(s.rss, r.rss)
                                         && forall t :: Scheduled(r.rss, t) ==> Scheduled(s.rss, t))
  {
    hide Admit;
    if e.MonitorWrites? || e.MonitorFails? {
      MonitorLeavesTheRound(s, e);
      hide Step, SameConfigs;
    }
  }

  lemma StepKeepsLocks(s: State, e: Event)
    requires Inv(s) && Enabled(s, e)
    ensures LocksOk(Step(s, e))
  {
    hide Flatten, SetStatuses, SetStatus, Put, TimedPrefix, Admit, IsBatch, ConfigsOk, TimingOk, BatchOk;
  }

  lemma MarkedIsNotScheduled(s: State, status: Status)
    requires HasBatch(s.loop) && !status.SCHEDULED? && (forall t :: Scheduled(s.rss, t) ==> t in s.loop.batch)
    ensures forall t :: !Scheduled(SetStatuses(s.rss, s.loop.batch, status), t)
  {
    StatusesSet(s.rss, s.loop.batch, status);
  }

  /** Nothing is SCHEDULED once a batch is marked. */
  lemma MarkingUnschedules(s: State, e: Event)
    requires Inv(s) && Enabled(s, e) && (e.MarkProcessed? || e.MarkFailed?)
    ensures forall t :: !Scheduled(Step(s, e).rss, t)
  {
    hide Flatten, SetStatuses, Admit, ConfigsOk;
    if e.MarkProcessed? {
      BatchIsTimed(s);
    }
    MarkedIsNotScheduled(s, PROCESSED);
    MarkedIsNotScheduled(s, FAILED);
  }

  lemma BeginKeepsTiming(s: State, e: Event, t: Tenant)
    requires Inv(s) && Enabled(s, e) && e.BeginTenant?
    ensures TimingOf(Step(s, e), t)
  {
    hide ConfigsOk, BatchOk, TimingOk;
    var first := s.loop.batch[s.loop.i];
    assert TimingOf(s, t) && TimingOf(s, first) by { TimingAt(s, t); TimingAt(s, first); }
    assert first in s.loop.batch;
    if t in From(s.loop.batch, s.loop.i) {
      FromShrinks(s.loop.batch, s.loop.i, t);
    }
  }

  lemma TimingAt(s: State, t: Tenant)
    requires Inv(s)
    ensures TimingOf(s, t)
  {
    hide LocksOk, BatchOk, ConfigsOk, TimingOf;
  }

  lemma OutsidersKeepTiming(s: State, e: Event, t: Tenant)
    requires Inv(s) && Enabled(s, e) && Outside(e)
    ensures TimingOf(Step(s, e), t)
  {
    TimingAt(s, t);
    OutsidersLeaveTheRound(s, e);
    hide ConfigsOk, BatchOk, TimingOk, Unbegun, Admit, IsBatch;
    if s.holder.HeldByLoop? {
      hide Step, Enabled, SameConfigs;
    }
  }

  lemma StepKeepsTimingOf(s: State, e: Event, t: Tenant)
    requires Inv(s) && Enabled(s, e)
    ensures TimingOf(Step(s, e), t)
  {
    hide Inv, Enabled, Step, TimingOf;
    if Outside(e) {
      OutsidersKeepTiming(s, e, t);
    } else if e.BeginTenant? {
      BeginKeepsTiming(s, e, t);
    } else if e.MarkProcessed? || e.MarkFailed? {
      MarkingUnschedules(s, e);
      assert !Scheduled(Step(s, e).rss, t);
      MarkingKeepsTiming(s, e, t);
    } else {
      LoopKeepsTiming(s, e, t);
    }
  }

  lemma LoopKeepsTiming(s: State, e: Event, t: Tenant)
    requires Inv(s) && Enabled(s, e) && !Outside(e) && !e.BeginTenant? && !e.MarkProcessed? && !e.MarkFailed?
    ensures TimingOf(Step(s, e), t)
  {
    if e.Snapshot? {
      SnapshotKeepsTiming(s, e, t);
    } else {
      TimingAt(s, t);
      QuietShape(s, e, t);
      hide Step, Enabled, Inv, Unbegun, HasBatch;
    }
  }

  /** The other steps of the loop write no times, make nothing SCHEDULED and begin with nobody. */
  lemma QuietShape(s: State, e: Event, t: Tenant)
    requires Enabled(s, e) && !Outside(e) && !e.BeginTenant? && !e.MarkProcessed? && !e.MarkFailed? && !e.Snapshot?
    ensures var r := Step(s, e);
            && r.timing == s.timing && (Scheduled(r.rss, t) ==> Scheduled(s.rss, t))
            && (HasBatch(r.loop) ==> HasBatch(s.loop) && r.loop.batch == s.loop.batch)
            && (HasBatch(r.loop) && !r.loop.Handling? && !r.loop.Closing? ==>
                  !s.loop.Handling? && !s.loop.Closing? && (t in Unbegun(s.loop) ==> t in Unbegun(r.loop) || !(t in r.loop.batch)))
  {
  }

  lemma SnapshotKeepsTiming(s: State, e: Event, t: Tenant)
    requires Inv(s) && Enabled(s, e) && e.Snapshot?
    ensures TimingOf(Step(s, e), t)
  {
    TimingAt(s, t);
    FromStart(e.batch);
    hide ConfigsOk, BatchOk, TimingOk, LocksOk, From;
  }

  lemma MarkingKeepsTiming(s: State, e: Event, t: Tenant)
    requires Inv(s) && Enabled(s, e) && (e.MarkProcessed? || e.MarkFailed?)
    requires !Scheduled(Step(s, e).rss, t)
    ensures TimingOf(Step(s, e), t)
  {
    hide ConfigsOk, BatchOk, TimingOk, LocksOk, SetStatuses, Finish, Pop, AllComplete, TimedPrefix;
  }

  lemma StepKeepsTiming(s: State, e: Event)
    requires Inv(s) && Enabled(s, e)
    ensures TimingOk(Step(s, e))
  {
    hide Inv, Enabled, Step, TimingOf;
    forall t
      ensures TimingOf(Step(s, e), t)
    {
      StepKeepsTimingOf(s, e, t);
    }
  }

  lemma FromGrows(batch: seq<Tenant>, i: nat, t: Tenant)
    requires t in From(batch, i + 1)
    ensures t in From(batch, i)
  {
    assert batch[i..] == [batch[i]] + batch[i + 1..];
  }

  lemma TenantStepShrinksAhead(s: State, e: Event, t: Tenant)
    requires Inv(s) && Enabled(s, e) && (e.BeginTenant? || e.FailTenant? || e.EndTenants?)
    requires Scheduled(Step(s, e).rss, t)
    ensures HasBatch(Step(s, e).loop) && t in Ahead(Step(s, e).loop)
  {
    hide Flatten, SetStatuses, Admit, ConfigsOk;
    if s.loop.i < |s.loop.batch| {
      assert s.loop.batch[s.loop.i] in s.loop.batch;
    }
    assert t in Ahead(s.loop);
    FromShrinks(s.loop.batch, s.loop.i, t);
  }

  lemma OutsidersShrinkAhead(s: State, e: Event, t: Tenant)
    requires Inv(s) && Enabled(s, e) && Outside(e) && HasBatch(Step(s, e).loop)
    requires Scheduled(Step(s, e).rss, t)
    ensures t in Ahead(Step(s, e).loop)
  {
    OutsidersLeaveTheRound(s, e);
    hide Step, Enabled, ConfigsOk, TimingOk, Ahead;
    assert Scheduled(s.rss, t);
  }

  lemma StepShrinksAhead(s: State, e: Event, t: Tenant)
    requires Inv(s) && Enabled(s, e) && HasBatch(Step(s, e).loop)
    requires Scheduled(Step(s, e).rss, t)
    ensures t in Ahead(Step(s, e).loop)
  {
    if Outside(e) {
      OutsidersShrinkAhead(s, e, t);
    } else if e.MarkProcessed? || e.MarkFailed? {
      MarkingUnschedules(s, e);
    } else if e.BeginTenant? || e.FailTenant? || e.EndTenants? {
      TenantStepShrinksAhead(s, e, t);
    } else {
      LoopStepShrinksAhead(s, e, t);
    }
  }

  lemma LoopStepShrinksAhead(s: State, e: Event, t: Tenant)
    requires Inv(s) && Enabled(s, e) && HasBatch(Step(s, e).loop)
    requires e.Snapshot? || e.NosAnswers? || e.Collect? || e.InAnswers? || e.Handle? || e.Release?
    requires Scheduled(Step(s, e).rss, t)
    ensures t in Ahead(Step(s, e).loop)
  {
    if e.Snapshot? {
      hide Inv;
      FromStart(e.batch);
    } else {
      QuietStepShrinksAhead(s, e, t);
    }
  }

  lemma QuietStepShrinksAhead(s: State, e: Event, t: Tenant)
    requires Inv(s) && Enabled(s, e) && HasBatch(Step(s, e).loop)
    requires e.NosAnswers? || e.Collect? || e.InAnswers? || e.Handle? || e.Release?
    requires Scheduled(Step(s, e).rss, t)
    ensures t in Ahead(Step(s, e).loop)
  {
    hide ConfigsOk, TimingOk, LocksOk, From;
    assert t in Ahead(s.loop);
    if e.NosAnswers? && Step(s, e).loop.Failing? {
      FromGrows(s.loop.batch, s.loop.i, t);
    }
  }

  lemma StepKeepsBatch(s: State, e: Event)
    requires Inv(s) && Enabled(s, e)
    ensures BatchOk(Step(s, e))
  {
    hide Inv, Enabled, Step, Ahead;
    forall t | HasBatch(Step(s, e).loop) && Scheduled(Step(s, e).rss, t) ensures t in Ahead(Step(s, e).loop) {
      StepShrinksAhead(s, e, t);
    }
  }

  lemma FromStart(batch: seq<Tenant>)
    ensures From(batch, 0) == batch
  {
  }

  lemma StepKeepsConfigs(s: State, e: Event)
    requires Inv(s) && Enabled(s, e)
    ensures ConfigsOk(Step(s, e))
  {
    if Outside(e) {
      OutsidersLeaveTheRound(s, e);
      OutsidersKeepConfigs(s, Step(s, e));
    } else if e.InAnswers? {
      SendingKeepsConfigs(s, e);
    } else {
      LoopKeepsConfigs(s, e);
    }
  }

  lemma OutsidersKeepConfigs(s: State, r: State)
    requires ConfigsOk(s) && r.loop == s.loop && r.pending == s.pending
    requires r.accepted == s.accepted && r.sent == s.sent && r.replies == s.replies
    ensures ConfigsOk(r)
  {
  }

  lemma SendingKeepsConfigs(s: State, e: Event)
    requires Inv(s) && Enabled(s, e) && e.InAnswers?
    ensures ConfigsOk(Step(s, e))
  {
    hide Linked, Firsts, Carried, LocksOk, BatchOk, TimingOk;
    LinkedGrows(s.sent, s.replies, s.pending, e.inReply);
  }

  /** Clearing the configs once they are sent. */
  lemma ClearingKeepsConfigs(s: State, r: State)
    requires ConfigsOk(s) && (s.loop.Accepted? || s.loop.Refused?) && (r.loop.Handling? || r.loop.Closing?)
    requires r.pending == [] && r.accepted == s.accepted && r.sent == s.sent && r.replies == s.replies
    ensures ConfigsOk(r)
  {
    hide Linked, Firsts, Carried;
  }

  lemma MarkingClears(s: State, e: Event)
    requires Inv(s) && Enabled(s, e) && (e.MarkProcessed? || e.MarkFailed?)
    ensures var r := Step(s, e);
            && (s.loop.Accepted? || s.loop.Refused?) && (r.loop.Handling? || r.loop.Closing?)
            && r.pending == [] && r.accepted == s.accepted && r.sent == s.sent && r.replies == s.replies
  {
    if e.MarkProcessed? {
      BatchIsTimed(s);
    }
    hide TimingOk, TimedPrefix, ConfigsOk, SetStatuses, Finish, Pop, AllComplete, LocksOk, BatchOk;
  }

  lemma TailGrows(firsts: seq<Entry>, pending: seq<Entry>, carried: seq<Entry>, e: Entry)
    requires carried <= pending
    ensures carried <= pending + [e]
    ensures firsts + (pending + [e])[|carried|..] == firsts + pending[|carried|..] + [e]
  {
    assert (pending + [e])[|carried|..] == pending[|carried|..] + [e];
  }

  lemma AnswerKeepsConfigs(s: State, e: Event)
    requires Inv(s) && Enabled(s, e) && e.NosAnswers?
    ensures ConfigsOk(Step(s, e))
  {
    hide TimingOk, Linked, Firsts, Carried, LocksOk, BatchOk;
    TailGrows(Firsts(s.sent, s.replies), s.pending, Carried(s.sent, s.replies), s.loop.entry);
  }

  lemma CollectingKeepsConfigs(s: State, e: Event)
    requires Inv(s) && Enabled(s, e) && e.Collect?
    ensures ConfigsOk(Step(s, e))
  {
    hide TimingOk, Linked, Firsts, Carried, LocksOk, BatchOk;
  }

  predicate BetweenSteps(l: Loop) {
    !l.Accepted? && !l.Refused? && !l.Collecting?
  }

  lemma QuietKeepsConfigs(s: State, r: State)
    requires ConfigsOk(s) && BetweenSteps(s.loop) && BetweenSteps(r.loop)
    requires r.pending == s.pending && r.accepted == s.accepted && r.sent == s.sent && r.replies == s.replies
    requires r.loop.Sending? ==> s.pending != []
    requires Settled(r.loop) ==> Settled(s.loop) || s.pending == []
    ensures ConfigsOk(r)
  {
    hide Linked, Firsts, Carried;
  }

  lemma LoopKeepsConfigs(s: State, e: Event)
    requires Inv(s) && Enabled(s, e) && !Outside(e) && !e.InAnswers?
    ensures ConfigsOk(Step(s, e))
  {
    if e.MarkProcessed? || e.MarkFailed? {
      MarkingClears(s, e);
      hide Step, Enabled, ConfigsOk;
      ClearingKeepsConfigs(s, Step(s, e));
    } else if e.NosAnswers? {
      AnswerKeepsConfigs(s, e);
    } else if e.Collect? {
      CollectingKeepsConfigs(s, e);
    } else {
      hide BatchOk, TimingOk, ConfigsOk;
      QuietKeepsConfigs(s, Step(s, e));
    }
  }
}
