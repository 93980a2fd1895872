/** What becomes of a Schedule call: refused, turned into a deletion, or committed. */
module SchedulerCalls {
  import opened Options
  import opened Scheduler
  import opened SchedulerSafety

  /** The 400 answers for a tenant that is known. */
  predicate IsRefused(s: State, t: Tenant) {
    t in s.rss && (s.rss[t].status == PROCESSING || s.rss[t].status == UNSPECIFIED || s.holder != Free)
  }

  predicate IsScheduled(s: State, t: Tenant) {
    t in s.rss && s.rss[t].status == SCHEDULED
  }

  /** In every state a Schedule call is refused exactly for a known tenant that is in
      processing or unspecified, or while deployment_lock is held; it waits as a deletion
      exactly if it deletes a scheduled tenant, and with its own parts otherwise. New tenants
      are always taken. Nothing else changes. */
  lemma ScheduleCallWaitsIff(s: State, t: Tenant, action: Action, tConfig: Option<Config>, inTConfig: Option<Config>)
    ensures var r := Step(s, CallSchedule(t, action, tConfig, inTConfig));
            && r == s.(waiting := r.waiting)
            && (IsRefused(s, t) ==> r.waiting == s.waiting)
            && (!IsRefused(s, t) && IsScheduled(s, t) && action == DELETE ==> r.waiting == s.waiting + multiset{ToDelete(t)})
            && (!IsRefused(s, t) && !(IsScheduled(s, t) && action == DELETE) ==>
                  r.waiting == s.waiting + multiset{ToSchedule(t, action, tConfig, inTConfig)})
  {
  }

  /** Deletions and cleanups wait in any case, known tenant or not. */
  lemma OtherCallsWait(s: State, t: Tenant)
    ensures Step(s, CallDelete(t)) == s.(waiting := s.waiting + multiset{ToDelete(t)})
    ensures Step(s, CallCleanup) == s.(waiting := s.waiting + multiset{ToCleanUp})
  {
  }

  /** No step of the events takes this call from the waiting ones. */
  predicate NeverAcquired(events: seq<Event>, call: Call) {
    Acquire(call) !in events
  }

  lemma StepKeepsWaiting(s: State, e: Event, call: Call)
    requires Enabled(s, e) && e != Acquire(call)
    ensures Step(s, e).waiting[call] >= s.waiting[call]
  {
    hide SetStatus, SetStatuses, IsBatch, TimedPrefix, Finish, Pop, AllComplete, Admit, LacksConfig;
  }

  /** An admitted call waits, in every interleaving, until it acquires the lock. */
  lemma {:induction false} CallWaitsUntilAcquired(s: State, events: seq<Event>, call: Call)
    requires NeverAcquired(events, call)
    ensures RunFrom(s, events).waiting[call] >= s.waiting[call]
    decreases events
  {
    if events != [] {
      var before, e := events[..|events| - 1], events[|events| - 1];
      assert forall x :: x in before ==> x in events;
      CallWaitsUntilAcquired(s, before, call);
      hide Enabled, Step;
      if Enabled(RunFrom(s, before), e) {
        StepKeepsWaiting(RunFrom(s, before), e, call);
      }
    }
  }

  /** A part of a row after a call: what the call gives, else what was stored. */
  function Newest<T>(given: Option<T>, stored: Option<T>): Option<T> {
    match given
    case Some(_) => given
    case None => stored
  }

  function Stored(rss: Storage, t: Tenant): Row {
    if t in rss then rss[t] else Row(None, None, None, UNSPECIFIED)
  }

  /** A call with the lock takes effect as it was admitted: the tenant ends as SCHEDULED with
      the parts given, or as DELETED if it is known; a cleanup deletes exactly the scheduled
      tenants. No other tenant changes. */
  lemma CommitTakesEffect(s: State, t: Tenant)
    requires Enabled(s, Commit)
    ensures var r, call := Step(s, Commit), s.holder.call;
            && (call.ToSchedule? && call.tenant == t ==>
                  && t in r.rss && t in r.timing && r.timing[t].scheduled
                  && r.rss[t] == Row(Some(call.action), Newest(call.tConfig, Stored(s.rss, t).tConfig),
                                     Newest(call.inTConfig, Stored(s.rss, t).inTConfig), SCHEDULED))
            && (call == ToDelete(t) && t in s.rss ==> t in r.rss && r.rss[t] == s.rss[t].(status := DELETED))
            && (call.ToCleanUp? && IsScheduled(s, t) ==> t in r.rss && r.rss[t] == s.rss[t].(status := DELETED))
            && ((call.ToCleanUp? && !IsScheduled(s, t)) || (!call.ToCleanUp? && call.tenant != t) ==>
                  Stored(r.rss, t) == Stored(s.rss, t) && (t in r.rss <==> t in s.rss))
            && (t !in s.rss && !(call.ToSchedule? && call.tenant == t) ==> t !in r.rss)
  {
  }

  /** So a call that is not refused leaves its mark in every interleaving: whenever it gets the
      lock, it schedules the tenant with the parts given, or deletes what was scheduled. */
  lemma AdmittedCallTakesEffect(s: State, t: Tenant, action: Action, tConfig: Option<Config>, inTConfig: Option<Config>,
                                events: seq<Event>)
    requires !IsRefused(s, t)
    requires var call := if IsScheduled(s, t) && action == DELETE then ToDelete(t) else ToSchedule(t, action, tConfig, inTConfig);
             NeverAcquired(events, call) && RunFrom(Step(s, CallSchedule(t, action, tConfig, inTConfig)), events).holder.Free?
    ensures var call := if IsScheduled(s, t) && action == DELETE then ToDelete(t) else ToSchedule(t, action, tConfig, inTConfig);
            var r := RunFrom(Step(s, CallSchedule(t, action, tConfig, inTConfig)), events);
            && Enabled(r, Acquire(call)) && Enabled(Step(r, Acquire(call)), Commit)
            && var n := Step(Step(r, Acquire(call)), Commit);
            if IsScheduled(s, t) && action == DELETE then
              t in r.rss ==> t in n.rss && n.rss[t] == r.rss[t].(status := DELETED)
            else
              && t in n.rss
              && n.rss[t] == Row(Some(action), Newest(tConfig, Stored(r.rss, t).tConfig),
                                 Newest(inTConfig, Stored(r.rss, t).inTConfig), SCHEDULED)
  {
    var call := if IsScheduled(s, t) && action == DELETE then ToDelete(t) else ToSchedule(t, action, tConfig, inTConfig);
    var called := Step(s, CallSchedule(t, action, tConfig, inTConfig));
    ScheduleCallWaitsIff(s, t, action, tConfig, inTConfig);
    assert called.waiting[call] > 0;
    CallWaitsUntilAcquired(called, events, call);
    hide RunFrom, NeverAcquired, IsRefused, IsScheduled;
    CallCommits(RunFrom(called, events), call, t);
  }

  lemma CallCommits(r: State, call: Call, t: Tenant)
    requires r.holder.Free? && call in r.waiting && (call.ToSchedule? || call.ToDelete?) && call.tenant == t
    ensures Enabled(r, Acquire(call)) && Enabled(Step(r, Acquire(call)), Commit)
    ensures var n := Step(Step(r, Acquire(call)), Commit);
            && (call.ToDelete? && t in r.rss ==> t in n.rss && n.rss[t] == r.rss[t].(status := DELETED))
            && (call.ToSchedule? ==>
                  && t in n.rss
                  && n.rss[t] == Row(Some(call.action), Newest(call.tConfig, Stored(r.rss, t).tConfig),
                                     Newest(call.inTConfig, Stored(r.rss, t).inTConfig), SCHEDULED))
  {
    CommitTakesEffect(Step(r, Acquire(call)), t);
    hide CommitStep;
  }

  /** The monitor writes one status of a tenant and nothing else; over a deleted or scheduled
      tenant only failures. */
  lemma MonitorWritesOneStatus(s: State, e: Event, t: Tenant)
    requires Enabled(s, e) && (e.MonitorWrites? || e.MonitorFails?)
    ensures var r := Step(s, e);
            && r == s.(rss := r.rss)
            && (t == e.tenant ==>
                  && t in r.rss && r.rss[t].status == (if e.MonitorFails? then FAILED else e.status)
                  && r.rss[t].(status := UNSPECIFIED) == Stored(s.rss, t).(status := UNSPECIFIED))
            && (t != e.tenant ==> Stored(r.rss, t) == Stored(s.rss, t))
            && (e.MonitorWrites? && t == e.tenant ==> t in s.rss && s.rss[t].status != SCHEDULED && s.rss[t].status != DELETED)
  {
  }

  lemma MarkingKeepsRows(s: State, e: Event, t: Tenant)
    requires Enabled(s, e) && (e.MarkProcessed? || e.MarkFailed?) && t in s.rss
    ensures t in Step(s, e).rss
  {
    hide SetStatuses, Finish, Pop, AllComplete, TimedPrefix;
    StatusesSet(s.rss, s.loop.batch, FAILED);
    StatusesSet(s.rss, s.loop.batch, PROCESSED);
    if e.MarkProcessed? && TimedPrefix(s.loop.batch, s.timing.Keys) < |s.loop.batch| {
      StatusesSet(s.rss, s.loop.batch[..TimedPrefix(s.loop.batch, s.timing.Keys) + 1], PROCESSED);
    }
  }

  /** A tenant's row only disappears while a cleanup holds the lock. */
  lemma RowsLeaveInCleanups(s: State, e: Event, t: Tenant)
    requires Enabled(s, e) && t in s.rss && t !in Step(s, e).rss
    ensures e == Remove(t) && s.holder == HeldByCall(Cleaning)
  {
    if e.MarkProcessed? || e.MarkFailed? {
      MarkingKeepsRows(s, e, t);
    }
    hide SetStatuses, Admit, IsBatch, LacksConfig, TimedPrefix, Finish, Pop, AllComplete;
  }
}
