/** Which status a round leaves its tenants in. */
module SchedulerStatuses {
  import opened Options
  import opened Scheduler
  import opened SchedulerSafety
  import opened SchedulerOutcomes
  import opened SchedulerRounds

  function StatusOf(rss: Storage, t: Tenant): Status {
    if t in rss then rss[t].status else UNSPECIFIED
  }

  predicate IsMonitor(e: Event) {
    e.MonitorWrites? || e.MonitorFails?
  }

  predicate NoMonitor(events: seq<Event>) {
    forall e :: e in events ==> !IsMonitor(e)
  }

  ghost predicate Distinct(batch: seq<Tenant>) {
    forall i, j :: 0 <= i < j < |batch| ==> batch[i] != batch[j]
  }

  // -------------------------------------------------------------------------
  // What holds on the way
  // -------------------------------------------------------------------------

  /** The first `n` tenants are done with: those that failed are FAILED, the others
      PROCESSING, and their configs are pending. */
  ghost predicate Marked(rss: Storage, pending: seq<Entry>, batch: seq<Tenant>, n: nat, failed: seq<Tenant>) {
    && n <= |batch|
    && (forall t :: t in failed ==> t in batch[..n])
    && (forall j :: 0 <= j < n ==> StatusOf(rss, batch[j]) == if batch[j] in failed then FAILED else PROCESSING)
    && (forall j :: 0 <= j < n && batch[j] !in failed ==> pending != [])
  }

  ghost predicate AllAre(rss: Storage, batch: seq<Tenant>, status: Status) {
    forall t :: t in batch ==> StatusOf(rss, t) == status
  }

  /** The loop variable is the tenant before number `n`. */
  predicate Behind(r: State, batch: seq<Tenant>, n: nat) {
    0 < n <= |batch| ==> r.current == Some(batch[n - 1])
  }

  ghost predicate Working(s: State, batch: seq<Tenant>, r: State, n: nat, failed: seq<Tenant>) {
    r.replies == s.replies && Marked(r.rss, r.pending, batch, n, failed)
  }

  ghost predicate WorkingOn(s: State, batch: seq<Tenant>, r: State, i: nat, failed: seq<Tenant>) {
    && i < |batch| && Behind(r, batch, i + 1)
    && Working(s, batch, r, i, failed) && StatusOf(r.rss, batch[i]) == PROCESSING
  }

  /** The round's call was answered and its outcome is in the statuses. */
  ghost predicate Answered(s: State, batch: seq<Tenant>, r: State, failed: seq<Tenant>) {
    || (r.replies == s.replies + [InOk] && AllAre(r.rss, batch, PROCESSED) && (batch != [] ==> r.timing != map[]))
    || (r.replies == s.replies + [InRefused] && AllAre(r.rss, batch, FAILED))
    || (r.replies == s.replies + [InRaised] && Marked(r.rss, r.pending, batch, |batch|, failed))
  }

  /** The answer the round got, if it made a call. */
  function AnswerTo(s: State, r: State): Option<InReply> {
    if |r.replies| == |s.replies| + 1 then Some(r.replies[|s.replies|]) else None
  }

  function EndStatus(answer: Option<InReply>, failed: bool, last: bool, saved: bool): Status {
    match answer
    case None => FAILED
    case Some(InOk) => if saved || !last then PROCESSED else FAILED
    case Some(InRefused) => FAILED
    case Some(InRaised) => if failed || last then FAILED else PROCESSING
  }

  ghost predicate Ended(s: State, batch: seq<Tenant>, r: State, failed: seq<Tenant>) {
    && s.replies <= r.replies && |r.replies| <= |s.replies| + 1
    && forall t :: t in batch ==>
         StatusOf(r.rss, t) == EndStatus(AnswerTo(s, r), t in failed, t == batch[|batch| - 1], r.timing == map[])
  }

  ghost predicate RoundStatus(s: State, batch: seq<Tenant>, r: State, failed: seq<Tenant>) {
    match r.loop
    case Begin(b, i) => b == batch && Working(s, batch, r, i, failed) && Behind(r, batch, i)
    case Asking(b, i, _, _) => b == batch && WorkingOn(s, batch, r, i, failed)
    case Collecting(b, i, _) => b == batch && WorkingOn(s, batch, r, i, failed)
    case Failing(b, i) => b == batch && WorkingOn(s, batch, r, i, failed)
    case Sending(b) => b == batch && Working(s, batch, r, |batch|, failed) && Behind(r, batch, |batch|)
    case Accepted(b) => b == batch && r.replies == s.replies + [InOk] && Behind(r, batch, |batch|)
    case Refused(b) => b == batch && r.replies == s.replies + [InRefused] && Behind(r, batch, |batch|)
    case Handling(b) => b == batch && Answered(s, batch, r, failed) && Behind(r, batch, |batch|)
    case Closing(b) => b == batch && Ended(s, batch, r, failed) && Behind(r, batch, |batch|)
    case _ => true
  }

  // -------------------------------------------------------------------------
  // Every step keeps it
  // -------------------------------------------------------------------------

  lemma CallsOnlyWait(r: State, e: Event)
    requires Enabled(r, e) && Outside(e) && !IsMonitor(e) && r.holder.HeldByLoop?
    ensures Step(r, e) == r.(waiting := Step(r, e).waiting)
  {
    hide Admit;
  }

  lemma BeginMarks(s: State, batch: seq<Tenant>, r: State, e: Event, failed: seq<Tenant>)
    requires Inv(r) && Enabled(r, e) && e.BeginTenant? && Distinct(batch) && RoundStatus(s, batch, r, failed)
    ensures RoundStatus(s, batch, Step(r, e), failed)
  {
    var i := r.loop.i;
    assert batch[i] in batch;
    assert batch[i] in r.timing by { TimingAt(r, batch[i]); }
    hide Inv;
  }

  lemma AnswerMarks(s: State, batch: seq<Tenant>, r: State, e: Event, failed: seq<Tenant>)
    requires Enabled(r, e) && e.NosAnswers? && RoundStatus(s, batch, r, failed)
    ensures RoundStatus(s, batch, Step(r, e), failed)
  {
    hide Marked;
  }

  lemma OneMoreMarked(rss: Storage, pending: seq<Entry>, batch: seq<Tenant>, i: nat, failed: seq<Tenant>, e: Entry)
    requires Distinct(batch) && i < |batch| && Marked(rss, pending, batch, i, failed) && StatusOf(rss, batch[i]) == PROCESSING
    ensures Marked(rss, pending + [e], batch, i + 1, failed)
  {
  }

  lemma CollectMarks(s: State, batch: seq<Tenant>, r: State, e: Event, failed: seq<Tenant>)
    requires Enabled(r, e) && e.Collect? && Distinct(batch) && RoundStatus(s, batch, r, failed)
    ensures RoundStatus(s, batch, Step(r, e), failed)
  {
    OneMoreMarked(r.rss, r.pending, batch, r.loop.i, failed, r.loop.entry);
    hide Marked, Distinct;
  }

  lemma OneMoreFails(rss: Storage, pending: seq<Entry>, batch: seq<Tenant>, i: nat, failed: seq<Tenant>)
    requires Distinct(batch) && i < |batch| && Marked(rss, pending, batch, i, failed)
    ensures Marked(SetStatus(rss, batch[i], FAILED), pending, batch, i + 1, failed + [batch[i]])
  {
    assert batch[..i + 1] == batch[..i] + [batch[i]];
  }

  lemma FailingMarks(s: State, batch: seq<Tenant>, r: State, e: Event, failed: seq<Tenant>)
    requires Enabled(r, e) && e.FailTenant? && Distinct(batch) && RoundStatus(s, batch, r, failed)
    ensures RoundStatus(s, batch, Step(r, e), failed + FailedBy(r, e))
  {
    assert FailedBy(r, e) == [batch[r.loop.i]];
    OneMoreFails(r.rss, r.pending, batch, r.loop.i, failed);
    hide Marked, Distinct, SetStatus, FailedBy;
  }

  /** Nobody's config is pending, so everybody failed. */
  lemma NoCallEnds(s: State, batch: seq<Tenant>, r: State, failed: seq<Tenant>)
    requires Working(s, batch, r, |batch|, failed) && r.pending == []
    ensures Ended(s, batch, r, failed)
  {
    forall t | t in batch
      ensures StatusOf(r.rss, t) == FAILED
    {
      assert t in batch[..|batch|];
    }
  }

  lemma EndMarks(s: State, batch: seq<Tenant>, r: State, e: Event, failed: seq<Tenant>)
    requires Enabled(r, e) && e.EndTenants? && RoundStatus(s, batch, r, failed)
    ensures RoundStatus(s, batch, Step(r, e), failed)
  {
    assert r.loop.i == |batch|;
    if r.pending == [] {
      NoCallEnds(s, batch, r, failed);
    }
    hide Marked, Ended;
    assert Ended(s, batch, r, failed) ==> Ended(s, batch, Step(r, e), failed) by { EndedAgrees(s, batch, r, Step(r, e), failed); }
  }

  lemma EndedAgrees(s: State, batch: seq<Tenant>, r: State, n: State, failed: seq<Tenant>)
    requires n.rss == r.rss && n.replies == r.replies && n.timing == r.timing
    ensures Ended(s, batch, r, failed) ==> Ended(s, batch, n, failed)
  {
  }

  lemma CallMarks(s: State, batch: seq<Tenant>, r: State, e: Event, failed: seq<Tenant>)
    requires Enabled(r, e) && e.InAnswers? && RoundStatus(s, batch, r, failed)
    ensures RoundStatus(s, batch, Step(r, e), failed)
  {
    hide Marked, AllAre, LacksConfig;
  }

  lemma StatusesAre(rss: Storage, batch: seq<Tenant>, status: Status)
    ensures AllAre(SetStatuses(rss, batch, status), batch, status)
  {
    StatusesSet(rss, batch, status);
    hide SetStatuses, SameConfigs;
  }

  lemma RefusalMarks(s: State, batch: seq<Tenant>, r: State, e: Event, failed: seq<Tenant>)
    requires Enabled(r, e) && e.MarkFailed? && RoundStatus(s, batch, r, failed)
    ensures RoundStatus(s, batch, Step(r, e), failed)
  {
    StatusesAre(r.rss, batch, FAILED);
    hide SetStatuses, AllAre, Marked;
  }

  /** The batch is processed; only a raising postprocessing leaves timing entries. */
  lemma MarkedProcessed(r: State, e: Event)
    requires Inv(r) && Enabled(r, e) && e.MarkProcessed?
    ensures var n, batch := Step(r, e), r.loop.batch;
            && n.replies == r.replies && n.current == r.current
            && AllAre(n.rss, batch, PROCESSED)
            && ((n.loop == Closing(batch) && n.timing == map[])
                || (n.loop == Handling(batch) && (batch != [] ==> n.timing != map[])))
  {
    var batch := r.loop.batch;
    BatchIsTimed(r);
    StatusesAre(r.rss, batch, PROCESSED);
    if batch != [] {
      assert batch[0] in r.timing by { TimingAt(r, batch[0]); }
      assert batch[0] in Finish(r.timing, batch);
      assert batch[0] in Pop(Finish(r.timing, batch), e.before);
      assert batch[0] in Pop(Finish(r.timing, batch), Finish(r.timing, batch).Keys);
    }
    hide Inv, SetStatuses, AllAre, Finish, Pop, AllComplete, TimedPrefix;
  }

  lemma SuccessEnds(s: State, batch: seq<Tenant>, n: State, failed: seq<Tenant>)
    requires n.replies == s.replies + [InOk] && AllAre(n.rss, batch, PROCESSED) && n.timing == map[]
    ensures Ended(s, batch, n, failed)
  {
    assert AnswerTo(s, n) == Some(InOk);
  }

  lemma AcceptedStatus(s: State, batch: seq<Tenant>, r: State, failed: seq<Tenant>)
    requires RoundStatus(s, batch, r, failed) && r.loop.Accepted?
    ensures r.loop == Accepted(batch) && r.replies == s.replies + [InOk]
    ensures batch != [] ==> r.current == Some(batch[|batch| - 1])
  {
  }

  lemma HandlingStatusOf(s: State, batch: seq<Tenant>, n: State, failed: seq<Tenant>)
    requires n.loop == Handling(batch) && Answered(s, batch, n, failed)
    requires batch != [] ==> n.current == Some(batch[|batch| - 1])
    ensures RoundStatus(s, batch, n, failed)
  {
    hide Answered;
  }

  lemma AcceptanceMarks(s: State, batch: seq<Tenant>, r: State, e: Event, failed: seq<Tenant>)
    requires Inv(r) && Enabled(r, e) && e.MarkProcessed? && RoundStatus(s, batch, r, failed)
    ensures RoundStatus(s, batch, Step(r, e), failed)
  {
    var n := Step(r, e);
    assert r.loop.Accepted?;
    hide Step, Enabled, Inv, Ended, AllAre, Marked, RoundStatus;
    MarkedProcessed(r, e);
    AcceptedStatus(s, batch, r, failed);
    if n.loop.Closing? {
      SuccessEnds(s, batch, n, failed);
      ClosingStatus(s, batch, n, failed);
    } else {
      HandlingStatusOf(s, batch, n, failed);
    }
  }

  lemma HandledStatus(s: State, batch: seq<Tenant>, r: State, failed: seq<Tenant>, t: Tenant)
    requires Answered(s, batch, r, failed) && t in batch
    ensures var answer := AnswerTo(s, r);
            && answer.Some?
            && (answer.value.InOk? ==> StatusOf(r.rss, t) == PROCESSED && r.timing != map[])
            && (answer.value.InRefused? ==> StatusOf(r.rss, t) == FAILED)
            && (answer.value.InRaised? ==> StatusOf(r.rss, t) == if t in failed then FAILED else PROCESSING)
  {
    assert batch[..|batch|] == batch;
  }

  lemma HandlingEnds(s: State, batch: seq<Tenant>, r: State, n: State, failed: seq<Tenant>, t: Tenant)
    requires Answered(s, batch, r, failed) && t in batch
    requires n.rss == SetStatus(r.rss, batch[|batch| - 1], FAILED) && n.timing == r.timing && n.replies == r.replies
    ensures StatusOf(n.rss, t) == EndStatus(AnswerTo(s, n), t in failed, t == batch[|batch| - 1], n.timing == map[])
  {
    HandledStatus(s, batch, r, failed, t);
    hide Answered;
  }

  lemma HandledRoundEnds(s: State, batch: seq<Tenant>, r: State, n: State, failed: seq<Tenant>)
    requires Answered(s, batch, r, failed) && n.timing == r.timing && n.replies == r.replies
    requires batch != [] ==> n.rss == SetStatus(r.rss, batch[|batch| - 1], FAILED)
    ensures Ended(s, batch, n, failed)
  {
    assert s.replies <= n.replies && |n.replies| <= |s.replies| + 1;
    hide SetStatus, Answered, StatusOf, EndStatus, AnswerTo;
    forall t | t in batch
      ensures StatusOf(n.rss, t) == EndStatus(AnswerTo(s, n), t in failed, t == batch[|batch| - 1], n.timing == map[])
    {
      HandlingEnds(s, batch, r, n, failed, t);
    }
  }

  lemma HandlerShape(r: State, e: Event)
    requires Inv(r) && Enabled(r, e) && e.Handle?
    ensures r.loop.Handling? && r.current.Some?
    ensures Step(r, e) == r.(rss := SetStatus(r.rss, r.current.value, FAILED), loop := Closing(r.loop.batch))
  {
    hide TimingOk, BatchOk, ConfigsOk, SetStatus;
  }

  lemma HandlerMarks(s: State, batch: seq<Tenant>, r: State, e: Event, failed: seq<Tenant>)
    requires Inv(r) && Enabled(r, e) && e.Handle? && RoundStatus(s, batch, r, failed)
    ensures RoundStatus(s, batch, Step(r, e), failed)
  {
    HandlerShape(r, e);
    hide Inv, Enabled, Step;
    HandlingStatus(s, batch, r, failed);
    var n := r.(rss := SetStatus(r.rss, r.current.value, FAILED), loop := Closing(batch));
    hide RoundStatus, SetStatus, Answered, Ended, Behind;
    HandledRoundEnds(s, batch, r, n, failed);
    ClosingStatus(s, batch, n, failed);
  }

  lemma HandlingStatus(s: State, batch: seq<Tenant>, r: State, failed: seq<Tenant>)
    requires RoundStatus(s, batch, r, failed) && r.loop.Handling?
    ensures r.loop.batch == batch && Answered(s, batch, r, failed)
    ensures batch != [] ==> r.current == Some(batch[|batch| - 1])
  {
    hide Answered;
  }

  lemma ClosingStatus(s: State, batch: seq<Tenant>, n: State, failed: seq<Tenant>)
    requires n.loop == Closing(batch) && Ended(s, batch, n, failed)
    requires batch != [] ==> n.current == Some(batch[|batch| - 1])
    ensures RoundStatus(s, batch, n, failed)
  {
    hide Ended;
  }

  lemma StatusIsKept(s: State, batch: seq<Tenant>, r: State, w: multiset<Call>, failed: seq<Tenant>)
    requires RoundStatus(s, batch, r, failed)
    ensures RoundStatus(s, batch, r.(waiting := w), failed)
  {
    hide Marked, AllAre, StatusOf, EndStatus;
  }

  lemma StepKeepsStatus(s: State, batch: seq<Tenant>, r: State, e: Event, failed: seq<Tenant>)
    requires Inv(r) && Enabled(r, e) && !IsMonitor(e) && Distinct(batch) && RoundStatus(s, batch, r, failed)
    requires r.holder.HeldByLoop? && Step(r, e).holder.HeldByLoop?
    ensures RoundStatus(s, batch, Step(r, e), failed + FailedBy(r, e))
  {
    assert !e.Snapshot? && !e.Release?;
    assert !e.FailTenant? ==> failed + FailedBy(r, e) == failed;
    if Outside(e) {
      CallsOnlyWait(r, e);
      StatusIsKept(s, batch, r, Step(r, e).waiting, failed);
    } else {
      hide Step, Enabled, Inv, RoundStatus, FailedBy;
      if e.BeginTenant? {
        BeginMarks(s, batch, r, e, failed);
      } else if e.NosAnswers? {
        AnswerMarks(s, batch, r, e, failed);
      } else if e.Collect? {
        CollectMarks(s, batch, r, e, failed);
      } else if e.FailTenant? {
        FailingMarks(s, batch, r, e, failed);
      } else if e.EndTenants? {
        EndMarks(s, batch, r, e, failed);
      } else {
        CallKeepsStatus(s, batch, r, e, failed);
      }
    }
  }

  lemma CallKeepsStatus(s: State, batch: seq<Tenant>, r: State, e: Event, failed: seq<Tenant>)
    requires Inv(r) && Enabled(r, e) && RoundStatus(s, batch, r, failed)
    requires e.InAnswers? || e.MarkProcessed? || e.MarkFailed? || e.Handle?
    ensures RoundStatus(s, batch, Step(r, e), failed)
  {
    hide Step, Enabled, Inv, RoundStatus;
    if e.InAnswers? {
      CallMarks(s, batch, r, e, failed);
    } else if e.MarkFailed? {
      RefusalMarks(s, batch, r, e, failed);
    } else if e.MarkProcessed? {
      AcceptanceMarks(s, batch, r, e, failed);
    } else {
      HandlerMarks(s, batch, r, e, failed);
    }
  }

  // -------------------------------------------------------------------------
  // The end of a round
  // -------------------------------------------------------------------------

  lemma {:induction false} RoundKeepsStatus(s: State, batch: seq<Tenant>, due: bool, events: seq<Event>)
    requires Inv(s) && Enabled(s, Snapshot(batch, due)) && RoundHeld(Step(s, Snapshot(batch, due)), events) && NoMonitor(events)
    ensures var first := Step(s, Snapshot(batch, due));
            RoundStatus(s, batch, RunFrom(first, events), FailedIn(first, events))
    decreases events
  {
    var first := Step(s, Snapshot(batch, due));
    StepKeepsInv(s, Snapshot(batch, due));
    if events != [] {
      var before, e := events[..|events| - 1], events[|events| - 1];
      RoundKeepsStatus(s, batch, due, before);
      RunFromKeepsInv(first, before);
      var r := RunFrom(first, before);
      assert Distinct(batch);
      hide Inv, Enabled, Step, RoundStatus, FailedBy, Distinct;
      if Enabled(r, e) {
        StepKeepsStatus(s, batch, r, e, FailedIn(first, before));
      } else {
        assert FailedIn(first, events) == FailedIn(first, before);
      }
    }
  }

  /** A round without monitor steps ends, for each tenant of its batch, in one of three
      statuses. It is PROCESSED exactly if the in-network call of the round was answered
      with 200, whether or not the NOS updater took the tenant's config; only when the
      round then raises its last tenant is FAILED. It stays PROCESSING exactly if the call
      raised and the tenant was accepted before, unless it is the last. */
  lemma RoundEndsIn(s: State, batch: seq<Tenant>, due: bool, events: seq<Event>, t: Tenant)
    requires Inv(s) && Enabled(s, Snapshot(batch, due)) && RoundHeld(Step(s, Snapshot(batch, due)), events) && NoMonitor(events)
    requires RunFrom(Step(s, Snapshot(batch, due)), events).loop.Closing? && t in batch
    ensures var first := Step(s, Snapshot(batch, due));
            var r := RunFrom(first, events);
            var status, last := StatusOf(r.rss, t), t == batch[|batch| - 1];
            && r.current == Some(batch[|batch| - 1])
            && s.replies <= r.replies && |r.replies| <= |s.replies| + 1
            && (status == PROCESSED <==> AnswerTo(s, r) == Some(InOk) && (r.timing == map[] || !last))
            && (status == PROCESSING <==> AnswerTo(s, r) == Some(InRaised) && t !in FailedIn(first, events) && !last)
            && status in {PROCESSED, PROCESSING, FAILED}
  {
    hide Inv, Enabled, Step, RoundHeld, NoMonitor, FailedIn, RunFrom, StatusOf, AnswerTo;
    RoundKeepsStatus(s, batch, due, events);
  }

  /** So a tenant whose own update failed ends as PROCESSED exactly if the call made for
      the others was answered with 200 and the round did not fail on it as its last. */
  lemma FailedTenantIsProcessedIff(s: State, batch: seq<Tenant>, due: bool, events: seq<Event>, t: Tenant)
    requires Inv(s) && Enabled(s, Snapshot(batch, due)) && RoundHeld(Step(s, Snapshot(batch, due)), events) && NoMonitor(events)
    requires RunFrom(Step(s, Snapshot(batch, due)), events).loop.Closing?
    requires t in FailedIn(Step(s, Snapshot(batch, due)), events)
    ensures var r := RunFrom(Step(s, Snapshot(batch, due)), events);
            && t in batch
            && StatusOf(r.rss, t) ==
               if AnswerTo(s, r) == Some(InOk) && (r.timing == map[] || r.current != Some(t)) then PROCESSED else FAILED
  {
    var first := Step(s, Snapshot(batch, due));
    assert t in batch by {
      TenantsAreAcceptedOrFailed(s, batch, due, events, t);
      hide Inv, Enabled, Step, RoundHeld, NoMonitor, FailedIn, RunFrom, Tenants;
    }
    hide Inv, Enabled, Step, RoundHeld, NoMonitor, FailedIn, RunFrom, StatusOf, AnswerTo;
    RoundEndsIn(s, batch, due, events, t);
  }
}
