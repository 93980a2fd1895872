/** What a run of the scheduler guarantees to the tenants. */
module SchedulerOutcomes {
  import opened Scheduler
  import opened SchedulerSafety

  lemma StepKeepsInv(s: State, e: Event)
    requires Inv(s) && Enabled(s, e)
    ensures Inv(Step(s, e))
  {
    hide Enabled, Step, LocksOk, TimingOk, BatchOk, ConfigsOk;
    StepKeepsLocks(s, e);
    StepKeepsTiming(s, e);
    StepKeepsBatch(s, e);
    StepKeepsConfigs(s, e);
  }

  lemma {:induction false} RunFromKeepsInv(s: State, events: seq<Event>)
    requires Inv(s)
    ensures Inv(RunFrom(s, events))
    decreases events
  {
    hide Inv, Enabled, Step;
    if events != [] {
      var before, e := events[..|events| - 1], events[|events| - 1];
      RunFromKeepsInv(s, before);
      if Enabled(RunFrom(s, before), e) {
        StepKeepsInv(RunFrom(s, before), e);
      }
    }
  }

  lemma RunFromExtends(s: State, events: seq<Event>, e: Event)
    requires Enabled(RunFrom(s, events), e)
    ensures RunFrom(s, events + [e]) == Step(RunFrom(s, events), e)
  {
    hide Enabled, Step;
    assert (events + [e])[..|events|] == events;
  }

  /** One step of a given run. */
  ghost predicate Leads(s: State, e: Event, r: State) {
    Enabled(s, e) && Step(s, e) == r
  }

  lemma LeadsOn(events: seq<Event>, k: nat, s: State, r: State)
    requires k < |events| && Run(events[..k]) == s && Leads(s, events[k], r)
    ensures Run(events[..k + 1]) == r
  {
    hide Enabled, Step;
    assert events[..k + 1] == events[..k] + [events[k]];
    RunFromExtends(INITIAL, events[..k], events[k]);
  }

  lemma RunKeepsInv(events: seq<Event>)
    ensures Inv(Run(events))
  {
    assert Inv(INITIAL);
    RunFromKeepsInv(INITIAL, events);
  }

  // -------------------------------------------------------------------------
  // A round
  // -------------------------------------------------------------------------

  /** deployment_lock excludes RPCs from rounds: the loop holds it in every state of a
      round and in no other, so a call that holds it finds the loop between rounds. */
  lemma RoundsExcludeCalls(events: seq<Event>)
    ensures var s := Run(events);
            && (s.holder.HeldByLoop? <==> !s.loop.Waiting?)
            && (s.holder.HeldByCall? ==> s.loop.Waiting?)
  {
    hide Run, ConfigsOk, BatchOk, TimingOk;
    RunKeepsInv(events);
  }

  /** The lookups in the timing structure and of the loop variable always succeed. */
  lemma LookupsSucceed(events: seq<Event>)
    ensures var s := Run(events);
            && (s.loop.Begin? && s.loop.i < |s.loop.batch| ==> BeginStep(s).loop.Asking?)
            && (s.loop.Accepted? ==> TimedPrefix(s.loop.batch, s.timing.Keys) == |s.loop.batch|)
            && (s.loop.Handling? ==> s.current.Some?)
            && !s.loop.Dead?
  {
    hide Run, ConfigsOk, BatchOk;
    RunKeepsInv(events);
    var s := Run(events);
    if s.loop.Begin? && s.loop.i < |s.loop.batch| {
      assert s.loop.batch[s.loop.i] in s.loop.batch;
      TimingAt(s, s.loop.batch[s.loop.i]);
    } else if s.loop.Accepted? {
      BatchIsTimed(s);
    }
  }

  /** A round that had a batch leaves no tenant SCHEDULED. */
  lemma NothingStaysScheduled(events: seq<Event>)
    requires Run(events).loop.Closing?
    ensures forall t :: !Scheduled(Step(Run(events), Release).rss, t)
  {
    hide Run, ConfigsOk, LocksOk, TimingOk;
    RunKeepsInv(events);
    var s := Run(events);
    assert Ahead(s.loop) == [];
  }

  /** The answer of the in-network updater decides the status of the whole batch, also
      of the tenants whose NOS update failed; a failed round then marks the tenant it
      worked on last. */
  lemma AnswerMarksBatch(events: seq<Event>, before: set<Tenant>, saveFails: bool)
    ensures var s := Run(events);
            && (s.loop.Refused? ==>
                  forall t :: t in s.loop.batch ==>
                    t in Step(s, MarkFailed).rss && Step(s, MarkFailed).rss[t].status == FAILED)
            && (s.loop.Accepted? ==>
                  var r := Step(s, MarkProcessed(before, saveFails));
                  && (forall t :: t in s.loop.batch ==> t in r.rss && r.rss[t].status == PROCESSED)
                  && r.pending == [] && (r.loop.Closing? || r.loop.Handling?))
            && (s.loop.Handling? ==>
                  var r := Step(s, Handle);
                  s.current.Some? && s.current.value in r.rss && r.rss[s.current.value].status == FAILED
                  && r.loop == Closing(s.loop.batch))
  {
    hide Run, ConfigsOk, BatchOk, SetStatuses, Finish, Pop, AllComplete;
    RunKeepsInv(events);
    var s := Run(events);
    if s.loop.Refused? {
      StatusesSet(s.rss, s.loop.batch, FAILED);
    } else if s.loop.Accepted? {
      BatchIsTimed(s);
      StatusesSet(s.rss, s.loop.batch, PROCESSED);
    }
  }

  // -------------------------------------------------------------------------
  // The snapshot
  // -------------------------------------------------------------------------

  /** deployment_lock stays with the loop from s to the end of the events. */
  ghost predicate RoundHeld(s: State, events: seq<Event>) {
    RunFrom(s, events).holder.HeldByLoop? && (events != [] ==> RoundHeld(s, events[..|events| - 1]))
  }

  ghost predicate Stored(rss: Storage, e: Entry) {
    e.tenant in rss && e.config == rss[e.tenant].inTConfig
  }

  /** Since the snapshot of `batch` in `s`, only configs stored then have been accepted. */
  ghost predicate AcceptsSnapshot(s: State, batch: seq<Tenant>, r: State) {
    && s.accepted <= r.accepted
    && (forall k :: |s.accepted| <= k < |r.accepted| ==> Stored(s.rss, r.accepted[k]) && r.accepted[k].tenant in batch)
    && (HasBatch(r.loop) ==> r.loop.batch == batch)
    && (r.loop.Asking? || r.loop.Collecting? ==> Stored(s.rss, r.loop.entry) && r.loop.entry.tenant in batch)
  }

  /** And no stored config or action has changed. */
  ghost predicate FollowsSnapshot(s: State, batch: seq<Tenant>, r: State) {
    SameConfigs(s.rss, r.rss) && AcceptsSnapshot(s, batch, r)
  }

  lemma SameConfigsCompose(a: Storage, b: Storage, c: Storage)
    requires SameConfigs(a, b) && SameConfigs(b, c)
    ensures SameConfigs(a, c)
  {
  }

  lemma StepKeepsStorage(r: State, e: Event)
    requires Inv(r) && Enabled(r, e) && r.holder.HeldByLoop?
    ensures SameConfigs(r.rss, Step(r, e).rss)
  {
    hide ConfigsOk, BatchOk, SetStatuses, Finish, Pop, AllComplete;
    if Outside(e) {
      OutsidersLeaveTheRound(r, e);
    } else if e.MarkProcessed? {
      BatchIsTimed(r);
      StatusesSet(r.rss, r.loop.batch, PROCESSED);
    } else if e.MarkFailed? {
      StatusesSet(r.rss, r.loop.batch, FAILED);
    }
  }

  lemma BeginningReadsSnapshot(s: State, batch: seq<Tenant>, r: State)
    requires FollowsSnapshot(s, batch, r) && (forall t :: t in batch ==> t in s.rss)
    requires r.loop.Begin? && r.loop.i < |r.loop.batch|
    ensures BeginStep(r).loop.Asking? ==> Stored(s.rss, BeginStep(r).loop.entry)
  {
    assert r.loop.batch[r.loop.i] in batch;
  }

  /** How a step inside a round moves the loop and when it accepts a config. */
  lemma LoopShape(r: State, e: Event)
    requires Enabled(r, e) && !Outside(e) && !e.Snapshot? && !e.Release?
    ensures var n := Step(r, e);
            && HasBatch(r.loop) && (HasBatch(n.loop) ==> n.loop.batch == r.loop.batch)
            && (n.loop.Collecting? ==> r.loop.Asking? && n.loop.i == r.loop.i && n.loop.entry == r.loop.entry)
            && (n.loop.Asking? ==> e.BeginTenant?)
            && n.accepted == r.accepted + if n.loop.Collecting? then [n.loop.entry] else []
  {
    hide SetStatus, SetStatuses, TimedPrefix, Finish, Pop, AllComplete;
  }

  lemma StepAcceptsSnapshot(s: State, batch: seq<Tenant>, r: State, e: Event)
    requires Inv(r) && Enabled(r, e) && FollowsSnapshot(s, batch, r) && (forall t :: t in batch ==> t in s.rss)
    requires r.holder.HeldByLoop?
    ensures AcceptsSnapshot(s, batch, Step(r, e))
  {
    if Outside(e) {
      OutsidersLeaveTheRound(r, e);
      hide Step, Enabled, Inv, SameConfigs;
    } else if e.Release? {
      hide Inv, SameConfigs, Stored;
    } else {
      assert !e.Snapshot?;
      LoopShape(r, e);
      if e.BeginTenant? {
        BeginningReadsSnapshot(s, batch, r);
        assert Step(r, e) == BeginStep(r);
      }
      hide Inv, SameConfigs, Step, Enabled, Stored, BeginStep;
    }
  }

  lemma StepFollowsSnapshot(s: State, batch: seq<Tenant>, r: State, e: Event)
    requires Inv(r) && Enabled(r, e) && FollowsSnapshot(s, batch, r) && (forall t :: t in batch ==> t in s.rss)
    requires r.holder.HeldByLoop?
    ensures FollowsSnapshot(s, batch, Step(r, e))
  {
    StepAcceptsSnapshot(s, batch, r, e);
    StepKeepsStorage(r, e);
    hide Inv, Enabled, Step, SameConfigs, AcceptsSnapshot;
    SameConfigsCompose(s.rss, r.rss, Step(r, e).rss);
  }

  /** Between the snapshot and the release of deployment_lock no stored config or
      action changes, whatever the other threads do, and every config the NOS updater
      accepts is that of a batch tenant at the snapshot. */
  lemma {:induction false} RoundFollowsSnapshot(s: State, batch: seq<Tenant>, due: bool, events: seq<Event>)
    requires Inv(s) && Enabled(s, Snapshot(batch, due)) && RoundHeld(Step(s, Snapshot(batch, due)), events)
    ensures FollowsSnapshot(s, batch, RunFrom(Step(s, Snapshot(batch, due)), events))
    decreases events
  {
    var first := Step(s, Snapshot(batch, due));
    StepKeepsInv(s, Snapshot(batch, due));
    if events != [] {
      var before, e := events[..|events| - 1], events[|events| - 1];
      RoundFollowsSnapshot(s, batch, due, before);
      RunFromKeepsInv(first, before);
      var r := RunFrom(first, before);
      if Enabled(r, e) {
        StepFollowsSnapshot(s, batch, r, e);
      }
    }
  }
}
