/** What the stored configs and statuses of a tenant say about the calls made for it. */
module SchedulerRecords {
  import opened Options
  import opened Scheduler
  import opened SchedulerSafety
  import opened SchedulerOutcomes

  // -------------------------------------------------------------------------
  // Stored configs
  // -------------------------------------------------------------------------

  /** A committed Schedule call for a tenant, or the removal of the tenant. */
  datatype Change =
    | Gave(action: Option<Action>, tConfig: Option<Config>, inTConfig: Option<Config>)
    | Removed

  function ActionOf(c: Change): Option<Action> {
    if c.Gave? then c.action else None
  }

  function TConfigOf(c: Change): Option<Config> {
    if c.Gave? then c.tConfig else None
  }

  function InTConfigOf(c: Change): Option<Config> {
    if c.Gave? then c.inTConfig else None
  }

  /** The step commits a Schedule call for the tenant. */
  ghost predicate Schedules(s: State, e: Event, t: Tenant)
    requires Enabled(s, e)
  {
    e.Commit? && s.holder.call.ToSchedule? && s.holder.call.tenant == t
  }

  ghost function ChangesBy(s: State, e: Event, t: Tenant): seq<Change>
    requires Enabled(s, e)
  {
    if Schedules(s, e, t) then
      [Gave(Some(s.holder.call.action), s.holder.call.tConfig, s.holder.call.inTConfig)]
    else if e == Remove(t) then [Removed]
    else []
  }

  /** The changes made for a tenant in a run, oldest first. */
  ghost function Changes(events: seq<Event>, t: Tenant): seq<Change> {
    if events == [] then [] else
    var before, e := events[..|events| - 1], events[|events| - 1];
    Changes(before, t) + if Enabled(Run(before), e) then ChangesBy(Run(before), e, t) else []
  }

  /** `v` is the value of the part in the last change that gives one, unless the tenant
      was removed afterwards. */
  ghost predicate IsLastGiven<T(!new)>(changes: seq<Change>, part: Change -> Option<T>, v: Option<T>) {
    match v
    case Some(_) =>
      exists i :: 0 <= i < |changes| && part(changes[i]) == v
                  && forall j :: i < j < |changes| ==> changes[j].Gave? && part(changes[j]).None?
    case None =>
      forall i :: 0 <= i < |changes| && part(changes[i]).Some? ==> exists j :: i < j < |changes| && changes[j].Removed?
  }

  lemma GivingAppends<T(!new)>(changes: seq<Change>, part: Change -> Option<T>, v: Option<T>, c: Change)
    requires IsLastGiven(changes, part, v) && c.Gave?
    ensures IsLastGiven(changes + [c], part, Or(part(c), v))
  {
    var all := changes + [c];
    assert all[|changes|] == c;
    if part(c).None? {
      if v.Some? {
        var i :| 0 <= i < |changes| && part(changes[i]) == v
                 && forall j :: i < j < |changes| ==> changes[j].Gave? && part(changes[j]).None?;
        assert part(all[i]) == v;
      } else {
        forall i | 0 <= i < |all| && part(all[i]).Some?
          ensures exists j :: i < j < |all| && all[j].Removed?
        {
          assert part(changes[i]).Some?;
          var j :| i < j < |changes| && changes[j].Removed?;
          assert all[j].Removed?;
        }
      }
    }
  }

  lemma RemovalAppends<T(!new)>(changes: seq<Change>, part: Change -> Option<T>)
    requires part(Removed).None?
    ensures IsLastGiven(changes + [Removed], part, None)
  {
    var all := changes + [Removed];
    assert all[|changes|].Removed?;
  }

  /** What is stored for a tenant besides its status; a missing key stores nothing. */
  function Parts(rss: Storage, t: Tenant): Row {
    if t in rss then rss[t].(status := UNSPECIFIED) else Row(None, None, None, UNSPECIFIED)
  }

  lemma {:induction false} StatusesKeepParts(rss: Storage, ts: seq<Tenant>, status: Status, t: Tenant)
    ensures Parts(SetStatuses(rss, ts, status), t) == Parts(rss, t)
    decreases ts
  {
    if ts != [] {
      StatusesKeepParts(SetStatus(rss, ts[0], status), ts[1..], status, t);
    }
  }

  lemma MarkingKeepsParts(s: State, e: Event, t: Tenant)
    requires Enabled(s, e) && (e.MarkProcessed? || e.MarkFailed?)
    ensures Parts(Step(s, e).rss, t) == Parts(s.rss, t)
  {
    hide SetStatuses, Parts, Finish, Pop, AllComplete;
    if e.MarkFailed? {
      StatusesKeepParts(s.rss, s.loop.batch, FAILED, t);
    } else {
      StatusesKeepParts(s.rss, s.loop.batch, PROCESSED, t);
      var known := TimedPrefix(s.loop.batch, s.timing.Keys);
      if known < |s.loop.batch| {
        StatusesKeepParts(s.rss, s.loop.batch[..known + 1], PROCESSED, t);
      }
    }
  }

  lemma CommitParts(s: State, t: Tenant)
    requires Enabled(s, Commit)
    ensures var p, r, changes := Parts(s.rss, t), Parts(Step(s, Commit).rss, t), ChangesBy(s, Commit, t);
            && (changes == [] ==> r == p)
            && (changes != [] ==>
                  var c := changes[0];
                  && changes == [c] && c.Gave?
                  && r == Row(Or(c.action, p.action), Or(c.tConfig, p.tConfig), Or(c.inTConfig, p.inTConfig), UNSPECIFIED))
  {
  }

  lemma OtherStepsKeepParts(s: State, e: Event, t: Tenant)
    requires Enabled(s, e) && !e.Commit? && !e.MarkProcessed? && !e.MarkFailed?
    ensures Parts(Step(s, e).rss, t) == if e == Remove(t) then Row(None, None, None, UNSPECIFIED) else Parts(s.rss, t)
  {
    hide Admit, IsBatch;
  }

  ghost predicate StoresLast(rss: Storage, t: Tenant, changes: seq<Change>) {
    var p := Parts(rss, t);
    && IsLastGiven(changes, ActionOf, p.action)
    && IsLastGiven(changes, TConfigOf, p.tConfig)
    && IsLastGiven(changes, InTConfigOf, p.inTConfig)
  }

  lemma StepStoresLast(s: State, e: Event, t: Tenant, changes: seq<Change>)
    requires Enabled(s, e) && StoresLast(s.rss, t, changes)
    ensures StoresLast(Step(s, e).rss, t, changes + ChangesBy(s, e, t))
  {
    var more := ChangesBy(s, e, t);
    if more == [] {
      assert changes + more == changes;
    }
    if e.Commit? {
      CommitParts(s, t);
      hide IsLastGiven, Parts, Step;
      if more != [] {
        GivingAppends(changes, ActionOf, Parts(s.rss, t).action, more[0]);
        GivingAppends(changes, TConfigOf, Parts(s.rss, t).tConfig, more[0]);
        GivingAppends(changes, InTConfigOf, Parts(s.rss, t).inTConfig, more[0]);
      }
    } else if e.MarkProcessed? || e.MarkFailed? {
      MarkingKeepsParts(s, e, t);
      hide IsLastGiven, Parts, Step;
    } else {
      OtherStepsKeepParts(s, e, t);
      hide IsLastGiven, Parts, Step;
      if more != [] {
        RemovalAppends(changes, ActionOf);
        RemovalAppends(changes, TConfigOf);
        RemovalAppends(changes, InTConfigOf);
      }
    }
  }

  /** In every run the action and the two configs stored for a tenant are each the last
      one given by the Schedule calls committed for it since it was last removed. */
  lemma {:induction false} StoredConfigsAreLastGiven(events: seq<Event>, t: Tenant)
    ensures StoresLast(Run(events).rss, t, Changes(events, t))
  {
    if events != [] {
      var before, e := events[..|events| - 1], events[|events| - 1];
      StoredConfigsAreLastGiven(before, t);
      hide StoresLast, Enabled, Step, ChangesBy;
      if Enabled(Run(before), e) {
        StepStoresLast(Run(before), e, t, Changes(before, t));
      } else {
        assert Changes(events, t) == Changes(before, t);
      }
    }
  }

  // -------------------------------------------------------------------------
  // Deleted tenants
  // -------------------------------------------------------------------------

  /** No Schedule call for the tenant is committed on the way. */
  ghost predicate NeverScheduled(s: State, events: seq<Event>, t: Tenant) {
    events == [] ||
    var before, e := events[..|events| - 1], events[|events| - 1];
    var r := RunFrom(s, before);
    && NeverScheduled(s, before, t)
    && (Enabled(r, e) ==> !Schedules(r, e, t))
  }

  /** The loop has nothing to do with the tenant. */
  predicate LeavesOut(l: Loop, t: Tenant) {
    && (HasBatch(l) ==> t !in l.batch)
    && (l.Asking? || l.Collecting? ==> l.entry.tenant != t)
  }

  ghost predicate StaysOut(s: State, r: State, t: Tenant) {
    && !Scheduled(r.rss, t) && LeavesOut(r.loop, t)
    && s.accepted <= r.accepted && (forall k :: |s.accepted| <= k < |r.accepted| ==> r.accepted[k].tenant != t)
  }

  lemma StepDoesNotSchedule(s: State, e: Event, t: Tenant)
    requires Inv(s) && Enabled(s, e) && !Scheduled(s.rss, t) && !Schedules(s, e, t)
    ensures !Scheduled(Step(s, e).rss, t)
  {
    if e.MarkFailed? {
      StatusesSet(s.rss, s.loop.batch, FAILED);
      hide SetStatuses, SameConfigs;
    } else if e.MarkProcessed? {
      MarkProcessedDoesNotSchedule(s, e, t);
    } else {
      hide Admit, IsBatch;
    }
  }

  lemma MarkProcessedDoesNotSchedule(s: State, e: Event, t: Tenant)
    requires Inv(s) && Enabled(s, e) && e.MarkProcessed? && !Scheduled(s.rss, t)
    ensures !Scheduled(Step(s, e).rss, t)
  {
    StatusesSet(s.rss, s.loop.batch, PROCESSED);
    BatchIsTimed(s);
    hide Inv, TimedPrefix, SetStatuses, SameConfigs, Finish, Pop, AllComplete;
  }

  lemma StepLeavesOut(r: State, e: Event, t: Tenant)
    requires Inv(r) && Enabled(r, e) && !Scheduled(r.rss, t) && LeavesOut(r.loop, t)
    ensures LeavesOut(Step(r, e).loop, t)
    ensures Step(r, e).accepted == r.accepted || (r.loop.Asking? && Step(r, e).accepted == r.accepted + [r.loop.entry])
  {
    if Outside(e) {
      OutsidersLeaveTheRound(r, e);
      hide Step, Enabled, Inv;
    } else if e.Snapshot? || e.Release? {
      hide Inv;
    } else {
      LoopShape(r, e);
      if e.BeginTenant? {
        assert r.loop.batch[r.loop.i] in r.loop.batch;
        assert Step(r, e) == BeginStep(r);
        hide SetStatus;
      } else {
        hide Step, Enabled, Inv;
      }
    }
  }

  lemma {:induction false} UnscheduledStaysOut(s: State, events: seq<Event>, t: Tenant)
    requires Inv(s) && s.loop.Waiting? && !Scheduled(s.rss, t) && NeverScheduled(s, events, t)
    ensures StaysOut(s, RunFrom(s, events), t)
    decreases events
  {
    if events != [] {
      var before, e := events[..|events| - 1], events[|events| - 1];
      UnscheduledStaysOut(s, before, t);
      RunFromKeepsInv(s, before);
      var r := RunFrom(s, before);
      if Enabled(r, e) {
        hide Inv, Enabled, Step, Scheduled;
        StepDoesNotSchedule(r, e, t);
        StepLeavesOut(r, e, t);
      }
    }
  }

  lemma DeletionUnschedules(s: State, t: Tenant)
    requires s.holder.HeldByCall? && (s.holder.call == ToDelete(t) || s.holder.call.ToCleanUp?)
    ensures !Scheduled(Step(s, Commit).rss, t) && Step(s, Commit).loop == s.loop
    ensures SameConfigs(s.rss, Step(s, Commit).rss)
  {
  }

  /** Once a deletion of the tenant or a cleanup is committed, no interleaving makes the
      tenant SCHEDULED, takes it into a batch or gets a config of it accepted by the NOS
      updater, until another Schedule call for it is committed. */
  lemma DeletedIsNotDeployed(events: seq<Event>, more: seq<Event>, t: Tenant)
    requires var s := Run(events);
             s.holder.HeldByCall? && (s.holder.call == ToDelete(t) || s.holder.call.ToCleanUp?)
             && NeverScheduled(Step(s, Commit), more, t)
    ensures var s := Step(Run(events), Commit);
            StaysOut(s, RunFrom(s, more), t)
  {
    hide StaysOut, NeverScheduled;
    var s := Run(events);
    RunKeepsInv(events);
    RoundsExcludeCalls(events);
    DeletionUnschedules(s, t);
    StepKeepsInv(s, Commit);
    hide Run, Inv, Step, Enabled;
    UnscheduledStaysOut(Step(s, Commit), more, t);
  }
}
