/** When the postprocessing of the timing data fails, and for how long. */
module SchedulerTiming {
  import opened Scheduler
  import opened SchedulerSafety
  import opened SchedulerOutcomes

  /** An entry outside the batch that lacks a time. */
  ghost predicate IsStale(s: State, t: Tenant)
    requires HasBatch(s.loop)
  {
    t in s.timing && t !in s.loop.batch && !IsComplete(s.timing[t])
  }

  lemma BatchIsFinished(s: State, t: Tenant)
    requires Inv(s) && s.loop.Accepted? && t in s.loop.batch
    ensures t in s.timing && IsComplete(Finish(s.timing, s.loop.batch)[t])
  {
    TimingAt(s, t);
  }

  lemma OthersStayAsTheyAre(timing: Timing, batch: seq<Tenant>, t: Tenant)
    requires t in timing && t !in batch
    ensures t in Finish(timing, batch) && Finish(timing, batch)[t] == timing[t]
  {
  }

  lemma CompleteIffNoneStale(s: State)
    requires Inv(s) && s.loop.Accepted?
    ensures AllComplete(Finish(s.timing, s.loop.batch)) <==> forall t :: !IsStale(s, t)
  {
    var timing := Finish(s.timing, s.loop.batch);
    forall t | t in timing
      ensures IsComplete(timing[t]) <==> !IsStale(s, t)
    {
      if t in s.loop.batch {
        BatchIsFinished(s, t);
      } else {
        OthersStayAsTheyAre(s.timing, s.loop.batch, t);
      }
    }
    forall t | t !in timing
      ensures !IsStale(s, t)
    {
    }
    hide Inv, IsComplete, IsStale, Finish;
  }

  /** After a 200 answer the postprocessing gets to its end, and the round closes without
      an exception, exactly if no entry of an earlier batch lacks a time and the data
      can be saved: the entries of the batch itself always have all three times. */
  lemma PostprocessingSucceedsIff(events: seq<Event>, before: set<Tenant>, saveFails: bool)
    requires Run(events).loop.Accepted?
    ensures var s := Run(events);
            var r := Step(s, MarkProcessed(before, saveFails));
            && (r.loop.Closing? <==> !saveFails && forall t :: !IsStale(s, t))
            && (r.loop.Closing? ==> r.timing == map[])
            && (!r.loop.Closing? ==> r.loop.Handling? && r.timing.Keys == s.timing.Keys)
  {
    RunKeepsInv(events);
    var s := Run(events);
    BatchIsTimed(s);
    CompleteIffNoneStale(s);
    hide Run, Inv, AllComplete, IsStale, SetStatuses;
  }

  /** Whether an entry had all three times, once the batch is finished. */
  ghost predicate HadAllTimes(s: State, t: Tenant)
    requires HasBatch(s.loop)
  {
    t in s.timing && (t in s.loop.batch || IsComplete(s.timing[t]))
  }

  /** A raising postprocessing leaves every entry in the structure: those it came through have
      lost their times, the others have at most gained their end. */
  lemma RaisedRoundLeavesTimes(events: seq<Event>, before: set<Tenant>, saveFails: bool, t: Tenant)
    requires Run(events).loop.Accepted? && t in Run(events).timing
    ensures var s := Run(events);
            var r := Step(s, MarkProcessed(before, saveFails));
            r.loop.Handling? ==>
              && t in r.timing
              && r.timing[t] ==
                 if HadAllTimes(s, t) && (t in before || forall u :: !IsStale(s, u)) then Times(false, false, false)
                 else Times(s.timing[t].scheduled, s.timing[t].started, s.timing[t].finished || t in s.loop.batch)
  {
    RunKeepsInv(events);
    var s := Run(events);
    BatchIsTimed(s);
    CompleteIffNoneStale(s);
    if t in s.loop.batch {
      BatchIsFinished(s, t);
    } else {
      OthersStayAsTheyAre(s.timing, s.loop.batch, t);
    }
    hide Run, Inv, AllComplete, IsStale, SetStatuses, TimedPrefix;
  }

  // -------------------------------------------------------------------------
  // Entries left behind
  // -------------------------------------------------------------------------

  ghost predicate Unfinished(s: State, t: Tenant) {
    t in s.timing && !s.timing[t].finished
  }

  /** No round that was answered with 200 had the tenant in its batch. */
  ghost predicate NeverMarked(s: State, events: seq<Event>, t: Tenant) {
    events == [] ||
    var before, e := events[..|events| - 1], events[|events| - 1];
    var r := RunFrom(s, before);
    NeverMarked(s, before, t) && (Enabled(r, e) && e.MarkProcessed? ==> t !in r.loop.batch)
  }

  lemma UnfinishedIsStale(s: State, t: Tenant)
    requires s.loop.Accepted? && Unfinished(s, t) && t !in s.loop.batch
    ensures IsStale(s, t) && !AllComplete(Finish(s.timing, s.loop.batch))
    ensures t in Finish(s.timing, s.loop.batch) && !Finish(s.timing, s.loop.batch)[t].finished
  {
    OthersStayAsTheyAre(s.timing, s.loop.batch, t);
  }

  lemma PopKeepsUnfinished(timing: Timing, before: set<Tenant>, t: Tenant)
    requires t in timing && !timing[t].finished
    ensures t in Pop(timing, before) && !Pop(timing, before)[t].finished
  {
  }

  lemma MarkingKeepsUnfinished(s: State, e: Event, t: Tenant)
    requires Inv(s) && Enabled(s, e) && e.MarkProcessed? && Unfinished(s, t) && t !in s.loop.batch
    ensures Unfinished(Step(s, e), t) && Step(s, e).loop.Handling?
  {
    BatchIsTimed(s);
    UnfinishedIsStale(s, t);
    PopKeepsUnfinished(Finish(s.timing, s.loop.batch), e.before, t);
    hide Inv, Finish, Pop, AllComplete, SetStatuses, TimedPrefix;
  }

  lemma OthersKeepUnfinished(s: State, e: Event, t: Tenant)
    requires Enabled(s, e) && !e.MarkProcessed? && Unfinished(s, t)
    ensures Unfinished(Step(s, e), t)
  {
    hide SetStatus, SetStatuses, Admit, IsBatch;
  }

  lemma StepKeepsUnfinished(s: State, e: Event, t: Tenant)
    requires Inv(s) && Enabled(s, e) && Unfinished(s, t) && (e.MarkProcessed? ==> t !in s.loop.batch)
    ensures Unfinished(Step(s, e), t)
    ensures e.MarkProcessed? ==> Step(s, e).loop.Handling?
  {
    hide Inv, Enabled, Step, Unfinished;
    if e.MarkProcessed? {
      MarkingKeepsUnfinished(s, e, t);
    } else {
      OthersKeepUnfinished(s, e, t);
    }
  }

  lemma {:induction false} UnfinishedStays(s: State, events: seq<Event>, t: Tenant)
    requires Inv(s) && Unfinished(s, t) && NeverMarked(s, events, t)
    ensures Unfinished(RunFrom(s, events), t)
    decreases events
  {
    hide Inv, Enabled, Step, Unfinished;
    if events != [] {
      var front, e := events[..|events| - 1], events[|events| - 1];
      UnfinishedStays(s, front, t);
      RunFromKeepsInv(s, front);
      if Enabled(RunFrom(s, front), e) {
        StepKeepsUnfinished(RunFrom(s, front), e, t);
      }
    }
  }

  /** A tenant whose round was refused, or that was deleted before its round, leaves an
      entry without an end. Until a batch with this tenant is answered with 200, the
      entry stays, and every other round answered with 200 ends in an exception. */
  lemma UnfinishedFailsLaterRounds(s: State, events: seq<Event>, t: Tenant, before: set<Tenant>, saveFails: bool)
    requires Inv(s) && Unfinished(s, t) && NeverMarked(s, events, t)
    ensures var r := RunFrom(s, events);
            && Unfinished(r, t)
            && (r.loop.Accepted? && t !in r.loop.batch ==> Step(r, MarkProcessed(before, saveFails)).loop.Handling?)
  {
    hide Inv, Step, Unfinished, NeverMarked, RunFrom;
    UnfinishedStays(s, events, t);
    RunFromKeepsInv(s, events);
    var r := RunFrom(s, events);
    if r.loop.Accepted? && t !in r.loop.batch {
      StepKeepsUnfinished(r, MarkProcessed(before, saveFails), t);
    }
  }

  /** A committed Schedule call leaves such an entry, unless an end is left over from before. */
  lemma ScheduleLeavesUnfinishedIff(s: State, t: Tenant)
    requires s.holder.HeldByCall? && s.holder.call.ToSchedule? && s.holder.call.tenant == t
    ensures Unfinished(Step(s, Commit), t) <==> t !in s.timing || !s.timing[t].finished
  {
    hide Put;
  }

  /** In every run: from the commit of a tenant's Schedule call on, and whatever then
      becomes of the tenant, rounds answered with 200 end in an exception until one of
      them has the tenant in its batch. */
  lemma ScheduledTenantFailsLaterRounds(events: seq<Event>, more: seq<Event>, t: Tenant, before: set<Tenant>, saveFails: bool)
    requires var s := Run(events);
             && s.holder.HeldByCall? && s.holder.call.ToSchedule? && s.holder.call.tenant == t
             && (t in s.timing ==> !s.timing[t].finished) && NeverMarked(Step(s, Commit), more, t)
    ensures var r := RunFrom(Step(Run(events), Commit), more);
            && Unfinished(r, t)
            && (r.loop.Accepted? && t !in r.loop.batch ==> Step(r, MarkProcessed(before, saveFails)).loop.Handling?)
  {
    var s := Run(events);
    RunKeepsInv(events);
    ScheduleLeavesUnfinishedIff(s, t);
    StepKeepsInv(s, Commit);
    hide Run, Inv, Step, Enabled, Unfinished;
    UnfinishedFailsLaterRounds(Step(s, Commit), more, t, before, saveFails);
  }
}
