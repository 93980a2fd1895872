/** What one round of the deployment loop does with its batch, whatever the other
    threads do meanwhile. */
module SchedulerRounds {
  import opened Scheduler
  import opened SchedulerSafety
  import opened SchedulerOutcomes

  // -------------------------------------------------------------------------
  // What a round sends
  // -------------------------------------------------------------------------

  /** Since the state `s` before the round: what is or will be sent is what was pending
      then and what has been accepted since. */
  ghost predicate SendsRound(s: State, r: State) {
    && s.accepted <= r.accepted
    && var all := s.pending + r.accepted[|s.accepted|..];
    && (r.loop.Skipping? ==> r.sent == s.sent && r.accepted == s.accepted)
    && (Collects(r.loop) ==> r.sent == s.sent && Unsent(r) == all)
    && (IsOver(r.loop) ==> r.sent == s.sent + if all == [] then [] else [all])
  }

  predicate Collects(l: Loop) {
    l.Begin? || l.Asking? || l.Collecting? || l.Failing? || l.Sending?
  }

  predicate IsOver(l: Loop) {
    l.Accepted? || l.Refused? || l.Handling? || l.Closing?
  }

  lemma AnswerSends(s: State, r: State, e: Event)
    requires Enabled(r, e) && SendsRound(s, r) && e.NosAnswers?
    ensures SendsRound(s, Step(r, e))
  {
    var next := Step(r, e);
    if next.loop.Collecting? {
      assert next.accepted[|s.accepted|..] == r.accepted[|s.accepted|..] + [r.loop.entry];
    }
  }

  lemma CollectingSends(s: State, r: State, e: Event)
    requires Enabled(r, e) && SendsRound(s, r)
    requires e.BeginTenant? || e.Collect? || e.FailTenant? || e.EndTenants?
    ensures SendsRound(s, Step(r, e))
  {
    hide SetStatus;
  }

  lemma CallSends(s: State, r: State, e: Event)
    requires Inv(r) && Enabled(r, e) && SendsRound(s, r) && e.InAnswers?
    ensures SendsRound(s, Step(r, e))
  {
    hide LocksOk, TimingOk, BatchOk, Linked, Firsts, Carried;
  }

  lemma MarkingSends(s: State, r: State, e: Event)
    requires Enabled(r, e) && SendsRound(s, r) && (e.MarkProcessed? || e.MarkFailed? || e.Handle?)
    requires Step(r, e).holder.HeldByLoop?
    ensures SendsRound(s, Step(r, e))
  {
    hide SetStatus, SetStatuses, Finish, Pop, AllComplete, TimedPrefix;
  }

  lemma StepSends(s: State, r: State, e: Event)
    requires Inv(r) && Enabled(r, e) && SendsRound(s, r) && r.holder.HeldByLoop? && Step(r, e).holder.HeldByLoop?
    ensures SendsRound(s, Step(r, e))
  {
    assert !e.Snapshot? && !e.Release?;
    if Outside(e) {
      OutsidersLeaveTheRound(r, e);
      hide Step, Enabled, ConfigsOk, TimingOk, BatchOk;
    } else {
      hide Step, Enabled, Inv, SendsRound;
      if e.NosAnswers? {
        AnswerSends(s, r, e);
      } else if e.InAnswers? {
        CallSends(s, r, e);
      } else if e.MarkProcessed? || e.MarkFailed? || e.Handle? {
        MarkingSends(s, r, e);
      } else {
        CollectingSends(s, r, e);
      }
    }
  }

  /** A round hands over, in one call, what was pending at its snapshot followed by what
      it had accepted by the NOS updater, and makes no call if that is nothing. */
  lemma {:induction false} RoundSendsItsConfigs(s: State, batch: seq<Tenant>, due: bool, events: seq<Event>)
    requires Inv(s) && Enabled(s, Snapshot(batch, due)) && RoundHeld(Step(s, Snapshot(batch, due)), events)
    ensures SendsRound(s, RunFrom(Step(s, Snapshot(batch, due)), events))
    decreases events
  {
    var first := Step(s, Snapshot(batch, due));
    StepKeepsInv(s, Snapshot(batch, due));
    if events == [] {
      assert s.pending + [] == s.pending;
    } else {
      var before, e := events[..|events| - 1], events[|events| - 1];
      RoundSendsItsConfigs(s, batch, due, before);
      RunFromKeepsInv(first, before);
      var r := RunFrom(first, before);
      if Enabled(r, e) {
        hide Inv, Enabled, Step, SendsRound;
        StepSends(s, r, e);
      }
    }
  }

  // -------------------------------------------------------------------------
  // Which rounds begin, and which tenants they take
  // -------------------------------------------------------------------------

  /** A round works on its batch exactly if it is due and anything is stored at all; another
      one only gives the lock back. */
  lemma RoundBeginsIff(s: State, batch: seq<Tenant>, due: bool)
    requires Enabled(s, Snapshot(batch, due))
    ensures var r := Step(s, Snapshot(batch, due));
            && r.holder == HeldByLoop && r == s.(holder := r.holder, loop := r.loop)
            && (r.loop == Begin(batch, 0) <==> due && s.rss.Keys != {})
            && (r.loop != Begin(batch, 0) ==>
                  && r.loop == Skipping
                  && forall e :: Enabled(r, e) && !Outside(e) ==> e == Release && Step(r, e) == s.(loop := Waiting, holder := Free))
  {
    hide IsBatch, Admit, LacksConfig;
    assert s.rss == map[] <==> s.rss.Keys == {};
  }

  /** The configs the loop has read are those stored. */
  ghost predicate ReadsStored(s: State) {
    s.loop.Asking? ==>
      && s.loop.i < |s.loop.batch| && s.loop.entry.tenant == s.loop.batch[s.loop.i]
      && s.loop.entry.tenant in s.rss
      && s.rss[s.loop.entry.tenant].tConfig == s.loop.tConfig && s.rss[s.loop.entry.tenant].inTConfig == s.loop.entry.config
  }

  lemma StepReadsStored(s: State, e: Event)
    requires LocksOk(s) && Enabled(s, e) && ReadsStored(s)
    ensures ReadsStored(Step(s, e))
  {
    if Outside(e) {
      OutsidersLeaveTheRound(s, e);
      hide Step, Enabled;
    } else if e.Snapshot? || e.Release? {
      hide IsBatch;
    } else if e.BeginTenant? {
      hide LocksOk;
    } else {
      LoopShape(s, e);
      hide Step, Enabled, LocksOk;
    }
  }

  lemma {:induction false} RunReadsStored(events: seq<Event>)
    ensures ReadsStored(Run(events))
  {
    if events != [] {
      var before, e := events[..|events| - 1], events[|events| - 1];
      RunReadsStored(before);
      RunKeepsInv(before);
      hide Enabled, Step, ReadsStored, TimingOk, BatchOk, ConfigsOk;
      if Enabled(Run(before), e) {
        StepReadsStored(Run(before), e);
      }
    }
  }

  /** In every run a tenant is accepted exactly if a config for the NOS updater is stored and
      is answered with 200; its stored in-network config is then collected next. */
  lemma TenantIsAcceptedIff(events: seq<Event>, reply: NosReply)
    requires Run(events).loop.Asking?
    ensures var s := Run(events);
            var n, i := Step(s, NosAnswers(reply)), s.loop.i;
            && i < |s.loop.batch| && s.loop.batch[i] in s.rss
            && var t := s.loop.batch[i];
            if s.rss[t].tConfig.Some? && reply == NosOk then
              n.accepted == s.accepted + [Entry(t, s.rss[t].inTConfig)] && n.loop == Collecting(s.loop.batch, i, Entry(t, s.rss[t].inTConfig))
            else n.accepted == s.accepted && n.loop == Failing(s.loop.batch, i)
  {
    hide Run;
    RunReadsStored(events);
  }

  // -------------------------------------------------------------------------
  // What becomes of its tenants
  // -------------------------------------------------------------------------

  ghost function Tenants(entries: seq<Entry>): (ts: seq<Tenant>)
    ensures |ts| == |entries| && forall i :: 0 <= i < |ts| ==> ts[i] == entries[i].tenant
  {
    seq(|entries|, i requires 0 <= i < |entries| => entries[i].tenant)
  }

  /** The tenants a step of the loop leaves FAILED because their own update failed. */
  ghost function FailedBy(r: State, e: Event): seq<Tenant>
    requires Enabled(r, e)
  {
    if !e.FailTenant? then [] else
    var t := r.loop.batch[r.loop.i];
    if t in Step(r, e).rss && Step(r, e).rss[t].status == FAILED then [t] else []
  }

  ghost function FailedIn(first: State, events: seq<Event>): seq<Tenant> {
    if events == [] then [] else
    var before, e := events[..|events| - 1], events[|events| - 1];
    var r := RunFrom(first, before);
    FailedIn(first, before) + if Enabled(r, e) then FailedBy(r, e) else []
  }

  /** The tenants of the batch the loop is done with. */
  function Decided(l: Loop): seq<Tenant>
    requires HasBatch(l)
  {
    match l
    case Begin(batch, i) => Upto(batch, i)
    case Asking(batch, i, _, _) => Upto(batch, i)
    case Failing(batch, i) => Upto(batch, i)
    case Collecting(batch, i, _) => Upto(batch, i + 1)
    case _ => l.batch
  }

  function Upto(batch: seq<Tenant>, i: nat): seq<Tenant> {
    if i <= |batch| then batch[..i] else batch
  }

  predicate InRange(l: Loop) {
    match l
    case Begin(batch, i) => i <= |batch|
    case Asking(batch, i, _, entry) => i < |batch| && entry.tenant == batch[i]
    case Collecting(batch, i, entry) => i < |batch| && entry.tenant == batch[i]
    case Failing(batch, i) => i < |batch|
    case _ => true
  }

  /** The tenants decided are those accepted and those failed, each of them once. */
  ghost predicate Decides(s: State, r: State, failed: seq<Tenant>) {
    && s.accepted <= r.accepted
    && InRange(r.loop)
    && (HasBatch(r.loop) ==>
          multiset(Tenants(r.accepted[|s.accepted|..])) + multiset(failed) == multiset(Decided(r.loop)))
  }

  lemma OneMoreAccepted(past: seq<Entry>, accepted: seq<Entry>, e: Entry)
    requires past <= accepted
    ensures past <= accepted + [e]
    ensures Tenants((accepted + [e])[|past|..]) == Tenants(accepted[|past|..]) + [e.tenant]
  {
    assert (accepted + [e])[|past|..] == accepted[|past|..] + [e];
  }

  lemma OneMoreDecided(batch: seq<Tenant>, i: nat)
    requires i < |batch|
    ensures Upto(batch, i + 1) == Upto(batch, i) + [batch[i]]
  {
  }

  lemma SumGrows(accepted: seq<Tenant>, failed: seq<Tenant>, decided: seq<Tenant>, t: Tenant)
    requires multiset(accepted) + multiset(failed) == multiset(decided)
    ensures multiset(accepted + [t]) + multiset(failed) == multiset(decided + [t])
    ensures multiset(accepted) + multiset(failed + [t]) == multiset(decided + [t])
  {
  }

  lemma AnswerShape(r: State, e: Event)
    requires Enabled(r, e) && e.NosAnswers?
    ensures var l, n := r.loop, Step(r, e);
            || (n.loop == Failing(l.batch, l.i) && n.accepted == r.accepted)
            || (n.loop == Collecting(l.batch, l.i, l.entry) && n.accepted == r.accepted + [l.entry])
  {
  }

  lemma RefusalDecides(s: State, r: State, n: State, failed: seq<Tenant>)
    requires Decides(s, r, failed) && r.loop.Asking?
    requires n.loop == Failing(r.loop.batch, r.loop.i) && n.accepted == r.accepted
    ensures Decides(s, n, failed)
  {
    hide Tenants, Upto;
  }

  lemma AcceptanceDecides(s: State, r: State, n: State, failed: seq<Tenant>)
    requires Decides(s, r, failed) && r.loop.Asking?
    requires n.loop == Collecting(r.loop.batch, r.loop.i, r.loop.entry) && n.accepted == r.accepted + [r.loop.entry]
    ensures Decides(s, n, failed)
  {
    var l := r.loop;
    OneMoreAccepted(s.accepted, r.accepted, l.entry);
    OneMoreDecided(l.batch, l.i);
    hide Tenants, Upto;
    SumGrows(Tenants(r.accepted[|s.accepted|..]), failed, Upto(l.batch, l.i), l.entry.tenant);
  }

  lemma AcceptedTenantIsDecided(s: State, r: State, e: Event, failed: seq<Tenant>)
    requires Enabled(r, e) && e.NosAnswers? && Decides(s, r, failed)
    ensures Decides(s, Step(r, e), failed)
  {
    AnswerShape(r, e);
    hide Decides, Step;
    if Step(r, e).loop.Failing? {
      RefusalDecides(s, r, Step(r, e), failed);
    } else {
      AcceptanceDecides(s, r, Step(r, e), failed);
    }
  }

  lemma FailedTenantIsDecided(s: State, r: State, e: Event, failed: seq<Tenant>)
    requires Enabled(r, e) && e.FailTenant? && Decides(s, r, failed)
    ensures Decides(s, Step(r, e), failed + FailedBy(r, e))
  {
    assert FailedBy(r, e) == [r.loop.batch[r.loop.i]];
    OneMoreDecided(r.loop.batch, r.loop.i);
    hide Tenants, Upto, FailedBy, SetStatus;
  }

  lemma EndDecides(s: State, r: State, e: Event, failed: seq<Tenant>)
    requires Enabled(r, e) && e.EndTenants? && Decides(s, r, failed)
    ensures Decides(s, Step(r, e), failed)
  {
    assert r.loop.batch[..r.loop.i] == r.loop.batch;
  }

  lemma OthersKeepDecided(r: State, e: Event)
    requires Enabled(r, e) && InRange(r.loop) && Step(r, e).holder.HeldByLoop?
    requires e.BeginTenant? || e.Collect? || e.InAnswers? || e.MarkProcessed? || e.MarkFailed? || e.Handle?
    ensures var n := Step(r, e);
            HasBatch(r.loop) && n.accepted == r.accepted && InRange(n.loop) && (HasBatch(n.loop) ==> Decided(n.loop) == Decided(r.loop))
  {
    hide SetStatus, SetStatuses, TimedPrefix, Finish, Pop, AllComplete;
  }

  lemma OthersDecide(s: State, r: State, e: Event, failed: seq<Tenant>)
    requires Enabled(r, e) && Decides(s, r, failed) && Step(r, e).holder.HeldByLoop?
    requires e.BeginTenant? || e.Collect? || e.InAnswers? || e.MarkProcessed? || e.MarkFailed? || e.Handle?
    ensures Decides(s, Step(r, e), failed)
  {
    OthersKeepDecided(r, e);
    hide Step, Enabled, Tenants, Decided, InRange;
  }

  lemma StepDecides(s: State, r: State, e: Event, failed: seq<Tenant>)
    requires Inv(r) && Enabled(r, e) && Decides(s, r, failed) && r.holder.HeldByLoop? && Step(r, e).holder.HeldByLoop?
    ensures Decides(s, Step(r, e), failed + FailedBy(r, e))
  {
    assert !e.Snapshot? && !e.Release?;
    assert !e.FailTenant? ==> failed + FailedBy(r, e) == failed;
    if Outside(e) {
      OutsidersLeaveTheRound(r, e);
      hide Step, Enabled, Inv;
    } else {
      hide Step, Enabled, Inv, Decides, FailedBy;
      if e.NosAnswers? {
        AcceptedTenantIsDecided(s, r, e, failed);
      } else if e.FailTenant? {
        FailedTenantIsDecided(s, r, e, failed);
      } else if e.EndTenants? {
        EndDecides(s, r, e, failed);
      } else {
        OthersDecide(s, r, e, failed);
      }
    }
  }

  lemma {:induction false} RoundDecides(s: State, batch: seq<Tenant>, due: bool, events: seq<Event>)
    requires Inv(s) && Enabled(s, Snapshot(batch, due)) && RoundHeld(Step(s, Snapshot(batch, due)), events)
    ensures var first := Step(s, Snapshot(batch, due));
            Decides(s, RunFrom(first, events), FailedIn(first, events))
    decreases events
  {
    var first := Step(s, Snapshot(batch, due));
    StepKeepsInv(s, Snapshot(batch, due));
    if events != [] {
      var before, e := events[..|events| - 1], events[|events| - 1];
      RoundDecides(s, batch, due, before);
      RunFromKeepsInv(first, before);
      var r := RunFrom(first, before);
      hide Inv, Enabled, Step, Decides, FailedBy;
      if Enabled(r, e) {
        StepDecides(s, r, e, FailedIn(first, before));
      } else {
        assert FailedIn(first, events) == FailedIn(first, before);
      }
    }
  }

  lemma OneOfBoth(batch: seq<Tenant>, accepted: seq<Tenant>, failed: seq<Tenant>, t: Tenant)
    requires multiset(accepted) + multiset(failed) == multiset(batch)
    requires forall i, j :: 0 <= i < j < |batch| ==> batch[i] != batch[j]
    ensures t in batch <==> t in accepted || t in failed
    ensures !(t in accepted && t in failed)
  {
    assert t in batch <==> t in multiset(batch);
    assert t in accepted <==> t in multiset(accepted);
    assert t in failed <==> t in multiset(failed);
    AtMostOnce(batch, t);
  }

  lemma {:induction false} AtMostOnce(batch: seq<Tenant>, t: Tenant)
    requires forall i, j :: 0 <= i < j < |batch| ==> batch[i] != batch[j]
    ensures multiset(batch)[t] <= 1
  {
    if batch != [] {
      var front, last := batch[..|batch| - 1], batch[|batch| - 1];
      assert batch == front + [last];
      AtMostOnce(front, t);
      if t == last {
        assert t !in front;
      }
    }
  }

  lemma DecidedIsDistinct(batch: seq<Tenant>, l: Loop)
    requires HasBatch(l) && l.batch == batch && forall i, j :: 0 <= i < j < |batch| ==> batch[i] != batch[j]
    ensures forall i, j :: 0 <= i < j < |Decided(l)| ==> Decided(l)[i] != Decided(l)[j]
    ensures l.Begin? && l.i <= |batch| ==> Decided(l) == batch[..l.i]
  {
  }

  /** When the loop comes to tenant `i` of its batch, each tenant before it has either
      been accepted by the NOS updater in this round or been marked FAILED by the loop,
      and never both; so has the whole batch once the loop is through. */
  lemma TenantsAreAcceptedOrFailed(s: State, batch: seq<Tenant>, due: bool, events: seq<Event>, t: Tenant)
    requires Inv(s) && Enabled(s, Snapshot(batch, due)) && RoundHeld(Step(s, Snapshot(batch, due)), events)
    requires HasBatch(RunFrom(Step(s, Snapshot(batch, due)), events).loop)
    ensures var first := Step(s, Snapshot(batch, due));
            var r := RunFrom(first, events);
            var accepted := if s.accepted <= r.accepted then Tenants(r.accepted[|s.accepted|..]) else [];
            && (t in Decided(r.loop) <==> t in accepted || t in FailedIn(first, events))
            && !(t in accepted && t in FailedIn(first, events))
            && (r.loop.Begin? ==> r.loop.i <= |batch| && Decided(r.loop) == batch[..r.loop.i])
            && (IsOver(r.loop) || r.loop.Sending? ==> Decided(r.loop) == batch)
  {
    assert forall i, j :: 0 <= i < j < |batch| ==> batch[i] != batch[j];
    hide Inv, Enabled, Step, RunFrom, FailedIn, Tenants, RoundHeld, SameConfigs, Stored;
    var first := Step(s, Snapshot(batch, due));
    RoundDecides(s, batch, due, events);
    RoundFollowsSnapshot(s, batch, due, events);
    var r := RunFrom(first, events);
    assert r.loop.batch == batch;
    DecidedIsDistinct(batch, r.loop);
    OneOfBoth(Decided(r.loop), Tenants(r.accepted[|s.accepted|..]), FailedIn(first, events), t);
  }
}
