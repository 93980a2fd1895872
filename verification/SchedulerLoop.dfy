/** The deployment loop as it runs: the fields it changes, its critical sections and
    one whole round, each tied to the steps of the protocol. */
module SchedulerLoop {
  import opened Options
  import opened Scheduler
  import opened SchedulerSafety
  import opened SchedulerOutcomes

  lemma {:induction false} StatusesAppend(rss: Storage, ts: seq<Tenant>, t: Tenant, status: Status)
    ensures SetStatuses(rss, ts + [t], status) == SetStatus(SetStatuses(rss, ts, status), t, status)
    decreases ts
  {
    hide SetStatus;
    if ts == [] {
      assert ([] + [t])[1..] == [];
    } else {
      assert (ts + [t])[1..] == ts[1..] + [t];
      StatusesAppend(SetStatus(rss, ts[0], status), ts[1..], t, status);
    }
  }

  lemma {:induction false} TimedPrefixStops(batch: seq<Tenant>, timing: set<Tenant>, n: nat)
    requires n <= |batch| && (forall k :: 0 <= k < n ==> batch[k] in timing) && (n < |batch| ==> batch[n] !in timing)
    ensures TimedPrefix(batch, timing) == n
    decreases batch
  {
    if n > 0 {
      assert batch[0] in timing;
      TimedPrefixStops(batch[1..], timing, n - 1);
    }
  }

  class SchedulerThread {
    /** The four maps of the storage, by tenant. */
    var rss: Storage
    /** time_measurement_structure, as far as the postprocessing reads it. */
    var timing: Timing
    var inTConfigs: seq<Entry>
    /** The loop variable, if a round has had a tenant yet. */
    var tId: Option<Tenant>
    /** Where the whole protocol stands. */
    ghost var state: State

    ghost predicate Valid()
      reads this
    {
      rss == state.rss && timing == state.timing && inTConfigs == state.pending && tId == state.current
    }

    constructor ()
      ensures Valid() && state == INITIAL
    {
      rss := map[];
      timing := map[];
      inTConfigs := [];
      tId := None;
      state := INITIAL;
    }

    /** A step that changes none of the fields. */
    ghost method Advance(e: Event)
      requires Valid() && Enabled(state, e)
      requires var r := Step(state, e); r.rss == rss && r.timing == timing && r.pending == inTConfigs && r.current == tId
      modifies this`state
      ensures Valid() && state == Step(old(state), e)
    {
      state := Step(state, e);
    }

    /** RSS.add with nothing but a status. */
    method Mark(t: Tenant, status: Status)
      modifies this`rss
      ensures rss == SetStatus(old(rss), t, status)
    {
      var row := if t in rss then rss[t] else Row(None, None, None, UNSPECIFIED);
      rss := rss[t := row.(status := status)];
    }

    /** The first critical section for a tenant; false for the KeyError. */
    method BeginNext(batch: seq<Tenant>, i: nat) returns (ok: bool)
      requires Valid() && state.loop == Begin(batch, i) && i < |batch|
      modifies this
      ensures Valid() && state == Step(old(state), BeginTenant)
      ensures ok <==> state.loop.Asking?
      ensures ok ==> batch[i] in rss
    {
      ghost var next := Step(state, BeginTenant);
      tId := Some(batch[i]);
      if batch[i] !in timing {
        state := next;
        return false;
      }
      timing := timing[batch[i] := timing[batch[i]].(started := true)];
      Mark(batch[i], PROCESSING);
      state := next;
      return true;
    }

    /** The handler of a failed tenant. */
    method FailTenant(batch: seq<Tenant>, i: nat)
      requires Valid() && state.loop == Failing(batch, i) && i < |batch|
      modifies this
      ensures Valid() && state == Step(old(state), Event.FailTenant)
    {
      ghost var next := Step(state, Event.FailTenant);
      Mark(batch[i], FAILED);
      state := next;
    }

    /** _collect_inTConfigs. */
    method CollectInTConfig(entry: Entry)
      requires Valid() && state.loop.Collecting? && entry == state.loop.entry
      modifies this
      ensures Valid() && state == Step(old(state), Collect)
    {
      ghost var next := Step(state, Collect);
      inTConfigs := inTConfigs + [entry];
      state := next;
    }

    /** The refused batch. */
    method MarkFailed(batch: seq<Tenant>)
      requires Valid() && state.loop == Refused(batch)
      modifies this
      ensures Valid() && state == Step(old(state), Event.MarkFailed)
    {
      ghost var next := Step(state, Event.MarkFailed);
      var k := 0;
      while k < |batch|
        invariant 0 <= k <= |batch| && rss == SetStatuses(old(rss), batch[..k], FAILED)
        invariant timing == old(timing) && tId == old(tId) && state == old(state)
      {
        StatusesAppend(old(rss), batch[..k], batch[k], FAILED);
        assert batch[..k + 1] == batch[..k] + [batch[k]];
        Mark(batch[k], FAILED);
        k := k + 1;
      }
      assert batch[..k] == batch;
      inTConfigs := [];
      state := next;
    }

    /** The loop over the accepted batch; true for the KeyError. */
    method MarkBatch(batch: seq<Tenant>) returns (raised: bool)
      modifies this`rss, this`timing
      ensures var known := TimedPrefix(batch, old(timing).Keys);
              && (raised <==> known < |batch|)
              && rss == SetStatuses(old(rss), if raised then batch[..known + 1] else batch, PROCESSED)
              && timing == Finish(old(timing), batch[..known])
    {
      var k := 0;
      FinishNothing(timing);
      while k < |batch|
        invariant 0 <= k <= |batch| && rss == SetStatuses(old(rss), batch[..k], PROCESSED)
        invariant timing == Finish(old(timing), batch[..k])
        invariant forall j :: 0 <= j < k ==> batch[j] in old(timing)
      {
        StatusesAppend(old(rss), batch[..k], batch[k], PROCESSED);
        assert batch[..k + 1] == batch[..k] + [batch[k]];
        Mark(batch[k], PROCESSED);
        if batch[k] !in timing {
          TimedPrefixStops(batch, old(timing).Keys, k);
          return true;
        }
        FinishOne(old(timing), batch[..k], batch[k]);
        timing := timing[batch[k] := timing[batch[k]].(finished := true)];
        k := k + 1;
      }
      assert batch[..k] == batch;
      TimedPrefixStops(batch, old(timing).Keys, k);
      return false;
    }

    /** _postprocess_timemeasurement_struct: pops the times entry by entry, in the given
        order of the dictionary, up to the first entry that lacks one. */
    method Postprocess(order: seq<Tenant>, saveFails: bool) returns (raised: bool, ghost before: set<Tenant>)
      requires forall t :: t in order <==> t in timing
      requires forall i, j :: 0 <= i < j < |order| ==> order[i] != order[j]
      modifies this`timing
      ensures raised <==> !AllComplete(old(timing)) || saveFails
      ensures timing == if !AllComplete(old(timing)) then Pop(old(timing), before)
                        else if saveFails then Pop(old(timing), old(timing).Keys)
                        else map[]
    {
      before := {};
      var k := 0;
      PopNothing(timing);
      while k < |order|
        invariant 0 <= k <= |order| && before == (set i | 0 <= i < k :: order[i])
        invariant forall i :: 0 <= i < k ==> order[i] in old(timing) && IsComplete(old(timing)[order[i]])
        invariant timing == Pop(old(timing), before)
      {
        assert order[k] in order && order[k] !in before;
        if !IsComplete(timing[order[k]]) {
          return true, before;
        }
        PopOne(old(timing), before, order[k]);
        timing := timing[order[k] := NO_TIMES];
        before := before + {order[k]};
        k := k + 1;
      }
      AllPopped(old(timing), order, before);
      if !saveFails {
        timing := map[];
      }
      return saveFails, before;
    }

    /** The accepted batch; true if the section ends with an exception. */
    method MarkProcessed(batch: seq<Tenant>, saveFails: bool) returns (raised: bool, ghost before: set<Tenant>)
      requires Valid() && state.loop == Accepted(batch)
      modifies this
      ensures Valid() && state == Step(old(state), Event.MarkProcessed(before, saveFails))
      ensures raised <==> state.loop.Handling?
    {
      before := {};
      ghost var start := state;
      raised := MarkBatch(batch);
      if !raised {
        inTConfigs := [];
        var order := Listed(timing.Keys);
        assert batch[..|batch|] == batch;
        hide Finish, Pop, AllComplete, SetStatuses;
        raised, before := Postprocess(order, saveFails);
        state := Step(start, Event.MarkProcessed(before, saveFails));
      } else {
        hide Finish, Pop, AllComplete, SetStatuses;
        state := Step(start, Event.MarkProcessed(before, saveFails));
      }
    }

    /** The handler of a failed round; false if the loop variable does not exist. */
    method HandleException() returns (ok: bool)
      requires Valid() && state.loop.Handling?
      modifies this
      ensures Valid() && state == Step(old(state), Handle)
      ensures ok <==> state.loop.Closing?
    {
      ghost var next := Step(state, Handle);
      if tId.None? {
        state := next;
        return false;
      }
      Mark(tId.value, FAILED);
      state := next;
      return true;
    }

    /** One tenant of the batch: read its configs, ask the NOS updater, collect. */
    method Rollout(batch: seq<Tenant>, i: nat, reply: NosReply, ghost start: State, ghost before: seq<Event>)
      returns (ghost events: seq<Event>)
      requires Valid() && state == RunFrom(start, before) && state.loop == Begin(batch, i) && i < |batch|
      modifies this
      ensures Valid() && state == RunFrom(start, events) && state.loop == Begin(batch, i + 1)
    {
      hide RunFrom, SetStatus;
      RunFromExtends(start, before, BeginTenant);
      events := before + [BeginTenant];
      var ok := BeginNext(batch, i);
      if ok {
        var config := rss[batch[i]].tConfig;
        var entry := Entry(batch[i], rss[batch[i]].inTConfig);
        assert state.loop == Asking(batch, i, config, entry);
        RunFromExtends(start, events, NosAnswers(reply));
        events := events + [NosAnswers(reply)];
        Advance(NosAnswers(reply));
        if config.Some? && reply.NosOk? {
          RunFromExtends(start, events, Collect);
          events := events + [Collect];
          CollectInTConfig(entry);
          return;
        }
      }
      RunFromExtends(start, events, Event.FailTenant);
      events := events + [Event.FailTenant];
      FailTenant(batch, i);
    }

    /** The call of the in-network updater and what its answer leads to. */
    method Deploy(batch: seq<Tenant>, answer: InReply, saveFails: bool, ghost start: State, ghost before: seq<Event>)
      returns (ghost events: seq<Event>)
      requires Valid() && state == RunFrom(start, before) && state.loop == Sending(batch) && state.current.Some?
      modifies this
      ensures Valid() && state == RunFrom(start, events) && state.loop == Closing(batch)
    {
      hide RunFrom, SetStatus, SetStatuses, TimedPrefix;
      var reply := if LacksConfig(inTConfigs) then InRaised else answer;
      RunFromExtends(start, before, InAnswers(reply));
      events := before + [InAnswers(reply)];
      Advance(InAnswers(reply));
      var raised := true;
      match reply {
        case InOk =>
          ghost var popped: set<Tenant>;
          raised, popped := MarkProcessed(batch, saveFails);
          RunFromExtends(start, events, Event.MarkProcessed(popped, saveFails));
          events := events + [Event.MarkProcessed(popped, saveFails)];
        case InRefused =>
          RunFromExtends(start, events, Event.MarkFailed);
          events := events + [Event.MarkFailed];
          MarkFailed(batch);
        case InRaised =>
      }
      if raised {
        RunFromExtends(start, events, Handle);
        events := events + [Handle];
        var ok := HandleException();
      }
    }

    /** The tenants of a round, listed in some order of the dictionary. */
    method CollectScheduled() returns (batch: seq<Tenant>)
      ensures IsBatch(rss, batch)
    {
      var scheduled := set t | t in rss && rss[t].status.SCHEDULED?;
      batch := Listed(scheduled);
    }

    /** The body of a round that is due. */
    method RunBatch(batch: seq<Tenant>, answer: Tenant -> NosReply, reply: InReply, saveFails: bool,
                    ghost start: State, ghost before: seq<Event>) returns (ghost events: seq<Event>)
      requires Valid() && Inv(start) && state == RunFrom(start, before) && state.loop == Begin(batch, 0)
      modifies this
      ensures Valid() && state == RunFrom(start, events) && state.loop == Closing(batch)
    {
      hide Inv, RunFrom;
      events := before;
      var i := 0;
      while i < |batch|
        invariant 0 <= i <= |batch| && Valid() && state == RunFrom(start, events) && state.loop == Begin(batch, i)
      {
        events := Rollout(batch, i, answer(batch[i]), start, events);
        i := i + 1;
      }
      RunFromExtends(start, events, EndTenants);
      events := events + [EndTenants];
      Advance(EndTenants);
      if inTConfigs != [] {
        RunFromKeepsInv(start, events);
        SendingHasCurrent(state);
        events := Deploy(batch, reply, saveFails, start, events);
      }
    }

    /** One round without interruption, for any answers of the two updaters: it is a
        run of the protocol that gives the lock back. */
    method Round(due: bool, answer: Tenant -> NosReply, reply: InReply, saveFails: bool) returns (ghost events: seq<Event>)
      requires Valid() && Inv(state) && state.loop.Waiting? && state.holder.Free?
      modifies this
      ensures Valid() && Inv(state) && state == RunFrom(old(state), events)
      ensures state.loop.Waiting? && state.holder.Free?
    {
      ghost var start := state;
      var batch := CollectScheduled();
      assert Enabled(state, Snapshot(batch, due));
      hide Inv, RunFrom, IsBatch;
      assert RunFrom(start, []) == start by { NoEvents(start); }
      RunFromExtends(start, [], Snapshot(batch, due));
      events := [] + [Snapshot(batch, due)];
      Advance(Snapshot(batch, due));
      if due && rss != map[] {
        events := RunBatch(batch, answer, reply, saveFails, start, events);
      }
      RunFromExtends(start, events, Release);
      events := events + [Release];
      Advance(Release);
      RunFromKeepsInv(start, events);
    }
  }

  /** The elements of a set, each once. */
  method Listed(ts: set<Tenant>) returns (r: seq<Tenant>)
    ensures forall t :: t in r <==> t in ts
    ensures forall i, j :: 0 <= i < j < |r| ==> r[i] != r[j]
  {
    r := [];
    var rest := ts;
    while rest != {}
      invariant rest <= ts && forall t :: t in r <==> t in ts && t !in rest
      invariant forall i, j :: 0 <= i < j < |r| ==> r[i] != r[j]
      decreases |rest|
    {
      var t :| t in rest;
      assert t !in r;
      r := r + [t];
      rest := rest - {t};
    }
  }

  lemma FinishNothing(timing: Timing)
    ensures Finish(timing, []) == timing
  {
  }

  lemma FinishOne(timing: Timing, batch: seq<Tenant>, t: Tenant)
    requires t in timing
    ensures t in Finish(timing, batch)
    ensures Finish(timing, batch + [t]) == Finish(timing, batch)[t := Finish(timing, batch)[t].(finished := true)]
  {
  }

  lemma PopNothing(timing: Timing)
    ensures Pop(timing, {}) == timing
  {
  }

  lemma PopOne(timing: Timing, before: set<Tenant>, t: Tenant)
    requires t in timing && IsComplete(timing[t])
    ensures Pop(timing, before + {t}) == Pop(timing, before)[t := NO_TIMES]
  {
  }

  lemma AllPopped(timing: Timing, order: seq<Tenant>, before: set<Tenant>)
    requires (forall t :: t in order <==> t in timing) && before == (set i | 0 <= i < |order| :: order[i])
    requires forall i :: 0 <= i < |order| ==> order[i] in timing && IsComplete(timing[order[i]])
    ensures AllComplete(timing) && Pop(timing, before) == Pop(timing, timing.Keys)
  {
    forall t | t in timing
      ensures IsComplete(timing[t]) && t in before
    {
      assert t in order;
      var i :| 0 <= i < |order| && order[i] == t;
    }
  }

  lemma NoEvents(s: State)
    ensures RunFrom(s, []) == s
  {
  }

  lemma SendingHasCurrent(s: State)
    requires Inv(s) && s.loop.Sending?
    ensures s.current.Some?
  {
  }
}
