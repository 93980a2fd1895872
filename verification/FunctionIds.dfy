/** When the function ids of an accelerator are different from one another. */
module FunctionIds {
  import opened OtfDispatch
  import opened TenantDefinitions
  import opened TenantLifecycle

  ghost predicate Distinct(ids: map<Tenant, FuncId>) {
    forall t, u :: t in ids && u in ids && ids[t] == ids[u] ==> t == u
  }

  ghost predicate AllDistinct(s: State) {
    forall a :: a in s.sides ==> Distinct(s.sides[a].ids)
  }

  /** The number drawn for a new definition belongs to no other tenant of the
      accelerator. */
  predicate IsFresh(s: State, r: Request) {
    r.accelerator in s.sides && r.tenant !in s.sides[r.accelerator].defs ==>
      forall t :: t in s.sides[r.accelerator].ids ==> s.sides[r.accelerator].ids[t] != r.draw
  }

  lemma DistinctAfterDraw(ids: map<Tenant, FuncId>, t: Tenant, draw: FuncId)
    requires Distinct(ids) && t !in ids
    ensures Distinct(ids[t := draw]) <==> forall u :: u in ids ==> ids[u] != draw
  {
    var after := ids[t := draw];
    if Distinct(after) {
      forall u | u in ids
        ensures ids[u] != draw
      {
        assert u in after && t in after && u != t;
      }
    }
  }

  /** Same accelerators with the same ids. */
  ghost predicate SameIds(s: State, r: State) {
    s.sides.Keys == r.sides.Keys && forall a :: a in s.sides ==> r.sides[a].ids == s.sides[a].ids
  }

  lemma RenewKeepsAllIds(s: State, r: Request)
    requires r.accelerator in s.sides && r.tenant in s.sides[r.accelerator].defs
    ensures SameIds(s, Renew(s, r))
  {
  }

  lemma ApplyKeepsAllIds(s: State, r: Request)
    requires r.accelerator in s.sides && r.tenant in s.sides[r.accelerator].defs
    ensures SameIds(s, Apply(s, r).state)
  {
    hide Perform, HasKey;
  }

  lemma ConfigureKeepsOtherIds(s: State, r: Request)
    requires r.accelerator in s.sides ==> r.tenant in s.sides[r.accelerator].defs
    ensures SameIds(s, Configure(s, r).state)
  {
    if r.accelerator in s.sides {
      RenewKeepsAllIds(s, r);
      DefineDefines(s, r);
      hide Renew, Apply;
      if !r.unspecified {
        ApplyKeepsAllIds(Define(s, r), r);
      }
    }
  }

  lemma CreateKeepsOtherSides(s: State, r: Request)
    requires r.accelerator in s.sides && r.tenant !in s.sides[r.accelerator].defs
    ensures var o := Configure(s, r).state;
            o.sides.Keys == s.sides.Keys && forall a :: a in s.sides && a != r.accelerator ==> o.sides[a].ids == s.sides[a].ids
  {
    hide Perform, HasKey;
  }

  /** One config keeps the ids different from one another exactly if it defines no new
      tenant or its draw was free. */
  lemma ConfigureDistinctIff(s: State, r: Request)
    requires Inv(s) && AllDistinct(s)
    ensures AllDistinct(Configure(s, r).state) <==> IsFresh(s, r)
  {
    if r.accelerator in s.sides && r.tenant !in s.sides[r.accelerator].defs {
      var side := s.sides[r.accelerator];
      assert r.tenant !in side.ids by { assert SideOk(side); }
      CreatedHasDraw(s, r);
      CreateKeepsOtherSides(s, r);
      DistinctAfterDraw(side.ids, r.tenant, r.draw);
      hide Configure, Distinct, Inv;
    } else {
      ConfigureKeepsOtherIds(s, r);
      hide Configure, Distinct, Inv;
    }
  }

  /** A shared id stays shared as long as no id goes away. */
  lemma SharedStaysShared(s: State, r: State)
    requires KeepsIds(s, r) && AllDistinct(r)
    ensures AllDistinct(s)
  {
    forall a | a in s.sides
      ensures Distinct(s.sides[a].ids)
    {
      assert Distinct(r.sides[a].ids);
    }
  }

  /** Every draw of the request, up to the config that aborts it, was free. */
  ghost predicate FreshDraws(s: State, rs: seq<Request>)
    decreases rs
  {
    rs == [] ||
    (IsFresh(s, rs[0]) && (Configure(s, rs[0]).ok ==> FreshDraws(Configure(s, rs[0]).state, rs[1..])))
  }

  lemma {:induction false} RequestDistinctIff(s: State, rs: seq<Request>)
    requires Inv(s) && AllDistinct(s)
    ensures AllDistinct(Preprocess(s, rs).state) <==> FreshDraws(s, rs)
    decreases rs
  {
    if rs != [] {
      hide Inv, AllDistinct, IsFresh, Configure, KeepsIds;
      var o := Configure(s, rs[0]);
      ConfigureKeepsInv(s, rs[0]);
      ConfigureDistinctIff(s, rs[0]);
      if o.ok {
        if AllDistinct(o.state) {
          RequestDistinctIff(o.state, rs[1..]);
        } else if AllDistinct(Preprocess(o.state, rs[1..]).state) {
          RequestKeepsIds(o.state, rs[1..]);
          SharedStaysShared(o.state, Preprocess(o.state, rs[1..]).state);
        }
      }
    }
  }

  lemma CleanKeyKeepsDistinct(s: State, a: Accelerator, key: Tenant, fileOk: bool)
    requires a in s.sides && AllDistinct(s)
    ensures AllDistinct(CleanKey(s, a, key, fileOk).state)
  {
    hide OtfDispatch.After, HasKey;
    assert Distinct(s.sides[a].ids);
  }

  lemma {:induction false} CleanKeepsDistinct(s: State, a: Accelerator, keys: seq<Tenant>, stuck: set<Tenant>)
    requires a in s.sides && AllDistinct(s)
    ensures AllDistinct(Clean(s, a, keys, stuck))
    decreases keys
  {
    hide AllDistinct;
    if keys != [] {
      CleanKeyKeepsDistinct(s, a, keys[0], keys[0] !in stuck);
      var o := CleanKey(s, a, keys[0], keys[0] !in stuck);
      if o.ok {
        CleanKeepsDistinct(o.state, a, keys[1..], stuck);
      }
    }
  }

  ghost predicate AlwaysDistinct(enabled: set<Accelerator>, events: seq<Event>) {
    AllDistinct(Run(enabled, events)) && (events != [] ==> AlwaysDistinct(enabled, events[..|events| - 1]))
  }

  /** Every draw in the run was free when it was made. */
  ghost predicate AlwaysFresh(enabled: set<Accelerator>, events: seq<Event>) {
    events == [] ||
    var before, e := events[..|events| - 1], events[|events| - 1];
    AlwaysFresh(enabled, before) && (e.UpdateRequest? ==> FreshDraws(Run(enabled, before), e.requests))
  }

  /** Function ids are different from one another throughout a run exactly if every
      number drawn in it was free at that time; cleanups never make ids equal. */
  lemma {:induction false} IdsStayDistinctIff(enabled: set<Accelerator>, events: seq<Event>)
    ensures AlwaysDistinct(enabled, events) <==> AlwaysFresh(enabled, events)
  {
    if events == [] {
      assert AllDistinct(Run(enabled, events));
    } else {
      hide AllDistinct, FreshDraws, Preprocess, Clean, Inv;
      var before, e := events[..|events| - 1], events[|events| - 1];
      IdsStayDistinctIff(enabled, before);
      RunKeepsInv(enabled, before);
      var s := Run(enabled, before);
      if AlwaysDistinct(enabled, before) {
        match e
        case UpdateRequest(requests) => RequestDistinctIff(s, requests);
        case CleanupRequest(first, keys, stuck) =>
          if first in s.sides {
            CleanKeepsDistinct(s, first, keys, stuck);
          }
      }
    }
  }
}
