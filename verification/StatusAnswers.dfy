/** When a status query gets no answer: exactly what cleanups and configs do to it. */
module StatusAnswers {
  import opened OtfDispatch
  import opened TenantDefinitions
  import opened TenantLifecycle

  // -------------------------------------------------------------------------
  // How far a cleanup gets
  // -------------------------------------------------------------------------

  /** The keys a cleanup removes: up to and including the first registered one whose
      file cannot be removed. */
  function Reached(t: Table, keys: seq<Tenant>, stuck: set<Tenant>): (n: nat)
    ensures n <= |keys|
    decreases keys
  {
    if keys == [] then 0
    else if keys[0] in stuck && HasKey(t, keys[0]) then 1
    else 1 + Reached(t, keys[1..], stuck)
  }

  lemma {:induction false} ReachedAgrees(t: Table, u: Table, keys: seq<Tenant>, stuck: set<Tenant>)
    requires forall k :: k in stuck ==> (HasKey(t, k) <==> HasKey(u, k))
    ensures Reached(t, keys, stuck) == Reached(u, keys, stuck)
    decreases keys
  {
    if keys != [] {
      ReachedAgrees(t, u, keys[1..], stuck);
    }
  }

  lemma DeletedKeepsOtherKeys(t: Table, key: Tenant, k: Tenant)
    requires k != key || !HasKey(t, key)
    ensures HasKey(OtfDispatch.After(t, Delete(key)), k) <==> HasKey(t, k)
  {
    if HasKey(t, key) {
      var i := IndexOf(t, key);
      var r := t[..i] + t[i + 1..];
      if HasKey(t, k) {
        var j := IndexOf(t, k);
        assert if j < i then r[j].key == k else r[j - 1].key == k;
      }
      if HasKey(r, k) {
        var j := IndexOf(r, k);
        assert if j < i then t[j].key == k else t[j + 1].key == k;
      }
    }
  }

  lemma CleanKeyReaches(s: State, a: Accelerator, key: Tenant, stuck: set<Tenant>)
    requires Inv(s) && a in s.sides
    ensures var o := CleanKey(s, a, key, key !in stuck);
            && a in o.state.sides
            && o.state.sides[a].defs == Forget(s.sides[a].defs, key)
            && o.ok == !(key in stuck && HasKey(s.sides[a].otfs, key))
            && (o.ok ==> forall k :: k in stuck ==> (HasKey(o.state.sides[a].otfs, k) <==> HasKey(s.sides[a].otfs, k)))
  {
    var side := s.sides[a];
    assert SideOk(side);
    if HasKey(side.otfs, key) {
      assert side.otfs[IndexOf(side.otfs, key)].key in side.ids;
    }
    forall k | k in stuck && !(key in stuck && HasKey(side.otfs, key))
      ensures HasKey(OtfDispatch.After(side.otfs, Delete(key)), k) <==> HasKey(side.otfs, k)
    {
      DeletedKeepsOtherKeys(side.otfs, key, k);
    }
    hide OtfDispatch.After, UniqueKeys, HasKey;
  }

  /** A cleanup removes exactly the keys it reaches. */
  lemma {:induction false} CleanRemovesReached(s: State, a: Accelerator, keys: seq<Tenant>, stuck: set<Tenant>)
    requires Inv(s) && a in s.sides
    ensures var r := Clean(s, a, keys, stuck);
            a in r.sides && forall t :: t in r.sides[a].defs <==>
                              t in s.sides[a].defs && t !in keys[..Reached(s.sides[a].otfs, keys, stuck)]
    decreases keys
  {
    hide Inv, HasKey, CleanKey;
    if keys != [] {
      var o := CleanKey(s, a, keys[0], keys[0] !in stuck);
      CleanKeyReaches(s, a, keys[0], stuck);
      CleanKeyKeepsInv(s, a, keys[0], keys[0] !in stuck);
      var n := Reached(s.sides[a].otfs, keys, stuck);
      if o.ok {
        CleanRemovesReached(o.state, a, keys[1..], stuck);
        ReachedAgrees(s.sides[a].otfs, o.state.sides[a].otfs, keys[1..], stuck);
        assert keys[..n] == [keys[0]] + keys[1..][..n - 1];
      } else {
        assert keys[..n] == [keys[0]];
      }
    }
  }

  // -------------------------------------------------------------------------
  // Cleanups
  // -------------------------------------------------------------------------

  /** The accelerator a status query about the tenant looks at. */
  predicate LooksAt(s: State, t: Tenant, a: Accelerator) {
    if t in s.live then s.live[t] == a else t in s.retired && s.retired[t] == a
  }

  /** After a cleanup, completed or stopped by a missing file, a query gets no answer
      exactly if it got none before or the cleanup reached the tenant on the
      accelerator the query looks at; every other answer is the one before. */
  lemma CleanupLosesIff(s: State, a: Accelerator, keys: seq<Tenant>, stuck: set<Tenant>, t: Tenant)
    requires Inv(s) && a in s.sides
    ensures var lost := t in keys[..Reached(s.sides[a].otfs, keys, stuck)] && LooksAt(s, t, a);
            StatusOf(Clean(s, a, keys, stuck), t) == if lost then NoAnswer else StatusOf(s, t)
  {
    CleanRemovesReached(s, a, keys, stuck);
    CleanIsLocal(s, a, keys, stuck);
    hide Clean, Reached, Inv;
  }

  // -------------------------------------------------------------------------
  // Configs
  // -------------------------------------------------------------------------

  /** A config that defines its tenant anew. */
  predicate DefinesAnew(s: State, r: Request, t: Tenant) {
    r.tenant == t && r.accelerator in s.sides && t !in s.sides[r.accelerator].defs
  }

  lemma DefineAnswers(s: State, r: Request, t: Tenant)
    requires MapsOk(s) && r.accelerator in s.sides
    ensures StatusOf(Define(s, r), t) == if DefinesAnew(s, r, t) then Status200 else StatusOf(s, t)
    ensures r.tenant in Define(s, r).live && r.tenant !in Define(s, r).retired
  {
  }

  lemma ApplyAnswers(s: State, r: Request, t: Tenant)
    requires r.accelerator in s.sides && r.tenant in s.sides[r.accelerator].defs
    requires r.tenant in s.live && r.tenant !in s.retired
    ensures StatusOf(Apply(s, r).state, t) == StatusOf(s, t)
  {
    hide Perform, HasKey;
  }

  /** One config gives an answer back exactly by defining the tenant on an accelerator
      where it is not defined; updating or deleting it elsewhere does not. */
  lemma ConfigAnswers(s: State, r: Request, t: Tenant)
    requires Inv(s)
    ensures StatusOf(Configure(s, r).state, t) == if DefinesAnew(s, r, t) then Status200 else StatusOf(s, t)
  {
    if r.accelerator in s.sides {
      DefineAnswers(s, r, t);
      DefineDefines(s, r);
      hide Define, Apply, Inv, StatusOf;
      if !r.unspecified {
        ApplyAnswers(Define(s, r), r, t);
      }
    }
  }

  // -------------------------------------------------------------------------
  // Runs
  // -------------------------------------------------------------------------

  /** Whether some config of the request, up to the one that aborts it, defines the
      tenant anew. */
  predicate RequestDefines(s: State, rs: seq<Request>, t: Tenant)
    decreases rs
  {
    rs != [] &&
    (DefinesAnew(s, rs[0], t) || (Configure(s, rs[0]).ok && RequestDefines(Configure(s, rs[0]).state, rs[1..], t)))
  }

  lemma {:induction false} RequestAnswers(s: State, rs: seq<Request>, t: Tenant)
    requires Inv(s)
    ensures RequestDefines(s, rs, t) ==> StatusOf(Preprocess(s, rs).state, t) == Status200
    ensures !RequestDefines(s, rs, t) ==> StatusOf(Preprocess(s, rs).state, t) == StatusOf(s, t)
    decreases rs
  {
    if rs != [] {
      hide Inv, Configure, StatusOf, DefinesAnew;
      var o := Configure(s, rs[0]);
      ConfigureKeepsInv(s, rs[0]);
      ConfigAnswers(s, rs[0], t);
      if o.ok {
        RequestAnswers(o.state, rs[1..], t);
      }
    }
  }

  /** The cleanup reaches the tenant where queries about it look. */
  predicate Loses(s: State, e: Event, t: Tenant) {
    e.CleanupRequest? && e.first in s.sides && LooksAt(s, t, e.first)
    && t in e.keys[..Reached(s.sides[e.first].otfs, e.keys, e.stuck)]
  }

  predicate Restores(s: State, e: Event, t: Tenant) {
    e.UpdateRequest? && RequestDefines(s, e.requests, t)
  }

  /** Some cleanup of the run lost the tenant, and nothing has restored it since. */
  predicate IsLost(enabled: set<Accelerator>, events: seq<Event>, t: Tenant) {
    events != [] &&
    var before, e := events[..|events| - 1], events[|events| - 1];
    var s := Run(enabled, before);
    Loses(s, e, t) || (IsLost(enabled, before, t) && !Restores(s, e, t))
  }

  lemma EventAnswers(s: State, e: Event, t: Tenant)
    requires Inv(s)
    ensures StatusOf(Handle(s, e), t) == NoAnswer <==> Loses(s, e, t) || (StatusOf(s, t) == NoAnswer && !Restores(s, e, t))
  {
    hide Inv, Preprocess, Clean, RequestDefines, Reached, StatusOf;
    match e
    case UpdateRequest(requests) => RequestAnswers(s, requests, t);
    case CleanupRequest(first, keys, stuck) =>
      if first in s.sides {
        CleanupLosesIff(s, first, keys, stuck, t);
      }
  }

  /** In every run from a fresh start a status query gets no answer exactly for the
      tenants that a cleanup lost and no later config defined anew. */
  lemma {:induction false} UnansweredIffLost(enabled: set<Accelerator>, events: seq<Event>, t: Tenant)
    ensures StatusOf(Run(enabled, events), t) == NoAnswer <==> IsLost(enabled, events, t)
  {
    if events == [] {
      assert StatusOf(Run(enabled, events), t) == Status404;
    } else {
      hide Handle, Loses, Restores, StatusOf, Inv;
      var before := events[..|events| - 1];
      UnansweredIffLost(enabled, before, t);
      RunKeepsInv(enabled, before);
      EventAnswers(Run(enabled, before), events[|events| - 1], t);
    }
  }
}
