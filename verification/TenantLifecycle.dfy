/** What update requests and cleanups mean for a tenant over a whole run. */
module TenantLifecycle {
  import opened OtfProgram
  import opened OtfParsing
  import opened OtfDispatch
  import opened TenantDefinitions

  // -------------------------------------------------------------------------
  // Function ids
  // -------------------------------------------------------------------------

  /** Every id of `s` is still there in `r`. */
  ghost predicate KeepsIds(s: State, r: State) {
    && s.sides.Keys == r.sides.Keys
    && forall a, t :: a in s.sides && t in s.sides[a].ids ==> t in r.sides[a].ids && r.sides[a].ids[t] == s.sides[a].ids[t]
  }

  lemma DefineKeepsIds(s: State, r: Request)
    requires Inv(s) && r.accelerator in s.sides
    ensures KeepsIds(s, Define(s, r))
  {
    hide UniqueKeys, MapsOk;
    assert SideOk(s.sides[r.accelerator]);
  }

  lemma ApplyKeepsIds(s: State, r: Request)
    requires r.accelerator in s.sides && r.tenant in s.sides[r.accelerator].defs
    ensures KeepsIds(s, Apply(s, r).state)
  {
    hide Perform, HasKey;
  }

  lemma KeepsIdsComposes(a: State, b: State, c: State)
    requires KeepsIds(a, b) && KeepsIds(b, c)
    ensures KeepsIds(a, c)
  {
  }

  lemma ConfigureKeepsIds(s: State, r: Request)
    requires Inv(s)
    ensures KeepsIds(s, Configure(s, r).state)
  {
    if r.accelerator in s.sides {
      DefineKeepsIds(s, r);
      hide Inv, KeepsIds, Apply;
      if !r.unspecified {
        ApplyKeepsIds(Define(s, r), r);
        KeepsIdsComposes(s, Define(s, r), Apply(Define(s, r), r).state);
      }
    }
  }

  /** No update request, completed or aborted, takes a function id away or changes it:
      a tenant that is deleted and created again gets the id it had. */
  lemma {:induction false} RequestKeepsIds(s: State, rs: seq<Request>)
    requires Inv(s)
    ensures KeepsIds(s, Preprocess(s, rs).state)
    decreases rs
  {
    if rs != [] {
      hide Inv, KeepsIds, Configure;
      var o := Configure(s, rs[0]);
      ConfigureKeepsInv(s, rs[0]);
      ConfigureKeepsIds(s, rs[0]);
      if o.ok {
        RequestKeepsIds(o.state, rs[1..]);
        KeepsIdsComposes(s, o.state, Preprocess(o.state, rs[1..]).state);
      }
    }
  }

  /** Ids are not unique: the test for a number in use looks at dictionaries instead of
      numbers, so two tenants that draw the same number share it. */
  lemma IdsCanCollide(a: Accelerator, first: Request, second: Request)
    requires first.accelerator == a == second.accelerator && first.tenant != second.tenant && first.draw == second.draw
    requires CanSucceed(Initial({a}), first) && first.action.CREATE?
    ensures var s := Preprocess(Initial({a}), [first, second]).state;
            && a in s.sides && first.tenant in s.sides[a].ids && second.tenant in s.sides[a].ids
            && s.sides[a].ids[first.tenant] == s.sides[a].ids[second.tenant]
  {
    var s0 := Initial({a});
    var s1 := Configure(s0, first).state;
    CreatedHasDraw(s0, first);
    assert second.tenant !in s1.sides[a].ids && second.tenant !in s1.sides[a].defs;
    CreatedHasDraw(s1, second);
    TwoConfigs(s0, first, second);
    ConfigSucceedsIff(s0, first);
  }

  lemma TwoConfigs(s: State, first: Request, second: Request)
    ensures Configure(s, first).ok ==>
              Preprocess(s, [first, second]).state == Configure(Configure(s, first).state, second).state
  {
    hide Configure;
    var o := Configure(s, first);
    assert [first, second][1..] == [second] && [second][1..] == [];
    assert Preprocess(o.state, [second]).state == Configure(o.state, second).state;
  }

  /** A new definition gets the number drawn for it, whatever becomes of the config. */
  lemma CreatedHasDraw(s: State, r: Request)
    requires r.accelerator in s.sides && r.tenant !in s.sides[r.accelerator].defs
    ensures var o := Configure(s, r);
            && r.accelerator in o.state.sides
            && o.state.sides[r.accelerator].ids == s.sides[r.accelerator].ids[r.tenant := r.draw]
  {
    hide Perform, HasKey;
  }

  lemma OneSidesTable(enabled: set<Accelerator>, events: seq<Event>, a: Accelerator)
    requires a in Run(enabled, events).sides
    ensures SideOk(Run(enabled, events).sides[a])
  {
    hide SideOk, Run;
    RunKeepsInv(enabled, events);
  }

  lemma RegisteredUnderItsId(side: Side, i: nat)
    requires SideOk(side) && i < |side.otfs|
    ensures side.otfs[i].key in side.ids
    ensures Otfs(side.otfs)[i].funcId == side.ids[side.otfs[i].key] < FUNC_IDS
    ensures Otfs(side.otfs)[i].mainIngress == side.otfs[i].otf.mainIngress
  {
    hide UniqueKeys;
  }

  /** The controller text generated in any reachable state gives a packet the function
      id under which the updater itself knows the first matching tenant. */
  lemma GeneratedIdIsTheTenants(enabled: set<Accelerator>, events: seq<Event>, a: Accelerator, i: nat, vni: nat)
    requires a in Run(enabled, events).sides
    requires var otfs := Otfs(Run(enabled, events).sides[a].otfs);
             Named(otfs) && HaveVnis(otfs) && vni < VNIS && FirstMatch(otfs, i, vni)
    ensures var side := Run(enabled, events).sides[a];
            var program := ParseController(ControllerText(Otfs(side.otfs)));
            && program.Some? && side.otfs[i].key in side.ids
            && Eval(program.value, true, vni) == Applied(side.ids[side.otfs[i].key], side.otfs[i].otf.mainIngress)
  {
    hide *;
    var side := Run(enabled, events).sides[a];
    assert i < |Otfs(side.otfs)| by { MatchInRange(Otfs(side.otfs), i, vni); }
    OneSidesTable(enabled, events, a);
    RegisteredUnderItsId(side, i);
    GeneratedTextDispatches(Otfs(side.otfs), true, vni, i);
  }

  lemma MatchInRange(otfs: seq<Otf>, i: nat, vni: nat)
    requires FirstMatch(otfs, i, vni)
    ensures i < |otfs|
  {
  }

  // -------------------------------------------------------------------------
  // Cleanup
  // -------------------------------------------------------------------------

  /** Only one accelerator is cleaned; the maps from tenants to accelerators and all
      other accelerators stay as they are. */
  lemma {:induction false} CleanIsLocal(s: State, a: Accelerator, keys: seq<Tenant>, stuck: set<Tenant>)
    requires a in s.sides
    ensures var r := Clean(s, a, keys, stuck);
            && r.live == s.live && r.retired == s.retired && r.sides.Keys == s.sides.Keys
            && (forall b :: b in s.sides && b != a ==> r.sides[b] == s.sides[b])
    decreases keys
  {
    hide After, HasKey;
    if keys != [] {
      var o := CleanKey(s, a, keys[0], keys[0] !in stuck);
      if o.ok {
        CleanIsLocal(o.state, a, keys[1..], stuck);
      }
    }
  }

  lemma {:induction false} CleanRemoves(s: State, a: Accelerator, keys: seq<Tenant>)
    requires a in s.sides
    ensures a in Clean(s, a, keys, {}).sides
    ensures forall t :: t in Clean(s, a, keys, {}).sides[a].defs ==> t in s.sides[a].defs && t !in keys
    decreases keys
  {
    hide After, HasKey;
    if keys != [] {
      var o := CleanKey(s, a, keys[0], true);
      assert o.state.sides[a].defs == Forget(s.sides[a].defs, keys[0]);
      CleanRemoves(o.state, a, keys[1..]);
      assert keys == [keys[0]] + keys[1..];
    }
  }

  lemma FirstHasId(side: Side)
    requires SideOk(side)
    ensures |side.otfs| > 0 ==> side.otfs[0].key in side.ids
  {
  }

  /** A cleanup that gets through all keys forgets definitions, ids and functions. */
  lemma CleanForgets(s: State, a: Accelerator, keys: seq<Tenant>)
    requires Inv(s) && a in s.sides && forall t :: t in s.sides[a].defs ==> t in keys
    ensures a in Clean(s, a, keys, {}).sides && Clean(s, a, keys, {}).sides[a] == Side(map[], map[], [])
  {
    CleanKeepsInv(s, a, keys, {});
    CleanRemoves(s, a, keys);
    var side := Clean(s, a, keys, {}).sides[a];
    assert SideOk(side);
    hide Clean, UniqueKeys;
    assert side.defs == map[];
    assert side.ids == map[] by {
      assert side.ids.Keys == {};
    }
    FirstHasId(side);
  }

  // -------------------------------------------------------------------------
  // Status queries
  // -------------------------------------------------------------------------

  /** GetUpdateStatus looks at one accelerator only and returns nothing at all when
      the tenant is not defined there. */
  datatype StatusAnswer = Status200 | Status404 | NoAnswer

  function StatusOf(s: State, t: Tenant): StatusAnswer {
    if t !in s.live && t !in s.retired then Status404 else
    var a := if t in s.live then s.live[t] else s.retired[t];
    if a !in s.sides then Status404 else if t in s.sides[a].defs then Status200 else NoAnswer
  }

  /** The maps only point to accelerators that define the tenant. */
  ghost predicate PointersOk(s: State) {
    && (forall t :: t in s.live ==> s.live[t] in s.sides && t in s.sides[s.live[t]].defs)
    && (forall t :: t in s.retired ==> s.retired[t] in s.sides && t in s.sides[s.retired[t]].defs)
  }

  lemma DefineKeepsPointers(s: State, r: Request)
    requires PointersOk(s) && r.accelerator in s.sides
    ensures PointersOk(Define(s, r))
  {
  }

  lemma ApplyKeepsPointers(s: State, r: Request)
    requires PointersOk(s) && r.accelerator in s.sides && r.tenant in s.sides[r.accelerator].defs
    ensures PointersOk(Apply(s, r).state)
  {
    hide Perform, HasKey;
  }

  lemma {:induction false} RequestKeepsPointers(s: State, rs: seq<Request>)
    requires PointersOk(s)
    ensures PointersOk(Preprocess(s, rs).state)
    decreases rs
  {
    hide PointersOk, Apply;
    if rs != [] {
      var r := rs[0];
      if r.accelerator in s.sides {
        DefineKeepsPointers(s, r);
        if !r.unspecified {
          DefineDefines(s, r);
          ApplyKeepsPointers(Define(s, r), r);
        }
      }
      var o := Configure(s, r);
      assert PointersOk(o.state);
      if o.ok {
        RequestKeepsPointers(o.state, rs[1..]);
      }
    }
  }

  ghost predicate WithoutCleanups(events: seq<Event>) {
    forall k :: 0 <= k < |events| ==> events[k].UpdateRequest?
  }

  lemma {:induction false} RunKeepsPointers(enabled: set<Accelerator>, events: seq<Event>)
    requires WithoutCleanups(events)
    ensures PointersOk(Run(enabled, events))
  {
    if events != [] {
      hide PointersOk, Preprocess;
      RunKeepsPointers(enabled, events[..|events| - 1]);
      RequestKeepsPointers(Run(enabled, events[..|events| - 1]), events[|events| - 1].requests);
    }
  }

  /** As long as there was no cleanup, a status query answers 200 exactly for tenants
      defined somewhere, and 404 for all others. */
  lemma StatusKnownIffDefined(enabled: set<Accelerator>, events: seq<Event>, t: Tenant)
    requires WithoutCleanups(events)
    ensures var s := Run(enabled, events);
            StatusOf(s, t) == if exists a :: a in s.sides && t in s.sides[a].defs then Status200 else Status404
  {
    RunKeepsInv(enabled, events);
    RunKeepsPointers(enabled, events);
    hide Run, SidesOk;
  }

  /** After a cleanup in between, the maps can point to a definition that is gone. */
  lemma StatusLostByCleanup(a: Accelerator, r: Request)
    requires r.accelerator == a
    ensures StatusOf(Run({a}, [UpdateRequest([r]), CleanupRequest(a, [r.tenant], {})]), r.tenant) == NoAnswer
  {
    var events := [UpdateRequest([r]), CleanupRequest(a, [r.tenant], {})];
    var one := [UpdateRequest([r])];
    assert events[..1] == one && one[..0] == [];
    var s0 := Initial({a});
    assert Run({a}, one[..0]) == s0;
    var s1 := Run({a}, one);
    assert s1 == Preprocess(s0, [r]).state;
    OneConfigPointsHome(a, r);
    RunKeepsInv({a}, one);
    CleanForgetsOne(s1, a, r.tenant);
    CleanIsLocal(s1, a, [r.tenant], {});
  }

  lemma OneConfigPointsHome(a: Accelerator, r: Request)
    requires r.accelerator == a
    ensures var s := Preprocess(Initial({a}), [r]).state;
            && a in s.sides
            && (if r.tenant in s.live then s.live[r.tenant] == a else r.tenant in s.retired && s.retired[r.tenant] == a)
  {
  }

  lemma CleanForgetsOne(s: State, a: Accelerator, t: Tenant)
    requires a in s.sides
    ensures a in Clean(s, a, [t], {}).sides && t !in Clean(s, a, [t], {}).sides[a].defs
  {
    CleanRemoves(s, a, [t]);
  }

  // -------------------------------------------------------------------------
  // Which configs succeed
  // -------------------------------------------------------------------------

  /** What a config needs of the generator and of the services it calls. The lookups
      in the dictionaries of definitions, ids and accelerators never fail. */
  predicate CanSucceed(s: State, r: Request) {
    && r.accelerator in s.sides && !r.unspecified && !r.action.OTHER?
    && (r.action.CREATE? ==> !HasKey(s.sides[r.accelerator].otfs, r.tenant) && (r.reply.Found? || r.reply.Missing?))
    && (r.action.DELETE? ==> HasKey(s.sides[r.accelerator].otfs, r.tenant) && r.fileOk && !r.reply.Raised?)
  }

  lemma DefineKeepsTable(s: State, r: Request)
    requires r.accelerator in s.sides
    ensures r.accelerator in Define(s, r).sides
    ensures Define(s, r).sides[r.accelerator].otfs == s.sides[r.accelerator].otfs
    ensures r.tenant in Define(s, r).sides[r.accelerator].defs
  {
  }

  lemma DefinedIsLive(s: State, r: Request)
    requires MapsOk(s) && r.accelerator in s.sides
    ensures r.tenant in Define(s, r).live
  {
  }

  lemma ConfigSucceedsIff(s: State, r: Request)
    requires Inv(s)
    ensures Configure(s, r).ok <==> CanSucceed(s, r)
  {
    if r.accelerator in s.sides {
      DefineKeepsTable(s, r);
      DefinedIsLive(s, r);
      hide Define;
    }
  }

  /** After a successful config the tenant is defined, registered exactly if it was
      not deleted, and in the map that says so. */
  lemma SuccessfulConfig(s: State, r: Request)
    requires Inv(s) && CanSucceed(s, r)
    ensures var o := Configure(s, r);
            && r.accelerator in o.state.sides && r.tenant in o.state.sides[r.accelerator].defs
            && (HasKey(o.state.sides[r.accelerator].otfs, r.tenant) <==> !r.action.DELETE?)
            && (r.tenant in o.state.live <==> !r.action.DELETE?)
            && (r.tenant in o.state.retired <==> r.action.DELETE?)
  {
    DefineKeepsTable(s, r);
    DefinedIsLive(s, r);
    DefineKeepsMaps(s, r);
    var d := Define(s, r);
    assert UniqueKeys(s.sides[r.accelerator].otfs) by { assert SideOk(s.sides[r.accelerator]); }
    RegisteredAfter(d.sides[r.accelerator].otfs, OperationOf(d, r));
    hide Define, Perform, HasKey, UniqueKeys;
  }

  lemma DefineKeepsMaps(s: State, r: Request)
    requires Inv(s) && r.accelerator in s.sides
    ensures MapsOk(Define(s, r))
  {
    if r.tenant in s.sides[r.accelerator].defs {
      RenewKeepsInv(s, r);
    } else {
      CreateKeepsInv(s, r);
    }
  }

  lemma RegisteredAfter(t: Table, op: Operation)
    requires UniqueKeys(t) && Perform(t, op).Some?
    ensures HasKey(Perform(t, op).value, op.key) <==> !op.Delete?
  {
    var r := Perform(t, op).value;
    match op
    case Add(key, otf) => assert r[|t|].key == key;
    case Update(key, otf) => assert r[IndexOf(t, key)].key == key;
    case Delete(key) =>
  }

  lemma DefineStores(s: State, r: Request)
    requires r.accelerator in s.sides
    ensures var d := Define(s, r);
            && r.accelerator in d.sides && r.tenant in d.sides[r.accelerator].defs
            && var def := d.sides[r.accelerator].defs[r.tenant];
            && def == Definition(def.funcId, r.code, r.mainIngress, r.vnis)
            && (if r.tenant in s.sides[r.accelerator].defs then def.funcId == s.sides[r.accelerator].defs[r.tenant].funcId
                else def.funcId == r.draw && r.tenant in d.live && d.live[r.tenant] == r.accelerator)
  {
  }

  lemma OperationStores(t: Table, op: Operation)
    requires UniqueKeys(t) && Perform(t, op).Some? && !op.Delete?
    ensures var after := Perform(t, op).value;
            HasKey(after, op.key) && after[IndexOf(after, op.key)].otf == op.otf
  {
    RegisteredAfter(t, op);
    var after := Perform(t, op).value;
    AfterKeepsKeysUnique(t, op);
    match op
    case Add(key, otf) => assert after[|t|].otf == otf && after[|t|].key == key;
    case Update(key, otf) => assert after[IndexOf(t, key)].otf == otf && after[IndexOf(t, key)].key == key;
  }

  /** Whether the generator still has the tenant's function after an operation on it. */
  lemma RegisteredAfterAny(t: Table, op: Operation)
    requires UniqueKeys(t)
    ensures HasKey(OtfDispatch.After(t, op), op.key) <==> !op.Delete? && (op.Update? ==> HasKey(t, op.key))
  {
    if Perform(t, op).Some? {
      RegisteredAfter(t, op);
    }
    hide UniqueKeys;
  }

  lemma ApplyOnGenerator(s: State, r: Request)
    requires r.accelerator in s.sides && r.tenant in s.sides[r.accelerator].defs && !r.action.OTHER?
    ensures var o := Apply(s, r);
            && r.accelerator in o.state.sides
            && o.state.sides[r.accelerator]
               == s.sides[r.accelerator].(otfs := OtfDispatch.After(s.sides[r.accelerator].otfs, OperationOf(s, r)))
            && (if r.action.DELETE? && HasKey(s.sides[r.accelerator].otfs, r.tenant) && r.fileOk && r.tenant in s.live then
                  o.state.live == Forget(s.live, r.tenant) && o.state.retired == s.retired[r.tenant := s.live[r.tenant]]
                else o.state.live == s.live && o.state.retired == s.retired)
  {
    hide HasKey, IndexOf;
  }

  /** Where a config leaves its tenant, whether it succeeds or aborts: always defined as sent; in the
      generator unless it was to be deleted, or as before if it did not get that far; and
      retired exactly if it was registered, to be deleted, and its file could be removed. */
  lemma ConfigLeavesTenantIff(s: State, r: Request)
    requires Inv(s) && r.accelerator in s.sides
    ensures var o := Configure(s, r);
            var tried := !r.unspecified && r.action != OTHER;
            var had := HasKey(s.sides[r.accelerator].otfs, r.tenant);
            var deleted := tried && r.action == DELETE && had && r.fileOk;
            && r.accelerator in o.state.sides && r.tenant in o.state.sides[r.accelerator].defs
            && (var d := o.state.sides[r.accelerator].defs[r.tenant]; d == Definition(d.funcId, r.code, r.mainIngress, r.vnis))
            && (HasKey(o.state.sides[r.accelerator].otfs, r.tenant) <==> if tried then r.action != DELETE else had)
            && (r.tenant in o.state.live <==> !deleted) && (r.tenant in o.state.retired <==> deleted)
  {
    DefineKeepsTable(s, r);
    DefinedIsLive(s, r);
    DefineKeepsMaps(s, r);
    DefineStores(s, r);
    var d := Define(s, r);
    assert UniqueKeys(s.sides[r.accelerator].otfs) by { assert SideOk(s.sides[r.accelerator]); }
    hide Define, HasKey, UniqueKeys, Inv, SidesOk;
    if !r.unspecified && r.action != OTHER {
      ApplyOnGenerator(d, r);
      RegisteredAfterAny(d.sides[r.accelerator].otfs, OperationOf(d, r));
      hide OtfDispatch.After, Apply;
    }
  }

  /** After a successful config the definition holds the request's code, ingress and
      VNIs under the tenant's old id, or the drawn one for a new tenant, and the
      generator has the same function under the same id. */
  lemma SuccessfulConfigIsStored(s: State, r: Request)
    requires Inv(s) && CanSucceed(s, r)
    ensures var o, known := Configure(s, r).state, r.tenant in s.sides[r.accelerator].defs;
            && r.accelerator in o.sides && r.tenant in o.sides[r.accelerator].defs
            && var side := o.sides[r.accelerator];
            && var def := side.defs[r.tenant];
            && def == Definition(if known then s.sides[r.accelerator].defs[r.tenant].funcId else r.draw, r.code, r.mainIngress, r.vnis)
            && (!r.action.DELETE? ==>
                  HasKey(side.otfs, r.tenant)
                  && side.otfs[IndexOf(side.otfs, r.tenant)].otf == Otf(def.vnis, def.funcId, def.mainIngress, def.code))
  {
    DefineKeepsTable(s, r);
    DefineStores(s, r);
    DefinedIsLive(s, r);
    var d := Define(s, r);
    var side := d.sides[r.accelerator];
    assert UniqueKeys(side.otfs) by { assert SideOk(s.sides[r.accelerator]); }
    var op := OperationOf(d, r);
    if !r.action.DELETE? {
      OperationStores(side.otfs, op);
    }
    hide Define, Perform, HasKey, UniqueKeys, SideOk;
  }
}
