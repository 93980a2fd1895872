/** What the in-network updater knows of a tenant function, and how configs of an
    update request and a cleanup change it, aborted or not. */
module TenantDefinitions {
  import opened OtfProgram
  import opened OtfDispatch

  type Accelerator = string
  type Tenant = string

  const MAX_ID := 128

  /** What random.randint(0, 128) can draw. */
  type FuncId = n: nat | n <= MAX_ID

  datatype Definition = Definition(funcId: FuncId, code: string, mainIngress: string, vnis: seq<nat>)

  /** One accelerator's entries of tenants_code_definitions (without "general"),
      tenants_cnf_name_id and otf_generators. */
  datatype Side = Side(defs: map<Tenant, Definition>, ids: map<Tenant, FuncId>, otfs: Table)

  /** `live` and `retired` are the two maps from tenants to accelerators,
      tenant_cnf_accelerator_map and old_tenant_cnf_accelerator_map. */
  datatype State = State(
    sides: map<Accelerator, Side>, live: map<Tenant, Accelerator>, retired: map<Tenant, Accelerator>)

  function Initial(enabled: set<Accelerator>): State {
    State(map a | a in enabled :: Side(map[], map[], []), map[], map[])
  }

  datatype UpdateAction = CREATE | UPDATE | DELETE | OTHER

  /** The tenant config controller's answer. */
  datatype Reply = Found | Missing | Failed | Raised

  /** One config of an update request. `draw` is the random number in 0..128, `fileOk`
      whether the function's file can be removed; a file that cannot be written is
      only logged. */
  datatype Request = Request(
    tenant: Tenant, accelerator: Accelerator, unspecified: bool, code: string, mainIngress: string,
    vnis: seq<nat>, action: UpdateAction, draw: FuncId, fileOk: bool, reply: Reply)

  function Forget<T>(m: map<Tenant, T>, t: Tenant): map<Tenant, T> {
    m - {t}
  }

  // -------------------------------------------------------------------------
  // One config
  // -------------------------------------------------------------------------

  /** _create_tenant_definition. The number is drawn again only while it is a value of
      the dictionary of dictionaries, that is never. */
  function Create(s: State, r: Request): State
    requires r.accelerator in s.sides
  {
    var side := s.sides[r.accelerator];
    var d := Definition(r.draw, r.code, r.mainIngress, r.vnis);
    State(s.sides[r.accelerator := side.(ids := side.ids[r.tenant := r.draw], defs := side.defs[r.tenant := d])],
          s.live[r.tenant := r.accelerator], Forget(s.retired, r.tenant))
  }

  /** A known tenant keeps its function id and returns from the retired map. */
  function Renew(s: State, r: Request): State
    requires r.accelerator in s.sides && r.tenant in s.sides[r.accelerator].defs
  {
    var side := s.sides[r.accelerator];
    var d := Definition(side.defs[r.tenant].funcId, r.code, r.mainIngress, r.vnis);
    var sides := s.sides[r.accelerator := side.(defs := side.defs[r.tenant := d])];
    if r.tenant in s.retired then State(sides, s.live[r.tenant := s.retired[r.tenant]], Forget(s.retired, r.tenant))
    else State(sides, s.live, s.retired)
  }

  function Define(s: State, r: Request): State
    requires r.accelerator in s.sides
  {
    if r.tenant in s.sides[r.accelerator].defs then Renew(s, r) else Create(s, r)
  }

  lemma DefineDefines(s: State, r: Request)
    requires r.accelerator in s.sides
    ensures r.accelerator in Define(s, r).sides && r.tenant in Define(s, r).sides[r.accelerator].defs
  {
  }

  /** The function under the id of its definition. */
  function DefinedOtf(s: State, r: Request): Otf
    requires r.accelerator in s.sides && r.tenant in s.sides[r.accelerator].defs
  {
    Otf(r.vnis, s.sides[r.accelerator].defs[r.tenant].funcId, r.mainIngress, r.code)
  }

  function WithOtfs(s: State, a: Accelerator, otfs: Table): State
    requires a in s.sides
  {
    s.(sides := s.sides[a := s.sides[a].(otfs := otfs)])
  }

  /** The operation on the generator: an update of an unregistered function adds it. */
  function OperationOf(s: State, r: Request): Operation
    requires r.accelerator in s.sides && r.tenant in s.sides[r.accelerator].defs && !r.action.OTHER?
  {
    var otf := DefinedOtf(s, r);
    match r.action
    case CREATE => Add(r.tenant, otf)
    case UPDATE => if HasKey(s.sides[r.accelerator].otfs, r.tenant) then Update(r.tenant, otf) else Add(r.tenant, otf)
    case DELETE => Delete(r.tenant)
  }

  datatype Outcome = Outcome(state: State, ok: bool)

  /** What a config does after its definition exists. A KeyError of the generator
      aborts before the generator has changed, a missing file of a deleted function
      after it. */
  function Apply(s: State, r: Request): Outcome
    requires r.accelerator in s.sides && r.tenant in s.sides[r.accelerator].defs
  {
    if r.action.OTHER? then Outcome(s, false) else
    var table := Perform(s.sides[r.accelerator].otfs, OperationOf(s, r));
    if table.None? then Outcome(s, false) else
    var changed := WithOtfs(s, r.accelerator, table.value);
    match r.action
    case CREATE => Outcome(changed, r.reply.Found? || r.reply.Missing?)
    case UPDATE => Outcome(changed, true)
    case DELETE =>
      if !r.fileOk || r.tenant !in s.live then Outcome(changed, false) else
      Outcome(State(changed.sides, Forget(s.live, r.tenant), s.retired[r.tenant := s.live[r.tenant]]), !r.reply.Raised?)
  }

  /** Without an entry for the accelerator the first lookup raises. */
  function Configure(s: State, r: Request): (o: Outcome) {
    if r.accelerator !in s.sides then Outcome(s, false) else
    var defined := Define(s, r);
    if r.unspecified then Outcome(defined, false) else Apply(defined, r)
  }

  /** _preprocess: config after config until one aborts the request. */
  function Preprocess(s: State, rs: seq<Request>): Outcome
    decreases rs
  {
    if rs == [] then Outcome(s, true) else
    var o := Configure(s, rs[0]);
    if o.ok then Preprocess(o.state, rs[1..]) else o
  }

  // -------------------------------------------------------------------------
  // Cleanup
  // -------------------------------------------------------------------------

  /** One key; a missing entry is only logged, a missing file aborts the cleanup. */
  function CleanKey(s: State, a: Accelerator, key: Tenant, fileOk: bool): Outcome
    requires a in s.sides
  {
    var side := s.sides[a];
    if key !in side.defs then Outcome(s, true) else
    var undefined := side.(defs := Forget(side.defs, key));
    if key !in side.ids then Outcome(s.(sides := s.sides[a := undefined]), true) else
    var unnamed := undefined.(ids := Forget(side.ids, key));
    var gone := unnamed.(otfs := After(side.otfs, Delete(key)));
    Outcome(s.(sides := s.sides[a := gone]), HasKey(side.otfs, key) ==> fileOk)
  }

  function Clean(s: State, a: Accelerator, keys: seq<Tenant>, stuck: set<Tenant>): State
    requires a in s.sides
    decreases keys
  {
    if keys == [] then s else
    var o := CleanKey(s, a, keys[0], keys[0] !in stuck);
    if o.ok then Clean(o.state, a, keys[1..], stuck) else o.state
  }

  // -------------------------------------------------------------------------
  // Runs
  // -------------------------------------------------------------------------

  /** A cleanup returns after the first enabled accelerator; `keys` is the order of
      its dictionary and `stuck` the tenants whose file cannot be removed. */
  datatype Event =
    | UpdateRequest(requests: seq<Request>)
    | CleanupRequest(first: Accelerator, keys: seq<Tenant>, stuck: set<Tenant>)

  function Handle(s: State, e: Event): State {
    match e
    case UpdateRequest(requests) => Preprocess(s, requests).state
    case CleanupRequest(first, keys, stuck) => if first in s.sides then Clean(s, first, keys, stuck) else s
  }

  function Run(enabled: set<Accelerator>, events: seq<Event>): State {
    if events == [] then Initial(enabled) else Handle(Run(enabled, events[..|events| - 1]), events[|events| - 1])
  }

  // -------------------------------------------------------------------------
  // The invariant
  // -------------------------------------------------------------------------

  /** Registered functions are defined, ids and definitions have the same tenants, and
      all three agree on the function id. */
  ghost predicate SideOk(side: Side) {
    && UniqueKeys(side.otfs)
    && side.defs.Keys == side.ids.Keys
    && (forall t :: t in side.defs ==> side.defs[t].funcId == side.ids[t])
    && (forall i :: 0 <= i < |side.otfs| ==>
          side.otfs[i].key in side.ids && side.otfs[i].otf.funcId == side.ids[side.otfs[i].key])
  }

  ghost predicate SidesOk(s: State) {
    forall a :: a in s.sides ==> SideOk(s.sides[a])
  }

  /** Each defined tenant is in exactly one of the two maps. */
  ghost predicate MapsOk(s: State) {
    && (forall t :: t in s.live ==> t !in s.retired)
    && (forall a, t :: a in s.sides && t in s.sides[a].defs ==> t in s.live || t in s.retired)
  }

  ghost predicate Inv(s: State) {
    SidesOk(s) && MapsOk(s)
  }

  lemma CreateKeepsInv(s: State, r: Request)
    requires Inv(s) && r.accelerator in s.sides && r.tenant !in s.sides[r.accelerator].defs
    ensures Inv(Create(s, r)) && r.tenant in Create(s, r).sides[r.accelerator].defs
  {
    hide UniqueKeys;
    assert SideOk(Create(s, r).sides[r.accelerator]);
    hide SideOk;
  }

  lemma RenewKeepsInv(s: State, r: Request)
    requires Inv(s) && r.accelerator in s.sides && r.tenant in s.sides[r.accelerator].defs
    ensures Inv(Renew(s, r)) && r.tenant in Renew(s, r).sides[r.accelerator].defs
  {
    hide UniqueKeys;
    assert SideOk(s.sides[r.accelerator]);
    assert SideOk(Renew(s, r).sides[r.accelerator]);
    hide SideOk;
  }

  lemma OperationKeepsSide(side: Side, op: Operation)
    requires SideOk(side)
    requires !op.Delete? ==> op.key in side.ids && op.otf.funcId == side.ids[op.key]
    ensures SideOk(side.(otfs := After(side.otfs, op)))
  {
    AfterKeepsKeysUnique(side.otfs, op);
    hide UniqueKeys;
  }

  lemma WithOtfsKeepsInv(s: State, a: Accelerator, otfs: Table)
    requires Inv(s) && a in s.sides && SideOk(s.sides[a].(otfs := otfs))
    ensures Inv(WithOtfs(s, a, otfs))
  {
    hide SideOk;
  }

  lemma ApplyKeepsInv(s: State, r: Request)
    requires Inv(s) && r.accelerator in s.sides && r.tenant in s.sides[r.accelerator].defs
    ensures Inv(Apply(s, r).state)
  {
    if !r.action.OTHER? {
      var side, op := s.sides[r.accelerator], OperationOf(s, r);
      OperationKeepsSide(side, op);
      hide Perform, SideOk, HasKey;
      var table := Perform(side.otfs, op);
      if table.Some? {
        WithOtfsKeepsInv(s, r.accelerator, table.value);
      }
    }
  }

  /** A config leaves the invariant however it ends. */
  lemma ConfigureKeepsInv(s: State, r: Request)
    requires Inv(s)
    ensures Inv(Configure(s, r).state)
  {
    hide Inv, Create, Renew, Apply;
    if r.accelerator in s.sides {
      if r.tenant in s.sides[r.accelerator].defs {
        RenewKeepsInv(s, r);
      } else {
        CreateKeepsInv(s, r);
      }
      DefineKeepsSides(s, r);
      if !r.unspecified {
        ApplyKeepsInv(Define(s, r), r);
      }
    }
  }

  lemma DefineKeepsSides(s: State, r: Request)
    requires r.accelerator in s.sides
    ensures Define(s, r).sides.Keys == s.sides.Keys
  {
  }

  lemma {:induction false} PreprocessKeepsInv(s: State, rs: seq<Request>)
    requires Inv(s)
    ensures Inv(Preprocess(s, rs).state)
    decreases rs
  {
    hide Inv, Configure;
    if rs != [] {
      ConfigureKeepsInv(s, rs[0]);
      if Configure(s, rs[0]).ok {
        PreprocessKeepsInv(Configure(s, rs[0]).state, rs[1..]);
      }
    }
  }

  lemma CleanKeyKeepsSide(side: Side, key: Tenant)
    requires SideOk(side)
    ensures SideOk(Side(Forget(side.defs, key), Forget(side.ids, key), After(side.otfs, Delete(key))))
  {
    AfterKeepsKeysUnique(side.otfs, Delete(key));
  }

  lemma CleanKeyKeepsInv(s: State, a: Accelerator, key: Tenant, fileOk: bool)
    requires Inv(s) && a in s.sides
    ensures Inv(CleanKey(s, a, key, fileOk).state)
  {
    var side := s.sides[a];
    assert side.defs.Keys == side.ids.Keys;
    CleanKeyKeepsSide(side, key);
    hide SideOk, After;
  }

  lemma {:induction false} CleanKeepsInv(s: State, a: Accelerator, keys: seq<Tenant>, stuck: set<Tenant>)
    requires Inv(s) && a in s.sides
    ensures Inv(Clean(s, a, keys, stuck))
    decreases keys
  {
    hide Inv;
    if keys != [] {
      CleanKeyKeepsInv(s, a, keys[0], keys[0] !in stuck);
      var o := CleanKey(s, a, keys[0], keys[0] !in stuck);
      if o.ok {
        CleanKeepsInv(o.state, a, keys[1..], stuck);
      }
    }
  }

  /** From a fresh start every sequence of update requests and cleanups, completed or
      aborted anywhere, keeps the invariant. */
  lemma {:induction false} RunKeepsInv(enabled: set<Accelerator>, events: seq<Event>)
    ensures Inv(Run(enabled, events))
  {
    if events != [] {
      hide Inv, Preprocess, Clean;
      var s := Run(enabled, events[..|events| - 1]);
      RunKeepsInv(enabled, events[..|events| - 1]);
      match events[|events| - 1]
      case UpdateRequest(requests) => PreprocessKeepsInv(s, requests);
      case CleanupRequest(first, keys, stuck) =>
        if first in s.sides {
          CleanKeepsInv(s, first, keys, stuck);
        }
    }
  }
}
