/** What the generated controller does with a VNI, and how registering, updating
    and deleting tenant functions changes it. */
module OtfDispatch {
  import opened Options
  import opened OtfProgram
  import opened OtfParsing

  // -------------------------------------------------------------------------
  // Meaning of the generated text
  // -------------------------------------------------------------------------

  /** The first registered function with this VNI. */
  ghost predicate FirstMatch(otfs: seq<Otf>, i: nat, vni: nat) {
    && i < |otfs| && MatchesVni(otfs[i].vnis, vni)
    && forall j :: 0 <= j < i ==> !MatchesVni(otfs[j].vnis, vni)
  }

  /** A packet's 24-bit VNI matches a list that has it, besides numbers beyond 24 bits that
      are cut to it. */
  lemma VniIsListedIff(vnis: seq<nat>, vni: nat)
    ensures MatchesVni(vnis, vni) <==> exists v :: v in vnis && v % 0x100_0000 == vni
    ensures vni in vnis && vni < 0x100_0000 ==> MatchesVni(vnis, vni)
    ensures MatchesVni(vnis, vni) && (forall v :: v in vnis ==> v < 0x100_0000) ==> vni in vnis
  {
    if v :| v in vnis && v % 0x100_0000 == vni {
      var i :| 0 <= i < |vnis| && vnis[i] == v;
      assert vnis[i] % VNIS == vni;
    }
    if MatchesVni(vnis, vni) {
      var i :| 0 <= i < |vnis| && vnis[i] % VNIS == vni;
      assert vnis[i] in vnis;
    }
  }

  ghost predicate NoMatch(otfs: seq<Otf>, vni: nat) {
    forall j :: 0 <= j < |otfs| ==> !MatchesVni(otfs[j].vnis, vni)
  }

  /** Dispatch on the table itself. */
  function Dispatch(otfs: seq<Otf>, vni: nat): Effect {
    if otfs == [] then Nothing
    else if MatchesVni(otfs[0].vnis, vni) then Applied(otfs[0].funcId % FUNC_IDS, otfs[0].mainIngress)
    else Dispatch(otfs[1..], vni)
  }

  lemma {:induction false} DispatchIsFirst(otfs: seq<Otf>, i: nat, vni: nat)
    ensures FirstMatch(otfs, i, vni) ==> Dispatch(otfs, vni) == Applied(otfs[i].funcId % FUNC_IDS, otfs[i].mainIngress)
    ensures NoMatch(otfs, vni) ==> Dispatch(otfs, vni) == Nothing
    decreases otfs
  {
    hide MatchesVni;
    if otfs != [] {
      assert forall j :: 0 <= j < |otfs| - 1 ==> otfs[1..][j] == otfs[j + 1];
      if i == 0 {
        DispatchIsFirst(otfs[1..], 0, vni);
      } else {
        DispatchIsFirst(otfs[1..], i - 1, vni);
        if FirstMatch(otfs, i, vni) {
          assert !MatchesVni(otfs[0].vnis, vni);
        }
      }
    }
  }

  lemma {:induction false} ParsedEvaluates(otfs: seq<Otf>, vni: nat)
    ensures EvalChain(ParsedAll(otfs), vni) == Dispatch(otfs, vni)
  {
    if otfs != [] {
      ParsedEvaluates(otfs[1..], vni);
    }
  }

  /** Running the generated text on a packet sets the id and applies the ingress of
      the first registered function whose VNI list contains the packet's VNI, and
      does nothing if there is none or no VXLAN header. */
  lemma GeneratedTextDispatches(otfs: seq<Otf>, vxlanValid: bool, vni: nat, i: nat)
    requires Named(otfs) && HaveVnis(otfs) && vni < VNIS
    ensures var program := ParseController(ControllerText(otfs));
            && program.Some?
            && (vxlanValid && FirstMatch(otfs, i, vni) ==>
                  Eval(program.value, vxlanValid, vni) == Applied(otfs[i].funcId % FUNC_IDS, otfs[i].mainIngress))
            && (!vxlanValid || NoMatch(otfs, vni) ==> Eval(program.value, vxlanValid, vni) == Nothing)
  {
    hide ParseController, ControllerText, MatchesVni;
    ControllerParsesIff(otfs);
    ParsedEvaluates(otfs, vni);
    DispatchIsFirst(otfs, i, vni);
  }

  // -------------------------------------------------------------------------
  // Insertion order
  // -------------------------------------------------------------------------

  /** No VNI belongs to two functions. */
  ghost predicate DisjointVnis(otfs: seq<Otf>) {
    forall i, j, vni :: 0 <= i < j < |otfs| && MatchesVni(otfs[i].vnis, vni) ==> !MatchesVni(otfs[j].vnis, vni)
  }

  lemma DisjointDispatch(otfs: seq<Otf>, i: nat, vni: nat)
    requires DisjointVnis(otfs) && i < |otfs| && MatchesVni(otfs[i].vnis, vni)
    ensures Dispatch(otfs, vni) == Applied(otfs[i].funcId % FUNC_IDS, otfs[i].mainIngress)
  {
    DispatchIsFirst(otfs, i, vni);
  }

  lemma {:induction false} DispatchFinds(otfs: seq<Otf>, vni: nat) returns (i: nat)
    requires !NoMatch(otfs, vni)
    ensures FirstMatch(otfs, i, vni)
    decreases otfs
  {
    hide MatchesVni;
    if MatchesVni(otfs[0].vnis, vni) {
      return 0;
    }
    assert forall j :: 0 <= j < |otfs| - 1 ==> otfs[1..][j] == otfs[j + 1];
    var j :| 0 <= j < |otfs| && MatchesVni(otfs[j].vnis, vni);
    assert MatchesVni(otfs[1..][j - 1].vnis, vni);
    i := DispatchFinds(otfs[1..], vni);
    i := i + 1;
    assert forall k :: 0 < k < i ==> otfs[k] == otfs[1..][k - 1];
  }

  /** With disjoint VNI sets the dispatch does not depend on the insertion order. */
  lemma OrderDoesNotMatter(a: seq<Otf>, b: seq<Otf>, vni: nat)
    requires multiset(a) == multiset(b) && DisjointVnis(a)
    ensures Dispatch(a, vni) == Dispatch(b, vni)
  {
    hide MatchesVni, DisjointVnis;
    assert forall o :: o in a <==> o in multiset(a);
    assert forall o :: o in b <==> o in multiset(b);
    if NoMatch(b, vni) {
      forall j | 0 <= j < |a|
        ensures !MatchesVni(a[j].vnis, vni)
      {
        assert a[j] in a;
      }
      DispatchIsFirst(a, 0, vni);
      DispatchIsFirst(b, 0, vni);
    } else {
      var j := DispatchFinds(b, vni);
      DispatchIsFirst(b, j, vni);
      assert b[j] in b && b[j] in a;
      var i :| 0 <= i < |a| && a[i] == b[j];
      DisjointDispatch(a, i, vni);
    }
  }

  // -------------------------------------------------------------------------
  // The table of functions by tenant configuration
  // -------------------------------------------------------------------------

  datatype Entry = Entry(key: string, otf: Otf)

  /** otfs_by_code, in insertion order. */
  type Table = seq<Entry>

  function Otfs(t: Table): (r: seq<Otf>)
    ensures |r| == |t| && forall i :: 0 <= i < |t| ==> r[i] == t[i].otf
  {
    if t == [] then [] else [t[0].otf] + Otfs(t[1..])
  }

  ghost predicate UniqueKeys(t: Table) {
    forall i, j :: 0 <= i < j < |t| ==> t[i].key != t[j].key
  }

  predicate HasKey(t: Table, key: string) {
    exists i :: 0 <= i < |t| && t[i].key == key
  }

  function IndexOf(t: Table, key: string): (i: nat)
    requires HasKey(t, key)
    ensures i < |t| && t[i].key == key
    ensures forall j :: 0 <= j < i ==> t[j].key != key
  {
    if t[0].key == key then 0 else
    assert HasKey(t[1..], key) by {
      var j :| 0 <= j < |t| && t[j].key == key;
      assert t[1..][j - 1].key == key;
    }
    1 + IndexOf(t[1..], key)
  }

  datatype Operation =
    | Add(key: string, otf: Otf)
    | Update(key: string, otf: Otf)
    | Delete(key: string)

  /** add_otf_by_code, update_otf_by_code and delete_otf: None for a KeyError. */
  function Perform(t: Table, op: Operation): Option<Table> {
    match op
    case Add(key, otf) => if HasKey(t, key) then None else Some(t + [Entry(key, otf)])
    case Update(key, otf) => if HasKey(t, key) then Some(t[IndexOf(t, key) := Entry(key, otf)]) else None
    case Delete(key) =>
      if HasKey(t, key) then Some(t[..IndexOf(t, key)] + t[IndexOf(t, key) + 1..]) else None
  }

  /** A failed operation leaves the table as it is. */
  function After(t: Table, op: Operation): Table {
    var r := Perform(t, op);
    if r.Some? then r.value else t
  }

  lemma AfterKeepsKeysUnique(t: Table, op: Operation)
    requires UniqueKeys(t)
    ensures UniqueKeys(After(t, op))
  {
  }

  /** The VNIs an operation concerns: those the function had and those it gets. */
  ghost predicate Concerns(t: Table, op: Operation, vni: nat) {
    || (!op.Delete? && MatchesVni(op.otf.vnis, vni))
    || (!op.Add? && HasKey(t, op.key) && MatchesVni(t[IndexOf(t, op.key)].otf.vnis, vni))
  }

  lemma {:induction false} DispatchSplits(a: seq<Otf>, b: seq<Otf>, vni: nat)
    ensures Dispatch(a + b, vni) == if Dispatch(a, vni).Nothing? then Dispatch(b, vni) else Dispatch(a, vni)
  {
    if a == [] {
      assert a + b == b;
    } else {
      assert (a + b)[1..] == a[1..] + b;
      DispatchSplits(a[1..], b, vni);
    }
  }

  lemma DispatchSkips(a: seq<Otf>, o: Otf, b: seq<Otf>, vni: nat)
    requires !MatchesVni(o.vnis, vni)
    ensures Dispatch(a + [o] + b, vni) == Dispatch(a + b, vni)
  {
    DispatchSplits(a, b, vni);
    DispatchSplits(a + [o], b, vni);
    DispatchSplits(a, [o], vni);
  }

  lemma OtfsJoin(a: Table, b: Table)
    ensures Otfs(a + b) == Otfs(a) + Otfs(b)
  {
  }

  lemma OtfsAround(a: Table, e: Entry, b: Table)
    ensures Otfs(a + [e] + b) == Otfs(a) + [e.otf] + Otfs(b)
  {
    OtfsJoin(a + [e], b);
    OtfsJoin(a, [e]);
    assert Otfs([e]) == [e.otf];
  }

  lemma ReplacedIsLocal(t: Table, i: nat, otf: Otf, vni: nat)
    requires i < |t| && !MatchesVni(t[i].otf.vnis, vni) && !MatchesVni(otf.vnis, vni)
    ensures Dispatch(Otfs(t[i := Entry(t[i].key, otf)]), vni) == Dispatch(Otfs(t), vni)
  {
    hide MatchesVni, Dispatch, Otfs;
    var a, e, b := t[..i], Entry(t[i].key, otf), t[i + 1..];
    assert t == a + [t[i]] + b && t[i := e] == a + [e] + b;
    OtfsAround(a, t[i], b);
    OtfsAround(a, e, b);
    DispatchSkips(Otfs(a), t[i].otf, Otfs(b), vni);
    DispatchSkips(Otfs(a), otf, Otfs(b), vni);
  }

  lemma RemovedIsLocal(t: Table, i: nat, vni: nat)
    requires i < |t| && !MatchesVni(t[i].otf.vnis, vni)
    ensures Dispatch(Otfs(t[..i] + t[i + 1..]), vni) == Dispatch(Otfs(t), vni)
  {
    hide MatchesVni, Dispatch, Otfs;
    var a, b := t[..i], t[i + 1..];
    assert t == a + [t[i]] + b;
    OtfsAround(a, t[i], b);
    OtfsJoin(a, b);
    DispatchSkips(Otfs(a), t[i].otf, Otfs(b), vni);
  }

  lemma AddedIsLocal(t: Table, e: Entry, vni: nat)
    requires !MatchesVni(e.otf.vnis, vni)
    ensures Dispatch(Otfs(t + [e]), vni) == Dispatch(Otfs(t), vni)
  {
    hide MatchesVni, Dispatch;
    assert Otfs(t + [e]) == Otfs(t) + [e.otf] + [];
    assert Otfs(t) + [] == Otfs(t);
    DispatchSkips(Otfs(t), e.otf, [], vni);
  }

  /** One operation changes the dispatch of no other VNI. */
  lemma OperationIsLocal(t: Table, op: Operation, vni: nat)
    requires !Concerns(t, op, vni)
    ensures Dispatch(Otfs(After(t, op)), vni) == Dispatch(Otfs(t), vni)
  {
    hide MatchesVni, Dispatch, Otfs;
    if Perform(t, op).Some? {
      match op
      case Add(key, otf) => AddedIsLocal(t, Entry(key, otf), vni);
      case Update(key, otf) => ReplacedIsLocal(t, IndexOf(t, key), otf, vni);
      case Delete(key) => RemovedIsLocal(t, IndexOf(t, key), vni);
    }
  }

  function AfterAll(t: Table, ops: seq<Operation>): Table
    decreases ops
  {
    if ops == [] then t else AfterAll(After(t, ops[0]), ops[1..])
  }

  ghost predicate NeverConcerns(t: Table, ops: seq<Operation>, vni: nat)
    decreases ops
  {
    ops == [] || (!Concerns(t, ops[0], vni) && NeverConcerns(After(t, ops[0]), ops[1..], vni))
  }

  /** Nor does any sequence of operations. */
  lemma {:induction false} OperationsAreLocal(t: Table, ops: seq<Operation>, vni: nat)
    requires NeverConcerns(t, ops, vni)
    ensures Dispatch(Otfs(AfterAll(t, ops)), vni) == Dispatch(Otfs(t), vni)
    decreases ops
  {
    hide Concerns, After, Otfs, Dispatch;
    if ops != [] {
      OperationIsLocal(t, ops[0], vni);
      OperationsAreLocal(After(t, ops[0]), ops[1..], vni);
    }
  }

  /** A newly added function gets exactly its own VNIs, as far as they were free. */
  lemma AddedFunctionIsReached(t: Table, key: string, otf: Otf, vni: nat)
    requires !HasKey(t, key) && MatchesVni(otf.vnis, vni)
    ensures Dispatch(Otfs(After(t, Add(key, otf))), vni) ==
            if Dispatch(Otfs(t), vni).Nothing? then Applied(otf.funcId % FUNC_IDS, otf.mainIngress) else Dispatch(Otfs(t), vni)
  {
    hide MatchesVni;
    assert Otfs(t + [Entry(key, otf)]) == Otfs(t) + [otf];
    DispatchSplits(Otfs(t), [otf], vni);
  }

  // -------------------------------------------------------------------------
  // What operations do to the order
  // -------------------------------------------------------------------------

  lemma OnlyKey(t: Table, i: nat, key: string)
    requires UniqueKeys(t) && i < |t| && t[i].key == key
    ensures HasKey(t, key) && IndexOf(t, key) == i
    ensures forall j :: 0 <= j < |t| && j != i ==> t[j].key != key
  {
  }

  /** An update exchanges one function where it stands. */
  lemma UpdateKeepsOrder(t: Table, key: string, otf: Otf)
    requires UniqueKeys(t) && HasKey(t, key)
    ensures var r := After(t, Update(key, otf));
            && |r| == |t|
            && forall i :: 0 <= i < |t| ==> r[i].key == t[i].key && r[i].otf == if t[i].key == key then otf else t[i].otf
  {
    OnlyKey(t, IndexOf(t, key), key);
  }

  lemma RemovedAt(t: Table, i: nat)
    requires i < |t|
    ensures var r := t[..i] + t[i + 1..];
            |r| == |t| - 1 && forall j :: 0 <= j < |r| ==> r[j] == t[if j < i then j else j + 1]
  {
  }

  /** A deletion takes one function out and keeps the order of the others. */
  lemma DeleteKeepsOrder(t: Table, i: nat, key: string)
    requires UniqueKeys(t) && i < |t| && t[i].key == key
    ensures var r := After(t, Delete(key));
            && |r| == |t| - 1 && !HasKey(r, key)
            && forall j :: 0 <= j < |r| ==> r[j] == t[if j < i then j else j + 1]
  {
    OnlyKey(t, i, key);
    RemovedAt(t, i);
    assert After(t, Delete(key)) == t[..i] + t[i + 1..];
    hide After, UniqueKeys, IndexOf;
  }

  lemma FailedOperationsChangeNothing(t: Table, op: Operation)
    requires op.Add? <==> HasKey(t, op.key)
    ensures After(t, op) == t
  {
  }

  /** An updated function is dispatched its VNIs where it stood: it gets one of them exactly
      if no function registered before it has that VNI. */
  lemma UpdatedFunctionIsReachedIff(t: Table, i: nat, key: string, otf: Otf, vni: nat)
    requires UniqueKeys(t) && i < |t| && t[i].key == key && MatchesVni(otf.vnis, vni)
    ensures var r := Otfs(After(t, Update(key, otf)));
            && (FirstMatch(r, i, vni) <==> NoMatch(Otfs(t)[..i], vni))
            && Dispatch(r, vni) ==
               if NoMatch(Otfs(t)[..i], vni) then Applied(otf.funcId % 0x100, otf.mainIngress) else Dispatch(Otfs(t)[..i], vni)
  {
    hide MatchesVni, Dispatch;
    OnlyKey(t, i, key);
    UpdateKeepsOrder(t, key, otf);
    var r, before := Otfs(After(t, Update(key, otf))), Otfs(t)[..i];
    assert r == before + r[i..];
    assert forall j :: 0 <= j < i ==> before[j] == r[j];
    DispatchSplits(before, r[i..], vni);
    DispatchIsFirst(r, i, vni);
    MatchedIsNotNothing(before, vni);
  }

  lemma MatchedIsNotNothing(otfs: seq<Otf>, vni: nat)
    ensures Dispatch(otfs, vni).Nothing? <==> NoMatch(otfs, vni)
  {
    hide MatchesVni;
    if NoMatch(otfs, vni) {
      DispatchIsFirst(otfs, 0, vni);
    } else {
      var i := DispatchFinds(otfs, vni);
      DispatchIsFirst(otfs, i, vni);
    }
  }
}
