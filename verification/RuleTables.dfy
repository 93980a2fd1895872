/** The runtime rules applied per tenant and the four operations on them. */
module RuleTables {

  /** A rule as a dictionary with all four fields present. */
  datatype Rule = Rule(table: string, matches: string, actionName: string, actionParams: string)

  type Tables = map<string, seq<Rule>>

  const OK := 200
  const NOT_FOUND := 404
  const ERROR := 500

  /** Rules with the same table and matches are versions of one rule. */
  predicate SameKey(a: Rule, b: Rule) {
    a.table == b.table && a.matches == b.matches
  }

  predicate HasKey(rules: seq<Rule>, r: Rule) {
    exists i :: 0 <= i < |rules| && SameKey(rules[i], r)
  }

  /** A rule with the key of another is that rule with some action. */
  lemma SameKeyIff(a: Rule, b: Rule)
    ensures SameKey(a, b) <==> exists name, params :: b == Rule(a.table, a.matches, name, params)
  {
    if SameKey(a, b) {
      assert b == Rule(a.table, a.matches, b.actionName, b.actionParams);
    }
  }

  /** No two rules have the same key. */
  ghost predicate UniqueKeys(rules: seq<Rule>) {
    forall i, j :: 0 <= i < j < |rules| ==> !SameKey(rules[i], rules[j])
  }

  /** _get_index_of_rule for a rule whose key is present. */
  function IndexOfKey(rules: seq<Rule>, r: Rule): (i: nat)
    requires HasKey(rules, r)
    ensures i < |rules| && SameKey(rules[i], r)
    ensures forall j :: 0 <= j < i ==> !SameKey(rules[j], r)
  {
    if SameKey(rules[0], r) then 0 else
    assert HasKey(rules[1..], r) by {
      var j :| 0 <= j < |rules| && SameKey(rules[j], r);
      assert SameKey(rules[1..][j - 1], r);
    }
    1 + IndexOfKey(rules[1..], r)
  }

  function IndexOfRule(rules: seq<Rule>, r: Rule): (i: nat)
    requires r in rules
    ensures i < |rules| && rules[i] == r
    ensures r !in rules[..i]
  {
    if rules[0] == r then 0 else
    var i := 1 + IndexOfRule(rules[1..], r);
    assert forall j :: 0 < j < i ==> rules[j] == rules[1..][..i - 1][j - 1];
    i
  }

  /** list.remove: the first occurrence. */
  function Without(rules: seq<Rule>, r: Rule): (rest: seq<Rule>)
    requires r in rules
    ensures multiset(rest) == multiset(rules) - multiset{r}
    ensures |rest| == |rules| - 1
  {
    var i := IndexOfRule(rules, r);
    assert rules == rules[..i] + [r] + rules[i + 1..];
    rules[..i] + rules[i + 1..]
  }

  /** The others keep their order. */
  lemma WithoutKeepsOrder(rules: seq<Rule>, i: nat)
    requires i < |rules| && rules[i] !in rules[..i]
    ensures Without(rules, rules[i]) == rules[..i] + rules[i + 1..]
  {
    var j := IndexOfRule(rules, rules[i]);
    assert forall k :: 0 <= k < i ==> rules[k] in rules[..i];
    assert forall k :: 0 <= k < j ==> rules[k] in rules[..j];
  }

  // -------------------------------------------------------------------------
  // Operations on one tenant's list
  // -------------------------------------------------------------------------

  /** CreateRules: append what is not there yet. */
  function InsertAll(rules: seq<Rule>, request: seq<Rule>): seq<Rule>
    decreases request
  {
    if request == [] then rules
    else InsertAll(if request[0] in rules then rules else rules + [request[0]], request[1..])
  }

  /** UpdateRules for a known tenant: replace the first rule with the same key, skip
      the others. */
  function ReplaceAll(rules: seq<Rule>, request: seq<Rule>): seq<Rule>
    decreases request
  {
    if request == [] then rules
    else ReplaceAll(if HasKey(rules, request[0]) then rules[IndexOfKey(rules, request[0]) := request[0]] else rules, request[1..])
  }

  /** The list so far, and whether the loop got to its end without raising. */
  datatype Progress = Progress(rules: seq<Rule>, done: bool)

  /** UpdateRules for a new tenant: append new keys; a second version of a key just
      appended is looked up as a whole and not found. */
  function AppendKeys(rules: seq<Rule>, request: seq<Rule>): Progress
    decreases request
  {
    if request == [] then Progress(rules, true)
    else if !HasKey(rules, request[0]) then AppendKeys(rules + [request[0]], request[1..])
    else if request[0] in rules then AppendKeys(rules, request[1..])
    else Progress(rules, false)
  }

  // -------------------------------------------------------------------------
  // Operations on all tables
  // -------------------------------------------------------------------------

  function RulesOf(t: Tables, id: string): seq<Rule> {
    if id in t then t[id] else []
  }

  function Created(t: Tables, id: string, request: seq<Rule>): Tables {
    if request == [] then t else t[id := InsertAll(RulesOf(t, id), request)]
  }

  function Updated(t: Tables, id: string, request: seq<Rule>): Tables {
    if request == [] then t
    else if id in t then t[id := ReplaceAll(t[id], request)]
    else t[id := AppendKeys([], request).rules]
  }

  datatype Removal = Removal(tables: Tables, done: bool)

  /** DeleteRules: an unknown tenant or rule raises, an emptied list goes away. */
  function Deleted(t: Tables, id: string, request: seq<Rule>): Removal
    decreases request
  {
    if request == [] then Removal(t, true)
    else if id !in t || request[0] !in t[id] then Removal(t, false)
    else
      var rest := Without(t[id], request[0]);
      Deleted(if rest == [] then t - {id} else t[id := rest], id, request[1..])
  }

  /** No tenant keeps an empty list. */
  ghost predicate NoEmptyList(t: Tables) {
    forall id :: id in t ==> t[id] != []
  }

  lemma {:induction false} InsertAllKeeps(rules: seq<Rule>, request: seq<Rule>)
    ensures rules <= InsertAll(rules, request)
    ensures forall r :: r in InsertAll(rules, request) <==> r in rules || r in request
    decreases request
  {
    if request != [] {
      var next := if request[0] in rules then rules else rules + [request[0]];
      InsertAllKeeps(next, request[1..]);
      assert request == [request[0]] + request[1..];
    }
  }

  lemma {:induction false} ReplaceAllKeepsLength(rules: seq<Rule>, request: seq<Rule>)
    ensures |ReplaceAll(rules, request)| == |rules|
    decreases request
  {
    if request != [] {
      ReplaceAllKeepsLength(if HasKey(rules, request[0]) then rules[IndexOfKey(rules, request[0]) := request[0]] else rules, request[1..]);
    }
  }

  lemma {:induction false} AppendKeysGrows(rules: seq<Rule>, request: seq<Rule>)
    ensures |AppendKeys(rules, request).rules| >= |rules|
    ensures request != [] && rules == [] ==> AppendKeys(rules, request).rules != []
    decreases request
  {
    if request != [] {
      if !HasKey(rules, request[0]) {
        AppendKeysGrows(rules + [request[0]], request[1..]);
      } else {
        AppendKeysGrows(rules, request[1..]);
      }
    }
  }

  /** Whatever the request and however it ends, no empty list is left behind. */
  lemma CreateAndUpdateKeepNoEmptyList(t: Tables, id: string, request: seq<Rule>)
    requires NoEmptyList(t)
    ensures NoEmptyList(Created(t, id, request))
    ensures NoEmptyList(Updated(t, id, request))
  {
    InsertAllKeeps(RulesOf(t, id), request);
    if request != [] {
      assert request[0] in request;
    }
    if id in t {
      ReplaceAllKeepsLength(t[id], request);
    }
    AppendKeysGrows([], request);
  }

  lemma {:induction false} DeleteKeepsNoEmptyList(t: Tables, id: string, request: seq<Rule>)
    requires NoEmptyList(t)
    ensures NoEmptyList(Deleted(t, id, request).tables)
    ensures forall other :: other != id ==> (other in Deleted(t, id, request).tables <==> other in t)
    ensures forall other :: other != id && other in t ==> Deleted(t, id, request).tables[other] == t[other]
    decreases request
  {
    if request != [] && id in t && request[0] in t[id] {
      var rest := Without(t[id], request[0]);
      DeleteKeepsNoEmptyList(if rest == [] then t - {id} else t[id := rest], id, request[1..]);
    }
  }

  lemma OrderShrinks(rules: seq<Rule>, order: seq<Rule>)
    requires rules != [] && multiset(order) == multiset(rules)
    ensures order != [] && order[0] in rules
    ensures multiset(order[1..]) == multiset(Without(rules, order[0]))
    ensures Without(rules, order[0]) == [] ==> order[1..] == []
  {
    assert |order| == |multiset(order)| == |rules|;
    assert order == [order[0]] + order[1..];
    assert order[0] in multiset(order);
    assert |order[1..]| == |rules| - 1;
  }

  /** Deleting all rules of a tenant, in any order, removes the tenant. */
  lemma {:induction false} DeletingAllForgetsTenant(t: Tables, id: string, order: seq<Rule>)
    requires id in t && t[id] != [] && multiset(order) == multiset(t[id])
    ensures Deleted(t, id, order) == Removal(t - {id}, true)
    decreases order
  {
    hide Without;
    OrderShrinks(t[id], order);
    var rest := Without(t[id], order[0]);
    if rest != [] {
      DeletingAllForgetsTenant(t[id := rest], id, order[1..]);
      assert t[id := rest] - {id} == t - {id};
    }
  }

  /** Creating rules for a new tenant and deleting what was created undoes it. */
  lemma DeleteUndoesCreate(t: Tables, id: string, request: seq<Rule>)
    requires id !in t && request != []
    ensures Deleted(Created(t, id, request), id, RulesOf(Created(t, id, request), id)) == Removal(t, true)
  {
    hide InsertAll, Deleted, Without;
    InsertAllKeeps([], request);
    assert request[0] in InsertAll([], request);
    var created := Created(t, id, request);
    DeletingAllForgetsTenant(created, id, created[id]);
    assert created - {id} == t;
  }

  // -------------------------------------------------------------------------
  // When a loop comes to its end
  // -------------------------------------------------------------------------

  lemma RemovedFirst(rules: seq<Rule>, request: seq<Rule>)
    requires request != [] && request[0] in rules
    ensures multiset(request) <= multiset(rules) <==> multiset(request[1..]) <= multiset(Without(rules, request[0]))
    ensures multiset(Without(rules, request[0])) - multiset(request[1..]) == multiset(rules) - multiset(request)
  {
    assert request == [request[0]] + request[1..];
    assert multiset(Without(rules, request[0])) == multiset(rules) - multiset{request[0]};
  }

  /** A deletion gets through exactly if the tenant has every rule as often as it is to be
      deleted, and then leaves the others. */
  lemma {:induction false} DeletionDoneIff(t: Tables, id: string, request: seq<Rule>)
    ensures var d, rules := Deleted(t, id, request), RulesOf(t, id);
            && (d.done <==> multiset(request) <= multiset(rules))
            && (d.done ==> multiset(RulesOf(d.tables, id)) == multiset(rules) - multiset(request))
    decreases request
  {
    if request != [] {
      assert request[0] in request && request[0] in multiset(request);
      if id in t && request[0] in t[id] {
        var rest := Without(t[id], request[0]);
        var next := if rest == [] then t - {id} else t[id := rest];
        RemovedFirst(t[id], request);
        assert RulesOf(next, id) == rest;
        hide Without;
        DeletionDoneIff(next, id, request[1..]);
      }
    }
  }

  /** No rule of the request has the key of a different rule. */
  ghost predicate NoOtherVersion(rules: seq<Rule>, request: seq<Rule>) {
    forall a, b :: (a in rules || a in request) && b in request && SameKey(a, b) ==> a == b
  }

  lemma KeyOf(rules: seq<Rule>, r: Rule)
    ensures HasKey(rules, r) <==> exists a :: a in rules && SameKey(a, r)
  {
    if a :| a in rules && SameKey(a, r) {
      var i :| 0 <= i < |rules| && rules[i] == a;
      assert SameKey(rules[i], r);
    }
  }

  lemma NoOtherVersionUnfolds(rules: seq<Rule>, request: seq<Rule>)
    requires request != [] && UniqueKeys(rules)
    ensures !HasKey(rules, request[0]) ==>
              UniqueKeys(rules + [request[0]]) && (NoOtherVersion(rules, request) <==> NoOtherVersion(rules + [request[0]], request[1..]))
    ensures request[0] in rules ==> (NoOtherVersion(rules, request) <==> NoOtherVersion(rules, request[1..]))
    ensures HasKey(rules, request[0]) && request[0] !in rules ==> !NoOtherVersion(rules, request)
  {
    KeyOf(rules, request[0]);
    assert forall r :: r in request <==> r == request[0] || r in request[1..];
    if request[0] in rules {
      OneVersion(rules, request[0]);
    }
    hide HasKey;
  }

  lemma OneVersion(rules: seq<Rule>, r: Rule)
    requires UniqueKeys(rules) && r in rules
    ensures forall a :: a in rules && SameKey(a, r) ==> a == r
  {
  }

  /** A new tenant gets each rule of the request once, in order, up to the first one whose
      key came before in another version: exactly without such a rule the loop ends. */
  lemma {:induction false} AppendKeysDoneIff(rules: seq<Rule>, request: seq<Rule>)
    requires UniqueKeys(rules)
    ensures var p := AppendKeys(rules, request);
            && (p.done <==> NoOtherVersion(rules, request))
            && rules <= p.rules && UniqueKeys(p.rules)
            && (forall r :: r in p.rules ==> r in rules || r in request)
            && (p.done ==> forall r :: r in request ==> r in p.rules)
    decreases request
  {
    if request != [] {
      NoOtherVersionUnfolds(rules, request);
      assert forall r :: r in request <==> r == request[0] || r in request[1..];
      hide NoOtherVersion, UniqueKeys, HasKey;
      if !HasKey(rules, request[0]) {
        AppendKeysDoneIff(rules + [request[0]], request[1..]);
        assert AppendKeys(rules, request).rules[|rules|] == request[0];
      } else if request[0] in rules {
        AppendKeysDoneIff(rules, request[1..]);
      }
    }
  }
}
