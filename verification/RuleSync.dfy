/** Reconciling the rules a tenant wants with the rules applied for it. */
module RuleSync {
  import opened RuleTables

  // -------------------------------------------------------------------------
  // The plan
  // -------------------------------------------------------------------------

  /** equal_complete_rule_dict: every desired rule is applied as it is. */
  predicate AllApplied(desired: seq<Rule>, applied: seq<Rule>) {
    forall i :: 0 <= i < |desired| ==> desired[i] in applied
  }

  function Filter(rules: seq<Rule>, keep: Rule -> bool): (r: seq<Rule>)
    ensures forall x :: x in r <==> x in rules && keep(x)
  {
    if rules == [] then [] else
    var rest := Filter(rules[1..], keep);
    assert rules == [rules[0]] + rules[1..];
    if keep(rules[0]) then [rules[0]] + rest else rest
  }

  function Known(rules: seq<Rule>): Rule -> bool {
    r => HasKey(rules, r)
  }

  function Unknown(rules: seq<Rule>): Rule -> bool {
    r => !HasKey(rules, r)
  }

  function ToUpdate(desired: seq<Rule>, applied: seq<Rule>): seq<Rule> {
    Filter(desired, Known(applied))
  }

  function Unchanged(desired: seq<Rule>, applied: seq<Rule>): Rule -> bool {
    r => HasKey(desired, r) && r in ToUpdate(desired, applied)
  }

  /** New keys first, then the applied rules that stay as they are. */
  function ToCreate(desired: seq<Rule>, applied: seq<Rule>): seq<Rule> {
    Filter(desired, Unknown(applied)) + Filter(applied, Unchanged(desired, applied))
  }

  function ToDelete(desired: seq<Rule>, applied: seq<Rule>): seq<Rule> {
    Filter(applied, Unknown(desired))
  }

  /** Which rules are sent in which of the three requests. */
  lemma PlanIff(desired: seq<Rule>, applied: seq<Rule>, r: Rule)
    ensures r in ToUpdate(desired, applied) <==> r in desired && exists a :: a in applied && SameKey(a, r)
    ensures r in ToCreate(desired, applied) <==>
            r in desired && (r in applied || !exists a :: a in applied && SameKey(a, r))
    ensures r in ToDelete(desired, applied) <==> r in applied && !exists d :: d in desired && SameKey(d, r)
  {
    KeyOf(desired, r);
    KeyOf(applied, r);
    if r in desired {
      assert SameKey(r, r);
    }
    hide HasKey;
  }

  /** What a synchronisation of `id` does to the tables: update, create, delete. */
  function Synchronized(t: Tables, id: string, desired: seq<Rule>): Tables {
    if id !in t then Created(t, id, desired)
    else if AllApplied(desired, t[id]) then t
    else
      var updated := Updated(t, id, ToUpdate(desired, t[id]));
      var created := Created(updated, id, ToCreate(desired, t[id]));
      Deleted(created, id, ToDelete(desired, t[id])).tables
  }

  // -------------------------------------------------------------------------
  // Filters and keys
  // -------------------------------------------------------------------------

  lemma {:induction false} FilterKeepsKeysUnique(rules: seq<Rule>, keep: Rule -> bool)
    requires UniqueKeys(rules)
    ensures UniqueKeys(Filter(rules, keep))
  {
    if rules != [] {
      var rest := Filter(rules[1..], keep);
      FilterKeepsKeysUnique(rules[1..], keep);
      forall j | 0 <= j < |rest|
        ensures !SameKey(rules[0], rest[j])
      {
        assert rest[j] in rest && rest[j] in rules[1..];
      }
    }
  }

  /** With unique keys, a key belongs to one rule. */
  lemma KeyDetermines(rules: seq<Rule>, a: Rule, b: Rule)
    requires UniqueKeys(rules) && a in rules && b in rules && SameKey(a, b)
    ensures a == b
  {
  }

  lemma KeyOfMember(rules: seq<Rule>, a: Rule, b: Rule)
    requires a in rules && SameKey(a, b)
    ensures HasKey(rules, b)
  {
  }

  // -------------------------------------------------------------------------
  // The three requests
  // -------------------------------------------------------------------------

  lemma ReplaceOne(rules: seq<Rule>, r: Rule)
    requires UniqueKeys(rules) && HasKey(rules, r)
    ensures var next := rules[IndexOfKey(rules, r) := r];
            && UniqueKeys(next)
            && (forall x :: x in next <==> x == r || (x in rules && !SameKey(x, r)))
            && (forall x :: HasKey(next, x) <==> HasKey(rules, x))
  {
    var i := IndexOfKey(rules, r);
    var next := rules[i := r];
    forall x
      ensures x in next <==> x == r || (x in rules && !SameKey(x, r))
      ensures HasKey(next, x) <==> HasKey(rules, x)
    {
      assert next[i] == r;
      if x in rules && !SameKey(x, r) {
        var j :| 0 <= j < |rules| && rules[j] == x;
        assert next[j] == x;
      }
      if HasKey(rules, x) {
        var j :| 0 <= j < |rules| && SameKey(rules[j], x);
        assert SameKey(next[j], x);
      }
    }
  }

  /** Updating with rules whose keys are all present exchanges exactly those keys. */
  lemma {:induction false} ReplaceAllExchanges(rules: seq<Rule>, request: seq<Rule>)
    requires UniqueKeys(rules) && UniqueKeys(request)
    requires forall r :: r in request ==> HasKey(rules, r)
    ensures UniqueKeys(ReplaceAll(rules, request))
    ensures forall x :: x in ReplaceAll(rules, request) <==> x in request || (x in rules && !HasKey(request, x))
    decreases request
  {
    if request != [] {
      var r, rest := request[0], request[1..];
      assert request == [r] + rest;
      ReplaceOne(rules, r);
      var next := rules[IndexOfKey(rules, r) := r];
      ReplaceAllExchanges(next, rest);
      forall x
        ensures x in ReplaceAll(rules, request) <==> x in request || (x in rules && !HasKey(request, x))
      {
        HeadKey(r, rest, x);
        if x == r && x !in rest {
          assert !HasKey(rest, r);
        }
      }
    }
  }

  lemma HeadKey(r: Rule, rest: seq<Rule>, x: Rule)
    ensures HasKey([r] + rest, x) <==> SameKey(r, x) || HasKey(rest, x)
  {
    var all := [r] + rest;
    if SameKey(r, x) {
      assert SameKey(all[0], x);
    }
    if HasKey(rest, x) {
      var j :| 0 <= j < |rest| && SameKey(rest[j], x);
      assert SameKey(all[j + 1], x);
    }
  }

  /** Creating appends the rules that are not there; the keys stay unique if those are
      new keys. */
  lemma {:induction false} InsertAllJoins(rules: seq<Rule>, request: seq<Rule>)
    requires UniqueKeys(rules)
    requires forall r :: r in request ==> r in rules || !HasKey(rules, r)
    requires forall a, b :: a in request && b in request && SameKey(a, b) ==> a == b
    ensures UniqueKeys(InsertAll(rules, request))
    ensures forall x :: x in InsertAll(rules, request) <==> x in rules || x in request
    decreases request
  {
    InsertAllKeeps(rules, request);
    if request != [] {
      var r, rest := request[0], request[1..];
      assert request == [r] + rest;
      var next := if r in rules then rules else rules + [r];
      forall q | q in rest
        ensures q in next || !HasKey(next, q)
      {
        assert SameKey(r, q) ==> q == r;
      }
      InsertAllJoins(next, rest);
    }
  }

  lemma WithoutUnique(rules: seq<Rule>, r: Rule)
    requires UniqueKeys(rules) && r in rules
    ensures UniqueKeys(Without(rules, r))
    ensures forall x :: x in Without(rules, r) <==> x in rules && x != r
  {
    var i := IndexOfRule(rules, r);
    var rest := rules[..i] + rules[i + 1..];
    forall x
      ensures x in rest <==> x in rules && x != r
    {
      if x in rules && x != r {
        var j :| 0 <= j < |rules| && rules[j] == x;
        assert if j < i then rest[j] == x else rest[j - 1] == x;
      }
    }
  }

  /** Deleting some applied rules while another one survives. */
  lemma {:induction false} DeletedKeepsOthers(t: Tables, id: string, request: seq<Rule>, survivor: Rule)
    requires id in t && UniqueKeys(t[id]) && UniqueKeys(request)
    requires survivor in t[id] && survivor !in request
    requires forall r :: r in request ==> r in t[id]
    ensures var d := Deleted(t, id, request);
            && d.done && id in d.tables && UniqueKeys(d.tables[id])
            && (forall x :: x in d.tables[id] <==> x in t[id] && x !in request)
            && d.tables == t[id := d.tables[id]]
    decreases request
  {
    if request != [] {
      var r, rest := request[0], request[1..];
      assert request == [r] + rest;
      var kept := Without(t[id], r);
      WithoutUnique(t[id], r);
      assert survivor in kept;
      assert r !in rest;
      DeletedKeepsOthers(t[id := kept], id, rest, survivor);
    } else {
      assert t == t[id := t[id]];
    }
  }

  // -------------------------------------------------------------------------
  // Convergence
  // -------------------------------------------------------------------------

  /** After the update request: desired rules of known keys, applied rules of others. */
  lemma UpdateStep(desired: seq<Rule>, applied: seq<Rule>)
    requires UniqueKeys(desired) && UniqueKeys(applied)
    ensures var u := ReplaceAll(applied, ToUpdate(desired, applied));
            && UniqueKeys(u)
            && (forall x :: x in u <==> (x in desired && HasKey(applied, x)) || (x in applied && !HasKey(desired, x)))
  {
    hide Filter, ReplaceAll, UniqueKeys;
    var request := ToUpdate(desired, applied);
    FilterKeepsKeysUnique(desired, Known(applied));
    ReplaceAllExchanges(applied, request);
    forall x | x in applied
      ensures HasKey(request, x) <==> HasKey(desired, x)
    {
      KnownKeys(desired, applied, request, x);
    }
  }

  lemma KnownKeys(desired: seq<Rule>, applied: seq<Rule>, request: seq<Rule>, x: Rule)
    requires x in applied && (forall r :: r in request <==> r in desired && HasKey(applied, r))
    ensures HasKey(request, x) <==> HasKey(desired, x)
  {
    if HasKey(desired, x) {
      var j :| 0 <= j < |desired| && SameKey(desired[j], x);
      KeyOfMember(applied, x, desired[j]);
      KeyOfMember(request, desired[j], x);
    }
    if HasKey(request, x) {
      var j :| 0 <= j < |request| && SameKey(request[j], x);
      KeyOfMember(desired, request[j], x);
    }
  }

  /** After the create request: all desired rules, and applied rules of other keys. */
  lemma CreateStep(desired: seq<Rule>, applied: seq<Rule>, u: seq<Rule>)
    requires UniqueKeys(desired) && UniqueKeys(applied) && UniqueKeys(u)
    requires forall x :: x in u <==> (x in desired && HasKey(applied, x)) || (x in applied && !HasKey(desired, x))
    ensures var c := InsertAll(u, ToCreate(desired, applied));
            && UniqueKeys(c)
            && (forall x :: x in c <==> x in desired || (x in applied && !HasKey(desired, x)))
  {
    hide Filter, InsertAll;
    var request := ToCreate(desired, applied);
    forall r | r in request
      ensures r in desired
      ensures r in u || !HasKey(u, r)
    {
      if HasKey(u, r) {
        var j :| 0 <= j < |u| && SameKey(u[j], r);
        assert u[j] in u;
        KeyOfMember(desired, r, u[j]);
        KeyDetermines(desired, r, u[j]);
      }
    }
    forall a, b | a in request && b in request && SameKey(a, b)
      ensures a == b
    {
      KeyDetermines(desired, a, b);
    }
    InsertAllJoins(u, request);
  }

  lemma RequestsKeepOthers(t: Tables, id: string, rules: seq<Rule>, request: seq<Rule>)
    requires id in t
    ensures Updated(t, id, request) == t[id := ReplaceAll(t[id], request)]
    ensures Created(t[id := rules], id, request) == t[id := InsertAll(rules, request)]
  {
    if request == [] {
      assert t == t[id := t[id]];
    }
  }

  /** Synchronising a tenant whose applied rules do not already include the desired
      ones leaves exactly the desired ones, each key once, and no other tenant
      touched. */
  lemma DifferentRulesConverge(t: Tables, id: string, desired: seq<Rule>)
    requires id in t && UniqueKeys(desired) && UniqueKeys(t[id]) && !AllApplied(desired, t[id])
    ensures var s := Synchronized(t, id, desired);
            && id in s && UniqueKeys(s[id]) && (forall x :: x in s[id] <==> x in desired)
            && s == t[id := s[id]]
  {
    hide Filter, InsertAll, ReplaceAll, Updated, Created, Deleted, UniqueKeys;
    var applied := t[id];
    UpdateStep(desired, applied);
    var u := ReplaceAll(applied, ToUpdate(desired, applied));
    CreateStep(desired, applied, u);
    var c := InsertAll(u, ToCreate(desired, applied));
    RequestsKeepOthers(t, id, u, ToUpdate(desired, applied));
    RequestsKeepOthers(t, id, u, ToCreate(desired, applied));
    var request := ToDelete(desired, applied);
    FilterKeepsKeysUnique(applied, Unknown(desired));
    var i :| 0 <= i < |desired| && desired[i] !in applied;
    forall r | r in desired
      ensures HasKey(desired, r)
    {
      KeyOfMember(desired, r, r);
    }
    DeletedKeepsOthers(t[id := c], id, request, desired[i]);
  }

  lemma NewTenantConverges(t: Tables, id: string, desired: seq<Rule>)
    requires id !in t && UniqueKeys(desired) && desired != []
    ensures var s := Synchronized(t, id, desired);
            && id in s && UniqueKeys(s[id]) && (forall x :: x in s[id] <==> x in desired)
            && s == t[id := s[id]]
  {
    forall a, b | a in desired && b in desired && SameKey(a, b)
      ensures a == b
    {
      KeyDetermines(desired, a, b);
    }
    InsertAllJoins([], desired);
  }

  /** With unique keys on both sides a synchronisation makes every desired rule
      applied, keeps keys unique, touches no other tenant, and doing it again
      changes nothing. If the desired rules were all applied before, nothing
      changes at all, so stale rules stay. */
  lemma SynchronisationConverges(t: Tables, id: string, desired: seq<Rule>)
    requires UniqueKeys(desired) && UniqueKeys(RulesOf(t, id))
    ensures var s := Synchronized(t, id, desired);
            && AllApplied(desired, RulesOf(s, id))
            && UniqueKeys(RulesOf(s, id))
            && (AllApplied(desired, RulesOf(t, id)) ==> s == t)
            && (!AllApplied(desired, RulesOf(t, id)) ==> forall x :: x in RulesOf(s, id) <==> x in desired)
            && (forall other :: other != id ==> RulesOf(s, other) == RulesOf(t, other))
            && Synchronized(s, id, desired) == s
  {
    hide Filter, InsertAll, ReplaceAll, Updated, Deleted, UniqueKeys, ToUpdate, ToCreate, ToDelete;
    if id !in t {
      if desired != [] {
        NewTenantConverges(t, id, desired);
        assert desired[0] in desired;
      }
    } else if !AllApplied(desired, t[id]) {
      DifferentRulesConverge(t, id, desired);
    }
  }

  /** The applied set ends up equal to the desired set exactly if some desired rule
      was missing or no applied rule was stale. */
  lemma SetsMeetIff(t: Tables, id: string, desired: seq<Rule>)
    requires UniqueKeys(desired) && UniqueKeys(RulesOf(t, id))
    ensures (forall x :: x in RulesOf(Synchronized(t, id, desired), id) <==> x in desired)
            <==> !AllApplied(desired, RulesOf(t, id)) || AllApplied(RulesOf(t, id), desired)
  {
    hide Synchronized, UniqueKeys;
    SynchronisationConverges(t, id, desired);
    var applied := RulesOf(t, id);
    if AllApplied(desired, applied) {
      assert forall i :: 0 <= i < |applied| ==> applied[i] in applied;
    }
  }
}
