/** The RulesUpdater service on the tenant rules. Whether the switch accepts the
    entries sent to it is decided outside: `tifRaises` is a failing remote call. */
module RulesUpdater {
  import opened TenantIds
  import opened RuleTables

  /** A rule whose key is among the rules, but not the rule itself. */
  predicate Fails(rules: seq<Rule>, r: Rule) {
    HasKey(rules, r) && r !in rules
  }

  /** Some rule of the request has a key that is applied already. */
  ghost predicate AnyKnown(rules: seq<Rule>, request: seq<Rule>) {
    exists i :: 0 <= i < |request| && HasKey(rules, request[i])
  }

  class Updater {
    var tenantTables: Tables
    /** The three provider tables have entries to read. */
    var providersInitialised: bool

    ghost predicate Valid()
      reads this
    {
      NoEmptyList(tenantTables)
    }

    constructor (providersInitialised: bool)
      ensures Valid() && tenantTables == map[] && this.providersInitialised == providersInitialised
    {
      tenantTables := map[];
      this.providersInitialised := providersInitialised;
    }

    method RuleInTable(r: Rule, rules: seq<Rule>) returns (found: bool)
      ensures found <==> HasKey(rules, r)
    {
      for i := 0 to |rules|
        invariant forall j :: 0 <= j < i ==> !SameKey(rules[j], r)
      {
        if r.table == rules[i].table && r.matches == rules[i].matches {
          return true;
        }
      }
      return false;
    }

    method CreateRules(tenantId: nat, name: string, request: seq<Rule>, tifRaises: bool) returns (status: nat)
      requires Valid()
      modifies this`tenantTables
      ensures Valid() && tenantTables == Created(old(tenantTables), Build(tenantId, name), request)
      ensures status == if tenantTables == old(tenantTables) then NOT_FOUND else if tifRaises then ERROR else OK
    {
      hide InsertAll, Build;
      var id := Build(tenantId, name);
      ghost var before := tenantTables;
      CreateAndUpdateKeepNoEmptyList(before, id, request);
      var scheduled := false;
      if request != [] {
        var rules := if id in tenantTables then tenantTables[id] else [];
        var i := 0;
        tenantTables := tenantTables[id := rules];
        ghost var all := InsertAll(rules, request);
        assert request[0..] == request;
        while i < |request|
          invariant 0 <= i <= |request|
          invariant id in tenantTables && tenantTables == before[id := tenantTables[id]]
          invariant RulesOf(before, id) <= tenantTables[id]
          invariant scheduled <==> tenantTables[id] != RulesOf(before, id)
          invariant i > 0 ==> tenantTables[id] != []
          invariant InsertAll(tenantTables[id], request[i..]) == all
        {
          InsertUnfolds(tenantTables[id], request, i);
          if request[i] !in tenantTables[id] {
            tenantTables := tenantTables[id := tenantTables[id] + [request[i]]];
            scheduled := true;
          }
          i := i + 1;
        }
        InsertEnds(tenantTables[id], request[i..]);
      }
      if !scheduled {
        return NOT_FOUND;
      }
      assert tenantTables[id] != RulesOf(before, id);
      return if tifRaises then ERROR else OK;
    }

    /** For a known tenant; a new one goes through UpdateNewTenant. */
    method UpdateKnownTenant(id: string, request: seq<Rule>) returns (scheduled: bool)
      requires Valid() && id in tenantTables && request != []
      modifies this`tenantTables
      ensures Valid() && tenantTables == Updated(old(tenantTables), id, request)
      ensures scheduled <==> AnyKnown(old(tenantTables)[id], request)
    {
      hide ReplaceAll, HasKey;
      ghost var before := tenantTables;
      CreateAndUpdateKeepNoEmptyList(before, id, request);
      scheduled := false;
      var i := 0;
      assert request[0..] == request;
      while i < |request|
        invariant 0 <= i <= |request|
        invariant id in tenantTables && tenantTables == before[id := tenantTables[id]]
        invariant ReplaceAll(tenantTables[id], request[i..]) == ReplaceAll(before[id], request)
        invariant forall r :: HasKey(tenantTables[id], r) <==> HasKey(before[id], r)
        invariant scheduled <==> exists j :: 0 <= j < i && HasKey(before[id], request[j])
      {
        ReplaceUnfolds(tenantTables[id], request, i);
        var found := RuleInTable(request[i], tenantTables[id]);
        if found {
          var index := IndexOfKey(tenantTables[id], request[i]);
          ReplacedKeepsKeys(tenantTables[id], index, request[i]);
          tenantTables := tenantTables[id := tenantTables[id][index := request[i]]];
          scheduled := true;
        }
        i := i + 1;
      }
      ReplaceEnds(tenantTables[id], request[i..]);
    }

    /** `raised` when a second version of an appended key is not found as a whole. */
    method UpdateNewTenant(id: string, request: seq<Rule>) returns (scheduled: bool, created: bool, raised: bool)
      requires Valid() && id !in tenantTables && request != []
      modifies this`tenantTables
      ensures Valid() && tenantTables == Updated(old(tenantTables), id, request)
      ensures raised <==> !AppendKeys([], request).done
      ensures created
      ensures !raised ==> (scheduled <==> |AppendKeys([], request).rules| < |request|)
    {
      hide AppendKeys;
      ghost var before := tenantTables;
      CreateAndUpdateKeepNoEmptyList(before, id, request);
      scheduled, created, raised := false, false, false;
      tenantTables := tenantTables[id := []];
      var i := 0;
      assert request[0..] == request;
      while i < |request|
        invariant 0 <= i <= |request|
        invariant id in tenantTables && tenantTables == before[id := tenantTables[id]]
        invariant AppendKeys(tenantTables[id], request[i..]) == AppendKeys([], request)
        invariant created <==> i > 0
        invariant |tenantTables[id]| <= i && (scheduled <==> |tenantTables[id]| < i)
      {
        AppendUnfolds(tenantTables[id], request, i);
        var found := RuleInTable(request[i], tenantTables[id]);
        if !found {
          tenantTables := tenantTables[id := tenantTables[id] + [request[i]]];
          created := true;
        } else if request[i] in tenantTables[id] {
          var index := IndexOfRule(tenantTables[id], request[i]);
          assert tenantTables[id][index := request[i]] == tenantTables[id];
          tenantTables := tenantTables[id := tenantTables[id][index := request[i]]];
          scheduled := true;
        } else {
          raised := true;
          return;
        }
        i := i + 1;
      }
      AppendEnds(tenantTables[id], request[i..]);
    }

    /** 200 exactly if an applied rule was updated and the call to the switch succeeds, 404 exactly
        if none was and nothing raised. A new tenant's rules are only created, which counts
        as 404; a key that comes twice is updated too or not found, and raises either way. */
    method UpdateRules(tenantId: nat, name: string, request: seq<Rule>, tifRaises: bool) returns (status: nat)
      requires Valid()
      modifies this`tenantTables
      ensures Valid() && tenantTables == Updated(old(tenantTables), Build(tenantId, name), request)
      ensures status == OK || status == NOT_FOUND || status == ERROR
      ensures var id := Build(tenantId, name);
              status == OK <==> id in old(tenantTables) && AnyKnown(old(tenantTables)[id], request) && !tifRaises
      ensures var id := Build(tenantId, name);
              status == NOT_FOUND <==>
                if id in old(tenantTables) then !AnyKnown(old(tenantTables)[id], request) else UniqueKeys(request)
    {
      hide Build, AppendKeys, ReplaceAll, HasKey, UniqueKeys;
      var id := Build(tenantId, name);
      NewKeysIff(request);
      var scheduled, created, raised := false, false, false;
      if request != [] {
        if id in tenantTables {
          scheduled := UpdateKnownTenant(id, request);
        } else {
          scheduled, created, raised := UpdateNewTenant(id, request);
        }
      }
      // Rules only created are not sent; created and updated ones together end in a missing key.
      status := if raised then ERROR
                else if !scheduled then NOT_FOUND
                else if tifRaises || created then ERROR
                else OK;
    }

    method DeleteRules(tenantId: nat, name: string, request: seq<Rule>, tifRaises: bool) returns (status: nat)
      requires Valid()
      modifies this`tenantTables
      ensures Valid() && tenantTables == Deleted(old(tenantTables), Build(tenantId, name), request).tables
      ensures status == if request == [] then NOT_FOUND
                        else if tifRaises || !Deleted(old(tenantTables), Build(tenantId, name), request).done then ERROR
                        else OK
    {
      hide Build, Without, Deleted, NoEmptyList;
      var id := Build(tenantId, name);
      ghost var before := tenantTables;
      DeleteKeepsNoEmptyList(before, id, request);
      var i := 0;
      assert request[0..] == request;
      while i < |request|
        invariant 0 <= i <= |request|
        invariant Deleted(tenantTables, id, request[i..]) == Deleted(before, id, request)
      {
        DeleteUnfolds(tenantTables, id, request, i);
        if id !in tenantTables || request[i] !in tenantTables[id] {
          return ERROR;
        }
        var rest := Without(tenantTables[id], request[i]);
        assert tenantTables[id := rest] - {id} == tenantTables - {id};
        tenantTables := tenantTables[id := rest];
        if rest == [] {
          tenantTables := tenantTables - {id};
        }
        i := i + 1;
      }
      DeleteEnds(tenantTables, id, request[i..]);
      if request == [] {
        return NOT_FOUND;
      }
      return if tifRaises then ERROR else OK;
    }

    /** 404 exactly for a tenant without rules; 500 while a provider table is missing. */
    method GetRules(tenantId: nat, name: string) returns (status: nat, rules: seq<Rule>)
      requires Valid()
      ensures status == NOT_FOUND <==> RulesOf(tenantTables, Build(tenantId, name)) == []
      ensures status == OK <==> RulesOf(tenantTables, Build(tenantId, name)) != [] && providersInitialised
      ensures status == OK || status == NOT_FOUND ==> rules == RulesOf(tenantTables, Build(tenantId, name))
      ensures status == OK || status == NOT_FOUND || status == ERROR
    {
      var id := Build(tenantId, name);
      if id !in tenantTables {
        return NOT_FOUND, [];
      }
      if !providersInitialised {
        return ERROR, [];
      }
      return OK, tenantTables[id];
    }

    /** Every tenant's entries are taken from the switch first; one failing call keeps
        all of them. */
    method Cleanup(tifRaises: bool) returns (status: nat)
      requires Valid()
      modifies this`tenantTables
      ensures Valid()
      ensures tenantTables == if tifRaises && old(tenantTables) != map[] then old(tenantTables) else map[]
      ensures status == if tifRaises && old(tenantTables) != map[] then ERROR else OK
    {
      if tenantTables != map[] && tifRaises {
        return ERROR;
      }
      tenantTables := map[];
      return OK;
    }
  }

  lemma ReplacedKeepsKeys(rules: seq<Rule>, i: nat, r: Rule)
    requires i < |rules| && SameKey(rules[i], r)
    ensures forall x :: HasKey(rules[i := r], x) <==> HasKey(rules, x)
  {
    forall x
      ensures HasKey(rules[i := r], x) <==> HasKey(rules, x)
    {
      if HasKey(rules, x) {
        var j :| 0 <= j < |rules| && SameKey(rules[j], x);
        assert SameKey(rules[i := r][j], x);
      }
    }
  }

  lemma {:induction false} AppendKeysLength(rules: seq<Rule>, request: seq<Rule>)
    ensures |AppendKeys(rules, request).rules| <= |rules| + |request|
    decreases request
  {
    if request != [] {
      AppendKeysLength(if HasKey(rules, request[0]) then rules else rules + [request[0]], request[1..]);
    }
  }

  ghost predicate NewKeys(rules: seq<Rule>, request: seq<Rule>) {
    forall i :: 0 <= i < |request| ==> !HasKey(rules, request[i])
  }

  lemma AllNewUnfolds(rules: seq<Rule>, request: seq<Rule>)
    requires request != []
    ensures UniqueKeys(request) && NewKeys(rules, request) <==>
              !HasKey(rules, request[0]) && UniqueKeys(request[1..]) && NewKeys(rules + [request[0]], request[1..])
  {
    var grown := rules + [request[0]];
    forall r
      ensures HasKey(grown, r) <==> HasKey(rules, r) || SameKey(request[0], r)
    {
      if HasKey(rules, r) {
        var j :| 0 <= j < |rules| && SameKey(rules[j], r);
        assert SameKey(grown[j], r);
      }
      assert grown[|rules|] == request[0];
    }
    assert forall i :: 0 < i < |request| ==> request[i] == request[1..][i - 1];
    hide HasKey, SameKey;
  }

  /** Every rule of the request is appended exactly if its keys are new and different. */
  lemma {:induction false} AllAppendedIff(rules: seq<Rule>, request: seq<Rule>)
    ensures var p := AppendKeys(rules, request);
            p.done && |p.rules| == |rules| + |request| <==> UniqueKeys(request) && NewKeys(rules, request)
    decreases request
  {
    if request != [] {
      AllNewUnfolds(rules, request);
      hide UniqueKeys, NewKeys, HasKey;
      if !HasKey(rules, request[0]) {
        AllAppendedIff(rules + [request[0]], request[1..]);
      } else {
        AppendKeysLength(rules, request[1..]);
      }
    }
  }

  lemma NewKeysIff(request: seq<Rule>)
    ensures var p := AppendKeys([], request);
            && |p.rules| <= |request|
            && (p.done && |p.rules| == |request| <==> UniqueKeys(request))
            && (request == [] ==> UniqueKeys(request))
  {
    AppendKeysLength([], request);
    AllAppendedIff([], request);
    assert NewKeys([], request);
  }

  // -------------------------------------------------------------------------
  // One step of each loop
  // -------------------------------------------------------------------------

  lemma InsertUnfolds(rules: seq<Rule>, request: seq<Rule>, i: nat)
    requires i < |request|
    ensures InsertAll(rules, request[i..]) == InsertAll(if request[i] in rules then rules else rules + [request[i]], request[i + 1..])
  {
    assert request[i..][1..] == request[i + 1..];
  }

  lemma InsertEnds(rules: seq<Rule>, request: seq<Rule>)
    requires |request| == 0
    ensures InsertAll(rules, request) == rules
  {
  }

  lemma ReplaceUnfolds(rules: seq<Rule>, request: seq<Rule>, i: nat)
    requires i < |request|
    ensures ReplaceAll(rules, request[i..])
            == ReplaceAll(if HasKey(rules, request[i]) then rules[IndexOfKey(rules, request[i]) := request[i]] else rules, request[i + 1..])
  {
    assert request[i..][1..] == request[i + 1..];
  }

  lemma ReplaceEnds(rules: seq<Rule>, request: seq<Rule>)
    requires |request| == 0
    ensures ReplaceAll(rules, request) == rules
  {
  }

  lemma AppendUnfolds(rules: seq<Rule>, request: seq<Rule>, i: nat)
    requires i < |request|
    ensures !HasKey(rules, request[i]) ==> AppendKeys(rules, request[i..]) == AppendKeys(rules + [request[i]], request[i + 1..])
    ensures HasKey(rules, request[i]) && request[i] in rules ==> AppendKeys(rules, request[i..]) == AppendKeys(rules, request[i + 1..])
    ensures Fails(rules, request[i]) ==> AppendKeys(rules, request[i..]) == Progress(rules, false)
  {
    assert request[i..][1..] == request[i + 1..];
  }

  lemma AppendEnds(rules: seq<Rule>, request: seq<Rule>)
    requires |request| == 0
    ensures AppendKeys(rules, request) == Progress(rules, true)
  {
  }

  lemma DeleteUnfolds(t: Tables, id: string, request: seq<Rule>, i: nat)
    requires i < |request|
    ensures id !in t || request[i] !in t[id] ==> Deleted(t, id, request[i..]) == Removal(t, false)
    ensures id in t && request[i] in t[id] ==>
              var rest := Without(t[id], request[i]);
              Deleted(t, id, request[i..]) == Deleted(if rest == [] then t - {id} else t[id := rest], id, request[i + 1..])
  {
    assert request[i..][1..] == request[i + 1..];
  }

  lemma DeleteEnds(t: Tables, id: string, request: seq<Rule>)
    requires |request| == 0
    ensures Deleted(t, id, request) == Removal(t, true)
  {
  }
}
