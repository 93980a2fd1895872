/** _synchronize_rules of the in-network updater as it runs against the rules
    updater. */
module RuleSynchronizer {
  import opened TenantIds
  import opened RuleTables
  import opened RuleSync
  import opened RulesUpdater

  method CompleteRuleInRules(r: Rule, rules: seq<Rule>) returns (found: bool)
    ensures found <==> r in rules
  {
    for i := 0 to |rules|
      invariant r !in rules[..i]
    {
      if r.table == rules[i].table && r.matches == rules[i].matches
         && r.actionName == rules[i].actionName && r.actionParams == rules[i].actionParams {
        return true;
      }
      assert rules[..i + 1] == rules[..i] + [rules[i]];
    }
    assert rules[..|rules|] == rules;
    return false;
  }

  method RuleInRules(r: Rule, rules: seq<Rule>) returns (found: bool)
    ensures found <==> HasKey(rules, r)
  {
    for i := 0 to |rules|
      invariant forall j :: 0 <= j < i ==> !SameKey(rules[j], r)
    {
      if SameKey(r, rules[i]) {
        return true;
      }
    }
    return false;
  }

  method EqualCompleteRules(desired: seq<Rule>, applied: seq<Rule>) returns (equal: bool)
    ensures equal <==> AllApplied(desired, applied)
  {
    for i := 0 to |desired|
      invariant forall j :: 0 <= j < i ==> desired[j] in applied
    {
      var found := CompleteRuleInRules(desired[i], applied);
      if !found {
        return false;
      }
    }
    return true;
  }

  lemma FilterUnfolds(rules: seq<Rule>, keep: Rule -> bool, i: nat)
    requires i < |rules|
    ensures Filter(rules[i..], keep) == (if keep(rules[i]) then [rules[i]] else []) + Filter(rules[i + 1..], keep)
  {
    assert rules[i..][1..] == rules[i + 1..];
  }

  /** Which rules to update, create and delete. */
  method Plan(desired: seq<Rule>, applied: seq<Rule>) returns (update: seq<Rule>, create: seq<Rule>, delete: seq<Rule>)
    ensures update == ToUpdate(desired, applied)
    ensures create == ToCreate(desired, applied)
    ensures delete == ToDelete(desired, applied)
  {
    hide Filter;
    update, create, delete := [], [], [];
    ghost var known, unknown := Known(applied), Unknown(applied);
    assert desired[0..] == desired && applied[0..] == applied;
    assert [] + Filter(desired, known) == Filter(desired, known);
    assert [] + Filter(desired, unknown) == Filter(desired, unknown);
    for i := 0 to |desired|
      invariant update + Filter(desired[i..], known) == Filter(desired, known)
      invariant create + Filter(desired[i..], unknown) == Filter(desired, unknown)
    {
      FilterUnfolds(desired, known, i);
      FilterUnfolds(desired, unknown, i);
      var found := RuleInRules(desired[i], applied);
      if !found {
        create := create + [desired[i]];
      } else {
        update := update + [desired[i]];
      }
    }
    FilterEnds(desired[|desired|..], known);
    FilterEnds(desired[|desired|..], unknown);
    assert update == Filter(desired, known) == ToUpdate(desired, applied);
    ghost var added := create;
    assert added == Filter(desired, unknown);
    ghost var stale, kept := Unknown(desired), Unchanged(desired, applied);
    assert [] + Filter(applied, stale) == Filter(applied, stale);
    for i := 0 to |applied|
      invariant delete + Filter(applied[i..], stale) == Filter(applied, stale)
      invariant create + Filter(applied[i..], kept) == added + Filter(applied, kept)
    {
      FilterUnfolds(applied, stale, i);
      FilterUnfolds(applied, kept, i);
      var found := RuleInRules(applied[i], desired);
      if !found {
        delete := delete + [applied[i]];
      } else if applied[i] in update {
        create := create + [applied[i]];
      }
    }
    FilterEnds(applied[|applied|..], stale);
    FilterEnds(applied[|applied|..], kept);
  }

  lemma FilterEnds(rules: seq<Rule>, keep: Rule -> bool)
    requires |rules| == 0
    ensures Filter(rules, keep) == []
  {
  }

  /** Remote calls to the switch may fail, which changes no table. The id is split
      here and built again by the rules updater, so what is synchronised is the
      tenant function named by the part of the name before its first dash. */
  method SynchronizeRules(updater: Updater, tenantCnfId: string, desired: seq<Rule>, tifRaises: bool)
    requires updater.Valid()
    modifies updater`tenantTables
    ensures updater.Valid()
    ensures var s := SplitInNetwork(tenantCnfId);
            updater.tenantTables ==
              if s.None? then old(updater.tenantTables)
              else
                var id := Build(s.value.0, s.value.1);
                if !updater.providersInitialised && id in old(updater.tenantTables) then old(updater.tenantTables)
                else Synchronized(old(updater.tenantTables), id, desired)
  {
    hide Build, SplitInNetwork, Filter, ToUpdate, ToCreate, ToDelete, AllApplied, Deleted, Created, Updated;
    var s := SplitInNetwork(tenantCnfId);
    if s.None? {
      return;
    }
    var tenantId, name := s.value.0, s.value.1;
    ghost var id, before := Build(tenantId, name), updater.tenantTables;
    var status, applied := updater.GetRules(tenantId, name);
    EmptyRequests(before, id);
    var update, create, delete := [], [], [];
    if status == OK {
      assert id in before && applied == before[id];
      var equal := EqualCompleteRules(desired, applied);
      if equal {
        return;
      }
      update, create, delete := Plan(desired, applied);
    } else if status == NOT_FOUND {
      assert id !in before;
      create := desired;
    }
    if |update| > 0 {
      status := updater.UpdateRules(tenantId, name, update, tifRaises);
    }
    EmptyRequests(updater.tenantTables, id);
    if |create| > 0 {
      status := updater.CreateRules(tenantId, name, create, tifRaises);
    }
    EmptyRequests(updater.tenantTables, id);
    if |delete| > 0 {
      status := updater.DeleteRules(tenantId, name, delete, tifRaises);
    }
  }

  lemma EmptyRequests(t: Tables, id: string)
    ensures Updated(t, id, []) == t && Created(t, id, []) == t && Deleted(t, id, []).tables == t
  {
  }

  /** Rules of a dash-free tenant function are synchronised under its own id; with a
      dash in the name another entry is, and its own keeps what it had. */
  lemma SynchronizedIdIff(tenantId: nat, name: string)
    ensures var s := SplitInNetwork(Build(tenantId, name));
            s.Some? && (Build(s.value.0, s.value.1) == Build(tenantId, name) <==> DashFree(name))
  {
    hide Build, SplitInNetwork, SplitDashes;
    InNetworkSplitIff(tenantId, name);
    var short := SplitInNetwork(Build(tenantId, name)).value.1;
    if Build(tenantId, short) == Build(tenantId, name) {
      BuildIsInjective(tenantId, short, tenantId, name);
    }
  }
}
