/** Tenant configuration ids "t<number>-<function name>": building and splitting. */
module TenantIds {
  import opened Decimals
  import opened Options

  /** str.split("-"). */
  function SplitDashes(s: string): (parts: seq<string>)
    ensures parts != []
  {
    if s == "" then [""]
    else
      var rest := SplitDashes(s[1..]);
      if s[0] == '-' then [""] + rest else [[s[0]] + rest[0]] + rest[1..]
  }

  /** "-".join(parts). */
  function JoinDashes(parts: seq<string>): string {
    if parts == [] then "" else if |parts| == 1 then parts[0] else parts[0] + "-" + JoinDashes(parts[1..])
  }

  predicate DashFree(s: string) {
    '-' !in s
  }

  /** _build_tenant_cnf_id, the same in both updaters. */
  function Build(tenantId: nat, name: string): string {
    "t" + Numeral(tenantId) + "-" + name
  }

  /** RulesUpdater._split_tenant_cnf_id: the number stays text. */
  function Split(id: string): (string, string) {
    var parts := SplitDashes(id);
    (if parts[0] == "" then "" else parts[0][1..], JoinDashes(parts[1..]))
  }

  /** INUpdater.split_tenant_cnf_id: None where Python raises, that is without a dash
      or without a number. */
  function SplitInNetwork(id: string): Option<(nat, string)> {
    var parts := SplitDashes(id);
    if |parts| < 2 then None else
    match ReadNumeral(if parts[0] == "" then "" else parts[0][1..])
    case None => None
    case Some(n) => Some((n, parts[1]))
  }

  lemma {:induction false} JoinUndoesSplit(s: string)
    ensures JoinDashes(SplitDashes(s)) == s
  {
    if s != "" {
      JoinUndoesSplit(s[1..]);
      var rest := SplitDashes(s[1..]);
      if s[0] == '-' {
        assert ([""] + rest)[1..] == rest;
        assert s == "-" + s[1..];
      } else {
        var parts := [[s[0]] + rest[0]] + rest[1..];
        assert parts[1..] == rest[1..];
        assert s == [s[0]] + s[1..];
      }
    }
  }

  lemma {:induction false} SplitAtFirstDash(a: string, b: string)
    requires DashFree(a)
    ensures SplitDashes(a + "-" + b) == [a] + SplitDashes(b)
  {
    var s := a + "-" + b;
    if a == "" {
      assert s[1..] == b;
    } else {
      assert s[1..] == a[1..] + "-" + b;
      SplitAtFirstDash(a[1..], b);
      assert [a[0]] + a[1..] == a;
    }
  }

  lemma {:induction false} FirstPart(s: string)
    ensures DashFree(SplitDashes(s)[0])
    ensures SplitDashes(s)[0] == s <==> DashFree(s)
  {
    if s != "" {
      FirstPart(s[1..]);
      assert s == [s[0]] + s[1..];
    }
  }

  lemma NumeralHasNoDash(n: nat)
    ensures DashFree("t" + Numeral(n))
  {
  }

  /** The parts of a built id. */
  lemma BuiltParts(tenantId: nat, name: string)
    ensures SplitDashes(Build(tenantId, name)) == ["t" + Numeral(tenantId)] + SplitDashes(name)
  {
    NumeralHasNoDash(tenantId);
    SplitAtFirstDash("t" + Numeral(tenantId), name);
  }

  /** Splitting a built id gives back the number and the name, dashes included. */
  lemma SplitUndoesBuild(tenantId: nat, name: string)
    ensures Split(Build(tenantId, name)) == (Numeral(tenantId), name)
    ensures ReadNumeral(Split(Build(tenantId, name)).0) == Some(tenantId)
  {
    BuiltParts(tenantId, name);
    JoinUndoesSplit(name);
    NumeralReads(tenantId);
    assert ("t" + Numeral(tenantId))[1..] == Numeral(tenantId);
    assert SplitDashes(Build(tenantId, name))[1..] == SplitDashes(name);
  }

  lemma BuildIsInjective(m: nat, a: string, n: nat, b: string)
    requires Build(m, a) == Build(n, b)
    ensures m == n && a == b
  {
    SplitUndoesBuild(m, a);
    SplitUndoesBuild(n, b);
  }

  /** The in-network updater's own split always finds the number, but gives back the
      name exactly if it contains no dash. */
  lemma InNetworkSplitIff(tenantId: nat, name: string)
    ensures var r := SplitInNetwork(Build(tenantId, name));
            && r == Some((tenantId, SplitDashes(name)[0]))
            && (r == Some((tenantId, name)) <==> DashFree(name))
  {
    BuiltParts(tenantId, name);
    NumeralReads(tenantId);
    FirstPart(name);
    assert ("t" + Numeral(tenantId))[1..] == Numeral(tenantId);
  }
}
