/** The generator as it runs: the ordered dictionary of registered functions and the
    loops that grow the controller text. */
module OtfGenerator {
  import opened Decimals
  import opened OtfProgram
  import opened OtfDispatch

  // -------------------------------------------------------------------------
  // Text with and without what follows
  // -------------------------------------------------------------------------

  lemma Grows(a: string, b: string, c: string)
    ensures a + (b + c) == (a + b) + c
  {
  }

  lemma TermGrows(vni: nat, rest: string)
    ensures TermText(vni, rest) == TermText(vni, "") + rest
  {
    var n := Numeral(vni);
    assert n + "" == n;
    assert TermText(vni, "") == VNI_FIELD + " == " + n;
    assert TermText(vni, rest) == VNI_FIELD + " == " + n + rest;
  }

  /** Every VNI's comparison followed by the separator. */
  function Separated(vnis: seq<nat>): string {
    if vnis == [] then "" else TermText(vnis[0], "") + " || " + Separated(vnis[1..])
  }

  lemma {:induction false} SeparatedIsTerms(vnis: seq<nat>, rest: string)
    ensures vnis != [] ==> Separated(vnis) + rest == TermsText(vnis, " || " + rest)
    decreases vnis
  {
    hide TermText;
    if vnis != [] {
      var more := Separated(vnis[1..]) + rest;
      SeparatedIsTerms(vnis[1..], rest);
      assert Separated(vnis) + rest == TermText(vnis[0], "") + (" || " + more);
      TermGrows(vnis[0], " || " + more);
      if |vnis| == 1 {
        assert more == rest;
      } else {
        assert " || " + more == " " + ("||" + (" " + more));
      }
    }
  }

  lemma {:induction false} TermsGrow(vnis: seq<nat>, rest: string)
    ensures TermsText(vnis, rest) == TermsText(vnis, "") + rest
    decreases vnis
  {
    hide TermText;
    if |vnis| == 1 {
      TermGrows(vnis[0], rest);
    } else if |vnis| > 1 {
      TermsGrow(vnis[1..], rest);
      var t := TermsText(vnis[1..], "");
      var sep := " " + ("||" + (" " + t));
      TermGrows(vnis[0], sep + rest);
      TermGrows(vnis[0], sep);
      assert " " + ("||" + (" " + (t + rest))) == sep + rest;
      Grows(TermText(vnis[0], ""), sep, rest);
    } else {
      assert "" + rest == rest;
    }
  }

  lemma ConditionGrows(vnis: seq<nat>, rest: string)
    ensures ConditionText(vnis, rest) == ConditionText(vnis, "") + rest
  {
    hide TermsText;
    assert ")" + "" == ")";
    TermsGrow(vnis, ")" + rest);
    TermsGrow(vnis, ")");
    var t := TermsText(vnis, "");
    assert "(" + (t + (")" + rest)) == ("(" + (t + ")")) + rest;
  }

  lemma Shift(a: string, x: string, y: string, rest: string)
    requires y == x + rest
    ensures a + y == (a + x) + rest
  {
  }

  lemma AssignmentGrows(indent: string, funcId: nat, rest: string)
    ensures AssignmentText(indent, funcId, rest) == AssignmentText(indent, funcId, "") + rest
  {
    hide Numeral;
    var gap := " \n" + indent + " ";
    assert ";" + "" == ";";
    Shift(Numeral(funcId), ";", ";" + rest, rest);
    Shift(" ", Numeral(funcId) + ";", Numeral(funcId) + (";" + rest), rest);
    var d, d' := " " + (Numeral(funcId) + ";"), " " + (Numeral(funcId) + (";" + rest));
    Shift("=", d, d', rest);
    Shift(" ", "=" + d, "=" + d', rest);
    var b, b' := " " + ("=" + d), " " + ("=" + d');
    Shift(FUNC_ID_FIELD, b, b', rest);
    Shift(gap, FUNC_ID_FIELD + b, FUNC_ID_FIELD + b', rest);
    var a, a' := gap + (FUNC_ID_FIELD + b), gap + (FUNC_ID_FIELD + b');
    Shift("{", a, a', rest);
    Shift(" ", "{" + a, "{" + a', rest);
  }

  lemma ApplicationGrows(indent: string, ingress: string, rest: string)
    ensures ApplicationText(indent, ingress, rest) == ApplicationText(indent, ingress, "") + rest
  {
    var gap := " \n\t\t\t\t ";
    assert "}" + "" == "}";
    Shift(gap, "}", "}" + rest, rest);
    var e, e' := gap + "}", gap + ("}" + rest);
    Shift(";", e, e', rest);
    Shift(")", ";" + e, ";" + e', rest);
    var c, c' := ")" + (";" + e), ")" + (";" + e');
    Shift(APPLY_PARAMETERS, c, c', rest);
    Shift("(", APPLY_PARAMETERS + c, APPLY_PARAMETERS + c', rest);
    var a, a' := "(" + (APPLY_PARAMETERS + c), "(" + (APPLY_PARAMETERS + c');
    Shift(ingress + APPLY, a, a', rest);
    Shift(" \n" + indent + " ", (ingress + APPLY) + a, (ingress + APPLY) + a', rest);
  }

  lemma BranchGrows(lead: string, indent: string, o: Otf, rest: string)
    ensures BranchText(lead, indent, o, rest) == BranchText(lead, indent, o, "") + rest
  {
    hide ConditionText, AssignmentText, ApplicationText;
    var c, c' := ApplicationText(indent, o.mainIngress, ""), ApplicationText(indent, o.mainIngress, rest);
    ApplicationGrows(indent, o.mainIngress, rest);
    var b, b' := AssignmentText(indent, o.funcId, c), AssignmentText(indent, o.funcId, c');
    AssignmentGrows(indent, o.funcId, c);
    AssignmentGrows(indent, o.funcId, c');
    Grows(AssignmentText(indent, o.funcId, ""), c, rest);
    var a, a' := ConditionText(o.vnis, b), ConditionText(o.vnis, b');
    ConditionGrows(o.vnis, b);
    ConditionGrows(o.vnis, b');
    Grows(ConditionText(o.vnis, ""), b, rest);
    assert b' == b + rest && a' == a + rest;
    Shift(" ", a, a', rest);
    Shift("if", " " + a, " " + a', rest);
    Shift(lead, "if" + (" " + a), "if" + (" " + a'), rest);
  }

  // -------------------------------------------------------------------------
  // The generator object
  // -------------------------------------------------------------------------

  class Generator {
    /** otfs_by_code: a dictionary keeps its insertion order. */
    var otfs: Table

    ghost predicate Valid()
      reads this
    {
      UniqueKeys(otfs)
    }

    constructor ()
      ensures Valid() && otfs == []
    {
      otfs := [];
    }

    /** is_otf_in_generator. */
    method IsOtfInGenerator(key: string) returns (found: bool)
      ensures found <==> HasKey(otfs, key)
    {
      var i := 0;
      while i < |otfs|
        invariant 0 <= i <= |otfs|
        invariant forall j :: 0 <= j < i ==> otfs[j].key != key
      {
        if otfs[i].key == key {
          return true;
        }
        i := i + 1;
      }
      return false;
    }

    /** False stands for the KeyError. */
    method AddOtfByCode(key: string, otf: Otf) returns (ok: bool)
      requires Valid()
      modifies this
      ensures Valid() && otfs == After(old(otfs), Add(key, otf))
      ensures ok <==> !HasKey(old(otfs), key)
    {
      AfterKeepsKeysUnique(otfs, Add(key, otf));
      var found := IsOtfInGenerator(key);
      if found {
        return false;
      }
      otfs := otfs + [Entry(key, otf)];
      return true;
    }

    method UpdateOtfByCode(key: string, otf: Otf) returns (ok: bool)
      requires Valid()
      modifies this
      ensures Valid() && otfs == After(old(otfs), Update(key, otf))
      ensures ok <==> HasKey(old(otfs), key)
    {
      AfterKeepsKeysUnique(otfs, Update(key, otf));
      var found := IsOtfInGenerator(key);
      if !found {
        return false;
      }
      var i := IndexOf(otfs, key);
      var o := otfs[i].otf;
      o := o.(vnis := otf.vnis);
      o := o.(funcId := otf.funcId);
      o := o.(mainIngress := otf.mainIngress);
      o := o.(p4Code := otf.p4Code);
      otfs := otfs[i := Entry(key, o)];
      return true;
    }

    /** False stands for the KeyError, which leaves the dictionary as it is, and for the
        error of a file that cannot be removed, raised after the key is gone. */
    method DeleteOtf(key: string, fileOk: bool) returns (ok: bool)
      requires Valid()
      modifies this
      ensures Valid() && otfs == After(old(otfs), Delete(key))
      ensures ok <==> HasKey(old(otfs), key) && fileOk
    {
      AfterKeepsKeysUnique(otfs, Delete(key));
      var found := IsOtfInGenerator(key);
      if !found {
        return false;
      }
      var i := IndexOf(otfs, key);
      otfs := otfs[..i] + otfs[i + 1..];
      return fileOk;
    }

    /** _generate_vnis_switch_condition_clause: grow, cut the last four characters,
        close. */
    method VnisCondition(vnis: seq<nat>) returns (s: string)
      ensures s == ConditionText(vnis, "")
    {
      hide TermText, TermsText;
      s := "(";
      var i := 0;
      assert s + Separated(vnis[i..]) == "(" + Separated(vnis);
      while i < |vnis|
        invariant 0 <= i <= |vnis|
        invariant s + Separated(vnis[i..]) == "(" + Separated(vnis)
      {
        assert vnis[i..][1..] == vnis[i + 1..];
        Grows(s, TermText(vnis[i], "") + " || ", Separated(vnis[i + 1..]));
        s := s + (TermText(vnis[i], "") + " || ");
        i := i + 1;
      }
      assert s == "(" + Separated(vnis);
      if vnis != [] {
        SeparatedIsTerms(vnis, "");
        assert Separated(vnis) + "" == Separated(vnis) && " || " + "" == " || ";
        TermsGrow(vnis, " || ");
        TermsGrow(vnis, ")" + "");
        var t := TermsText(vnis, "");
        assert s == ("(" + t) + " || ";
        assert s[..|s| - 4] == "(" + t;
        assert ("(" + t) + ")" == "(" + (t + (")" + ""));
      }
      s := if |s| >= 4 then s[..|s| - 4] else "";
      s := s + ")";
    }

    /** One formatted branch. */
    method FormatBranch(lead: string, indent: string, o: Otf, trail: string) returns (s: string)
      ensures s == BranchText(lead, indent, o, trail)
    {
      hide ConditionText, AssignmentText, ApplicationText;
      var condition := VnisCondition(o.vnis);
      var body := AssignmentText(indent, o.funcId, ApplicationText(indent, o.mainIngress, trail));
      ConditionGrows(o.vnis, body);
      s := lead + ("if" + (" " + (condition + body)));
    }

    /** _generate_otf_switch_clause. */
    method SwitchClause(table: seq<Otf>) returns (clause: string)
      ensures clause == ClauseText(table, "")
    {
      hide BranchText;
      clause := "";
      if |table| == 1 {
        clause := FormatBranch(" ", "\t\t\t\t", table[0], " \n" + "");
      } else {
        var i := 0;
        while i < |table|
          invariant 0 <= i <= |table|
          invariant i == 0 ==> clause == ""
          invariant i > 0 ==> clause + ElseText(table[i..], "") == ClauseText(table, "")
        {
          if i == 0 {
            clause := FormatBranch("\t ", DEEP, table[0], " ");
            BranchGrows("\t ", DEEP, table[0], " ");
            BranchGrows("\t ", DEEP, table[0], " " + ElseText(table[1..], ""));
            Grows(BranchText("\t ", DEEP, table[0], ""), " ", ElseText(table[1..], ""));
          } else {
            var branch := FormatBranch(" ", DEEP, table[i], " ");
            ElseUnfolds(table[i..]);
            assert table[i..][1..] == table[i + 1..];
            Grows(clause, " " + ("else" + branch), ElseText(table[i + 1..], ""));
            clause := clause + (" " + ("else" + branch));
          }
          i := i + 1;
        }
      }
    }

    /** _update_in_network_tenant_controller. */
    method Controller() returns (text: string)
      ensures text == ControllerText(Otfs(otfs))
    {
      hide ClauseText;
      var table := Otfs(otfs);
      var clause := SwitchClause(table);
      ClauseGrows(table, " \n\t\t\t " + ("}" + "\n"));
      text := "if" + (" " + ("(" + ("hdr.vxlan.isValid" + ("(" + (")" + (")" + (" " + ("{" + (" \n\t\t\t " +
              (clause + (" \n\t\t\t " + ("}" + "\n"))))))))))));
    }
  }

  lemma ElseUnfolds(table: seq<Otf>)
    requires table != []
    ensures ElseText(table, "") == (" " + ("else" + BranchText(" ", DEEP, table[0], " "))) + ElseText(table[1..], "")
  {
    hide BranchText;
    var more := ElseText(table[1..], "");
    BranchGrows(" ", DEEP, table[0], " ");
    BranchGrows(" ", DEEP, table[0], " " + more);
    var b := BranchText(" ", DEEP, table[0], "");
    Grows(b, " ", more);
    Shift("else", b + " ", b + (" " + more), more);
    Shift(" ", "else" + (b + " "), "else" + (b + (" " + more)), more);
  }

  lemma {:induction false} ElseGrows(table: seq<Otf>, rest: string)
    ensures ElseText(table, rest) == ElseText(table, "") + rest
    decreases table
  {
    hide BranchText;
    if table == [] {
      assert "" + rest == rest;
    } else {
      ElseGrows(table[1..], rest);
      var b, more := BranchText(" ", DEEP, table[0], ""), ElseText(table[1..], "");
      BranchGrows(" ", DEEP, table[0], " " + more);
      BranchGrows(" ", DEEP, table[0], " " + (more + rest));
      assert b + (" " + (more + rest)) == (b + (" " + more)) + rest;
      Shift("else", b + (" " + more), b + (" " + (more + rest)), rest);
      Shift(" ", "else" + (b + (" " + more)), "else" + (b + (" " + (more + rest))), rest);
    }
  }

  lemma ClauseGrows(table: seq<Otf>, rest: string)
    ensures ClauseText(table, rest) == ClauseText(table, "") + rest
  {
    hide BranchText, ElseText;
    if table == [] {
      assert "" + rest == rest;
    } else if |table| == 1 {
      assert " \n" + "" == " \n";
      BranchGrows(" ", "\t\t\t\t", table[0], " \n" + rest);
      BranchGrows(" ", "\t\t\t\t", table[0], " \n");
      Grows(BranchText(" ", "\t\t\t\t", table[0], ""), " \n", rest);
    } else {
      var more := ElseText(table[1..], "");
      ElseGrows(table[1..], rest);
      BranchGrows("\t ", DEEP, table[0], " " + (more + rest));
      BranchGrows("\t ", DEEP, table[0], " " + more);
      var b := BranchText("\t ", DEEP, table[0], "");
      assert b + (" " + (more + rest)) == (b + (" " + more)) + rest;
    }
  }
}
