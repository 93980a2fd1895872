/** The generated controller text parses back to the table it was generated from,
    exactly when every function has a VNI. */
module OtfParsing {
  import opened Decimals
  import opened Options
  import opened OtfProgram

  predicate AllSpace(s: string) {
    forall i :: 0 <= i < |s| ==> IsSpace(s[i])
  }

  predicate AllWord(s: string) {
    forall i :: 0 <= i < |s| ==> IsWordChar(s[i])
  }

  /** No word runs on into `s`. */
  predicate Breaks(s: string) {
    s != "" ==> !IsWordChar(s[0])
  }

  // -------------------------------------------------------------------------
  // Scanning
  // -------------------------------------------------------------------------

  lemma {:induction false} SpaceSkips(sp: string, s: string)
    requires AllSpace(sp)
    ensures SkipSpace(sp + s) == SkipSpace(s)
  {
    if sp == "" {
      assert sp + s == s;
    } else {
      assert (sp + s)[1..] == sp[1..] + s;
      SpaceSkips(sp[1..], s);
    }
  }

  lemma {:induction false} WordRuns(w: string, s: string)
    requires AllWord(w) && Breaks(s)
    ensures WordLength(w + s) == |w|
  {
    if w == "" {
      assert w + s == s;
    } else {
      assert (w + s)[1..] == w[1..] + s;
      WordRuns(w[1..], s);
    }
  }

  lemma WordStep(sp: string, w: string, rest: string)
    requires AllSpace(sp) && AllWord(w) && w != "" && Breaks(rest)
    ensures Word(sp + (w + rest)) == Some((w, rest))
  {
    var s := w + rest;
    SpaceSkips(sp, s);
    assert s[0] == w[0] && !IsSpace(w[0]);
    WordRuns(w, rest);
    assert s[..|w|] == w && s[|w|..] == rest;
  }

  lemma SymbolStep(sp: string, symbol: string, rest: string)
    requires AllSpace(sp) && symbol != "" && !IsSpace(symbol[0])
    ensures Symbol(sp + (symbol + rest), symbol) == Some(rest)
  {
    var s := symbol + rest;
    SpaceSkips(sp, s);
    assert s[0] == symbol[0];
    assert s[..|symbol|] == symbol && s[|symbol|..] == rest;
  }

  /** A text that starts differently. */
  lemma SymbolMisses(sp: string, symbol: string, rest: string)
    requires AllSpace(sp) && rest != "" && !IsSpace(rest[0])
    requires symbol != "" && symbol[0] != rest[0]
    ensures Symbol(sp + rest, symbol) == None
  {
    SpaceSkips(sp, rest);
  }

  lemma NumeralIsWord(n: nat)
    ensures AllWord(Numeral(n)) && Numeral(n) != ""
  {
  }

  lemma NumberStep(sp: string, n: nat, rest: string)
    requires AllSpace(sp) && Breaks(rest)
    ensures Number(sp + (Numeral(n) + rest)) == Some((n, rest))
  {
    NumeralIsWord(n);
    NumeralReads(n);
    WordStep(sp, Numeral(n), rest);
  }

  lemma NoSpace(s: string)
    ensures "" + s == s
  {
  }

  // -------------------------------------------------------------------------
  // Conditions
  // -------------------------------------------------------------------------

  lemma TermParses(sp: string, vni: nat, rest: string)
    requires AllSpace(sp) && Breaks(rest)
    ensures Term(sp + TermText(vni, rest)) == Some((vni, rest))
  {
    hide Word, Symbol, Number, Numeral;
    var c := " " + (Numeral(vni) + rest);
    var b := " " + ("==" + c);
    WordStep(sp, VNI_FIELD, b);
    SymbolStep(" ", "==", c);
    NumberStep(" ", vni, rest);
  }

  lemma {:induction false} TermsParse(sp: string, vnis: seq<nat>, rest: string)
    requires AllSpace(sp) && vnis != [] && rest != "" && rest[0] == ')'
    ensures Terms(sp + TermsText(vnis, rest)) == Some((vnis, rest))
    decreases vnis
  {
    hide Term, Symbol, TermText;
    if |vnis| == 1 {
      TermParses(sp, vnis[0], rest);
      NoSpace(rest);
      SymbolMisses("", "||", rest);
      assert vnis == [vnis[0]];
    } else {
      var more := " " + TermsText(vnis[1..], rest);
      TermParses(sp, vnis[0], " " + ("||" + more));
      SymbolStep(" ", "||", more);
      TermsParse(" ", vnis[1..], rest);
      assert vnis == [vnis[0]] + vnis[1..];
    }
  }

  lemma ConditionParses(sp: string, vnis: seq<nat>, rest: string)
    requires AllSpace(sp)
    ensures vnis != [] ==> Condition(sp + ConditionText(vnis, rest)) == Some((vnis, rest))
    ensures vnis == [] ==> Condition(sp + ConditionText(vnis, rest)) == None
  {
    hide Symbol, Terms, TermsText;
    if vnis == [] {
      SymbolMisses(sp, "(", ")" + rest);
    } else {
      var terms := TermsText(vnis, ")" + rest);
      SymbolStep(sp, "(", terms);
      NoSpace(terms);
      TermsParse("", vnis, ")" + rest);
      NoSpace(")" + rest);
      SymbolStep("", ")", rest);
    }
  }

  // -------------------------------------------------------------------------
  // Branches
  // -------------------------------------------------------------------------

  lemma AssignmentParses(indent: string, funcId: nat, rest: string)
    requires AllSpace(indent)
    ensures Assignment(AssignmentText(indent, funcId, rest)) == Some((funcId, rest))
  {
    hide Symbol, Number, Word, Numeral;
    var e := ";" + rest;
    var d := " " + (Numeral(funcId) + e);
    var c := " " + ("=" + d);
    var b := (" \n" + indent + " ") + (FUNC_ID_FIELD + c);
    SymbolStep(" ", "{", b);
    WordStep(" \n" + indent + " ", FUNC_ID_FIELD, c);
    SymbolStep(" ", "=", d);
    NumberStep(" ", funcId, e);
    NoSpace(e);
    SymbolStep("", ";", rest);
  }

  lemma ApplicationParses(indent: string, ingress: string, rest: string)
    requires AllSpace(indent) && AllWord(ingress)
    ensures Application(ApplicationText(indent, ingress, rest)) == Some((ingress, rest))
  {
    hide Symbol, Word;
    var e := " \n\t\t\t\t " + ("}" + rest);
    var d := ";" + e;
    var c := ")" + d;
    var b := APPLY_PARAMETERS + c;
    var a := "(" + b;
    var name := ingress + APPLY;
    WordStep(" \n" + indent + " ", name, a);
    assert name[|name| - |APPLY|..] == APPLY && name[..|name| - |APPLY|] == ingress;
    NoSpace(a);
    SymbolStep("", "(", b);
    NoSpace(b);
    SymbolStep("", APPLY_PARAMETERS, c);
    NoSpace(c);
    SymbolStep("", ")", d);
    NoSpace(d);
    SymbolStep("", ";", e);
    SymbolStep(" \n\t\t\t\t ", "}", rest);
  }

  lemma IfStep(lead: string, rest: string)
    requires AllSpace(lead)
    ensures Keyword(lead + ("if" + (" " + rest)), "if") == Some(" " + rest)
    ensures Keyword(lead + ("if" + (" " + rest)), "else") == None
  {
    hide Word;
    WordStep(lead, "if", " " + rest);
  }

  function Parsed(o: Otf): Branch {
    Branch(o.vnis, o.funcId, o.mainIngress)
  }

  /** A branch parses to its function, unless it has no VNI. */
  lemma BranchParses(lead: string, indent: string, o: Otf, rest: string)
    requires AllSpace(lead) && AllSpace(indent) && AllWord(o.mainIngress)
    ensures o.vnis != [] ==> ParseBranch(BranchText(lead, indent, o, rest)) == Some((Parsed(o), rest))
    ensures o.vnis == [] ==> ParseBranch(BranchText(lead, indent, o, rest)) == None
    ensures Keyword(BranchText(lead, indent, o, rest), "if").Some?
  {
    hide Keyword, Condition, Assignment, Application, ConditionText, AssignmentText, ApplicationText;
    var c := ApplicationText(indent, o.mainIngress, rest);
    var b := AssignmentText(indent, o.funcId, c);
    var a := ConditionText(o.vnis, b);
    IfStep(lead, a);
    ConditionParses(" ", o.vnis, b);
    AssignmentParses(indent, o.funcId, c);
    ApplicationParses(indent, o.mainIngress, rest);
  }

  // -------------------------------------------------------------------------
  // The whole controller
  // -------------------------------------------------------------------------

  ghost predicate Named(otfs: seq<Otf>) {
    forall o :: o in otfs ==> AllWord(o.mainIngress)
  }

  predicate HaveVnis(otfs: seq<Otf>) {
    forall i :: 0 <= i < |otfs| ==> otfs[i].vnis != []
  }

  function ParsedAll(otfs: seq<Otf>): seq<Branch> {
    if otfs == [] then [] else [Parsed(otfs[0])] + ParsedAll(otfs[1..])
  }

  /** Next comes a closing brace. */
  predicate Closes(rest: string) {
    SkipSpace(rest) != "" && SkipSpace(rest)[0] == '}'
  }

  lemma CloseIsNoWord(sp: string, rest: string)
    requires AllSpace(sp) && Closes(rest)
    ensures Word(sp + rest) == None
  {
    SpaceSkips(sp, rest);
  }

  lemma ElseStep(rest: string)
    requires Breaks(rest)
    ensures Keyword(" " + (" " + ("else" + rest)), "else") == Some(rest)
  {
    hide Word;
    assert " " + (" " + ("else" + rest)) == "  " + ("else" + rest);
    WordStep("  ", "else", rest);
  }

  lemma {:induction false} ElseParses(otfs: seq<Otf>, rest: string)
    requires Named(otfs) && Closes(rest)
    ensures HaveVnis(otfs) ==> ParseElse(" " + ElseText(otfs, rest)) == Some((ParsedAll(otfs), " " + rest))
    ensures !HaveVnis(otfs) ==> ParseElse(" " + ElseText(otfs, rest)) == None
    decreases otfs
  {
    hide Keyword, ParseBranch, BranchText, SkipSpace, Word;
    if otfs == [] {
      NoElse(" ", rest);
    } else {
      var o, after := otfs[0], " " + ElseText(otfs[1..], rest);
      BranchBreaks(DEEP, o, after);
      ElseStep(BranchText(" ", DEEP, o, after));
      BranchParses(" ", DEEP, o, after);
      ElseParses(otfs[1..], rest);
      assert forall i :: 0 < i < |otfs| ==> otfs[i] == otfs[1..][i - 1];
    }
  }

  lemma NoElse(sp: string, rest: string)
    requires AllSpace(sp) && Closes(rest)
    ensures Keyword(sp + rest, "else") == None && Keyword(sp + rest, "if") == None
  {
    CloseIsNoWord(sp, rest);
  }

  lemma BranchBreaks(indent: string, o: Otf, rest: string)
    ensures Breaks(BranchText(" ", indent, o, rest))
  {
    hide ConditionText;
  }

  /** Space that separates the clause from the closing brace. */
  function Trail(otfs: seq<Otf>, lead: string): (sp: string)
    ensures AllSpace(lead) ==> AllSpace(sp)
  {
    if otfs == [] then lead else if |otfs| == 1 then " \n" else " "
  }

  lemma ClauseParses(lead: string, otfs: seq<Otf>, rest: string)
    requires AllSpace(lead) && Named(otfs) && Closes(rest)
    ensures HaveVnis(otfs) ==> ParseChain(lead + ClauseText(otfs, rest)) == Some((ParsedAll(otfs), Trail(otfs, lead) + rest))
    ensures !HaveVnis(otfs) ==> ParseChain(lead + ClauseText(otfs, rest)) == None
  {
    hide Keyword, ParseBranch, SkipSpace, Word, ParseElse, ElseText, BranchText, Closes;
    if otfs == [] {
      NoElse(lead, rest);
    } else if |otfs| == 1 {
      LeadMoves(lead, " ", "\t\t\t\t", otfs[0], " \n" + rest);
      BranchParses(lead + " ", "\t\t\t\t", otfs[0], " \n" + rest);
      NoElse(" \n", rest);
      ElseEnds(" \n" + rest);
      assert otfs == [otfs[0]];
    } else {
      var after := " " + ElseText(otfs[1..], rest);
      LeadMoves(lead, "\t ", DEEP, otfs[0], after);
      BranchParses(lead + "\t ", DEEP, otfs[0], after);
      ElseParses(otfs[1..], rest);
      assert forall i :: 0 < i < |otfs| ==> otfs[i] == otfs[1..][i - 1];
    }
  }

  lemma ElseEnds(s: string)
    requires Keyword(s, "else").None?
    ensures ParseElse(s) == Some(([], s))
  {
  }

  lemma LeadMoves(sp: string, lead: string, indent: string, o: Otf, rest: string)
    ensures sp + BranchText(lead, indent, o, rest) == BranchText(sp + lead, indent, o, rest)
  {
    hide ConditionText, AssignmentText, ApplicationText;
  }

  lemma GuardParses(rest: string)
    ensures ParseGuard("if" + (" " + ("(" + ("hdr.vxlan.isValid" + ("(" + (")" + (")" + (" " + ("{" + rest))))))))) == Some(rest)
  {
    hide Word, Symbol;
    var g := " " + ("{" + rest);
    var f := ")" + g;
    var e := ")" + f;
    var d := "(" + e;
    var c := "hdr.vxlan.isValid" + d;
    NoSpace("if" + (" " + ("(" + c)));
    WordStep("", "if", " " + ("(" + c));
    SymbolStep(" ", "(", c);
    NoSpace(c);
    WordStep("", "hdr.vxlan.isValid", d);
    NoSpace(d);
    SymbolStep("", "(", e);
    NoSpace(e);
    SymbolStep("", ")", f);
    NoSpace(f);
    SymbolStep("", ")", g);
    SymbolStep(" ", "{", rest);
  }

  lemma EndCloses(sp: string)
    requires AllSpace(sp)
    ensures Closes(" \n\t\t\t " + ("}" + "\n"))
    ensures Symbol(sp + (" \n\t\t\t " + ("}" + "\n")), "}") == Some("\n") && SkipSpace("\n") == ""
  {
    var gap := " \n\t\t\t ";
    SpaceSkips(gap, "}" + "\n");
    assert sp + (gap + ("}" + "\n")) == (sp + gap) + ("}" + "\n");
    SymbolStep(sp + gap, "}", "\n");
    SpaceSkips("\n", "");
    assert "\n" + "" == "\n";
  }

  /** The controller text of any table parses exactly if every function has a VNI,
      and then to the table's branches in order. */
  lemma ControllerParsesIff(otfs: seq<Otf>)
    requires Named(otfs)
    ensures ParseController(ControllerText(otfs)).Some? <==> HaveVnis(otfs)
    ensures HaveVnis(otfs) ==> ParseController(ControllerText(otfs)) == Some(ParsedAll(otfs))
  {
    hide ParseGuard, ParseChain, ClauseText, Symbol, SkipSpace;
    var lead, rest := " \n\t\t\t ", " \n\t\t\t " + ("}" + "\n");
    EndCloses(Trail(otfs, lead));
    GuardParses(lead + ClauseText(otfs, rest));
    ClauseParses(lead, otfs, rest);
  }
}
