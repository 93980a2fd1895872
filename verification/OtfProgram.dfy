/** The in-network tenant controller: the P4 text generated for a table of tenant
    functions, a parser for that text, and what the parsed program does. */
module OtfProgram {
  import opened Decimals
  import opened Options

  /** One registered tenant function. */
  datatype Otf = Otf(vnis: seq<nat>, funcId: nat, mainIngress: string, p4Code: string)

  const VNI_FIELD := "hdr.vxlan.vni"
  const FUNC_ID_FIELD := "meta.tenant_meta.tenant_func_id"
  const APPLY := ".apply"
  const APPLY_PARAMETERS := "hdr, meta, standard_metadata"

  // -------------------------------------------------------------------------
  // Text
  // -------------------------------------------------------------------------

  // Every text function takes the text that follows.

  function TermText(vni: nat, rest: string): string {
    VNI_FIELD + (" " + ("==" + (" " + (Numeral(vni) + rest))))
  }

  function TermsText(vnis: seq<nat>, rest: string): string {
    if vnis == [] then rest
    else if |vnis| == 1 then TermText(vnis[0], rest)
    else TermText(vnis[0], " " + ("||" + (" " + TermsText(vnis[1..], rest))))
  }

  /** The condition of one branch; without VNIs only its closing parenthesis is
      left. */
  function ConditionText(vnis: seq<nat>, rest: string): string {
    if vnis == [] then ")" + rest else "(" + TermsText(vnis, ")" + rest)
  }

  function AssignmentText(indent: string, funcId: nat, rest: string): string {
    " " + ("{" + ((" \n" + indent + " ") + (FUNC_ID_FIELD + (" " + ("=" + (" " + (Numeral(funcId) + (";" + rest))))))))
  }

  function ApplicationText(indent: string, ingress: string, rest: string): string {
    (" \n" + indent + " ") + ((ingress + APPLY) + ("(" + (APPLY_PARAMETERS + (")" + (";" + (" \n\t\t\t\t " + ("}" + rest)))))))
  }

  /** if (...) { meta.tenant_meta.tenant_func_id = N; NAME.apply(...); } */
  function BranchText(lead: string, indent: string, o: Otf, rest: string): string {
    lead + ("if" + (" " + ConditionText(o.vnis, AssignmentText(indent, o.funcId, ApplicationText(indent, o.mainIngress, rest)))))
  }

  const DEEP := "\t\t\t\t\t"

  function ElseText(otfs: seq<Otf>, rest: string): string {
    if otfs == [] then rest
    else " " + ("else" + BranchText(" ", DEEP, otfs[0], " " + ElseText(otfs[1..], rest)))
  }

  /** No function, one, and many are written differently. */
  function ClauseText(otfs: seq<Otf>, rest: string): string {
    if otfs == [] then rest
    else if |otfs| == 1 then BranchText(" ", "\t\t\t\t", otfs[0], " \n" + rest)
    else BranchText("\t ", DEEP, otfs[0], " " + ElseText(otfs[1..], rest))
  }

  function ControllerText(otfs: seq<Otf>): string {
    "if" + (" " + ("(" + ("hdr.vxlan.isValid" + ("(" + (")" + (")" + (" " + ("{" + (" \n\t\t\t " +
    ClauseText(otfs, " \n\t\t\t " + ("}" + "\n")))))))))))
  }

  // -------------------------------------------------------------------------
  // Parser
  // -------------------------------------------------------------------------

  datatype Branch = Branch(vnis: seq<nat>, funcId: nat, ingress: string)

  predicate IsSpace(c: char) {
    c == ' ' || c == '\n' || c == '\t'
  }

  predicate IsWordChar(c: char) {
    IsDigit(c) || 'a' <= c <= 'z' || 'A' <= c <= 'Z' || c == '_' || c == '.'
  }

  function SkipSpace(s: string): (r: string)
    ensures |r| <= |s|
  {
    if s != "" && IsSpace(s[0]) then SkipSpace(s[1..]) else s
  }

  function WordLength(s: string): (n: nat)
    ensures n <= |s|
  {
    if s != "" && IsWordChar(s[0]) then 1 + WordLength(s[1..]) else 0
  }

  /** The longest word after optional space, and the text behind it. */
  function Word(s: string): (r: Option<(string, string)>)
    ensures r.Some? ==> |r.value.1| < |s|
  {
    var t := SkipSpace(s);
    var n := WordLength(t);
    if n == 0 then None else Some((t[..n], t[n..]))
  }

  function Keyword(s: string, word: string): (r: Option<string>)
    ensures r.Some? ==> |r.value| < |s|
  {
    var w := Word(s);
    if w.Some? && w.value.0 == word then Some(w.value.1) else None
  }

  function Symbol(s: string, symbol: string): (r: Option<string>)
    ensures r.Some? && symbol != "" ==> |r.value| < |s|
  {
    var t := SkipSpace(s);
    if symbol <= t then Some(t[|symbol|..]) else None
  }

  function Number(s: string): (r: Option<(nat, string)>)
    ensures r.Some? ==> |r.value.1| < |s|
  {
    var w := Word(s);
    if w.None? then None else
    var v := ReadNumeral(w.value.0);
    if v.None? then None else Some((v.value, w.value.1))
  }

  /** hdr.vxlan.vni == N */
  function Term(s: string): (r: Option<(nat, string)>)
    ensures r.Some? ==> |r.value.1| < |s|
  {
    var a := Keyword(s, VNI_FIELD);
    if a.None? then None else
    var b := Symbol(a.value, "==");
    if b.None? then None else Number(b.value)
  }

  /** Terms separated by ||. */
  function Terms(s: string): (r: Option<(seq<nat>, string)>)
    ensures r.Some? ==> |r.value.1| < |s|
    decreases |s|
  {
    var t := Term(s);
    if t.None? then None else
    var more := Symbol(t.value.1, "||");
    if more.None? then Some(([t.value.0], t.value.1)) else
    var rest := Terms(more.value);
    if rest.None? then None else Some(([t.value.0] + rest.value.0, rest.value.1))
  }

  function Condition(s: string): (r: Option<(seq<nat>, string)>)
    ensures r.Some? ==> |r.value.1| < |s|
  {
    var a := Symbol(s, "(");
    if a.None? then None else
    var b := Terms(a.value);
    if b.None? then None else
    var c := Symbol(b.value.1, ")");
    if c.None? then None else Some((b.value.0, c.value))
  }

  /** { meta.tenant_meta.tenant_func_id = N; */
  function Assignment(s: string): (r: Option<(nat, string)>)
    ensures r.Some? ==> |r.value.1| < |s|
  {
    var a := Symbol(s, "{");
    if a.None? then None else
    var b := Keyword(a.value, FUNC_ID_FIELD);
    if b.None? then None else
    var c := Symbol(b.value, "=");
    if c.None? then None else
    var d := Number(c.value);
    if d.None? then None else
    var e := Symbol(d.value.1, ";");
    if e.None? then None else Some((d.value.0, e.value))
  }

  /** NAME.apply(hdr, meta, standard_metadata); } */
  function Application(s: string): (r: Option<(string, string)>)
    ensures r.Some? ==> |r.value.1| < |s|
  {
    var w := Word(s);
    if w.None? || |w.value.0| < |APPLY| || w.value.0[|w.value.0| - |APPLY|..] != APPLY then None else
    var a := Symbol(w.value.1, "(");
    if a.None? then None else
    var b := Symbol(a.value, APPLY_PARAMETERS);
    if b.None? then None else
    var c := Symbol(b.value, ")");
    if c.None? then None else
    var d := Symbol(c.value, ";");
    if d.None? then None else
    var e := Symbol(d.value, "}");
    if e.None? then None else Some((w.value.0[..|w.value.0| - |APPLY|], e.value))
  }

  function ParseBranch(s: string): (r: Option<(Branch, string)>)
    ensures r.Some? ==> |r.value.1| < |s|
  {
    var a := Keyword(s, "if");
    if a.None? then None else
    var b := Condition(a.value);
    if b.None? then None else
    var c := Assignment(b.value.1);
    if c.None? then None else
    var d := Application(c.value.1);
    if d.None? then None else Some((Branch(b.value.0, c.value.0, d.value.0), d.value.1))
  }

  /** else if ... as long as there is another else. */
  function ParseElse(s: string): (r: Option<(seq<Branch>, string)>)
    ensures r.Some? ==> |r.value.1| <= |s|
    decreases |s|
  {
    var e := Keyword(s, "else");
    if e.None? then Some(([], s)) else
    var b := ParseBranch(e.value);
    if b.None? then None else
    var rest := ParseElse(b.value.1);
    if rest.None? then None else Some(([b.value.0] + rest.value.0, rest.value.1))
  }

  /** Nothing, or an if followed by its else branches. */
  function ParseChain(s: string): (r: Option<(seq<Branch>, string)>)
    ensures r.Some? ==> |r.value.1| <= |s|
  {
    if Keyword(s, "if").None? then Some(([], s)) else
    var b := ParseBranch(s);
    if b.None? then None else
    var rest := ParseElse(b.value.1);
    if rest.None? then None else Some(([b.value.0] + rest.value.0, rest.value.1))
  }

  function ParseGuard(s: string): Option<string> {
    var a := Keyword(s, "if");
    if a.None? then None else
    var b := Symbol(a.value, "(");
    if b.None? then None else
    var c := Keyword(b.value, "hdr.vxlan.isValid");
    if c.None? then None else
    var d := Symbol(c.value, "(");
    if d.None? then None else
    var e := Symbol(d.value, ")");
    if e.None? then None else
    var f := Symbol(e.value, ")");
    if f.None? then None else Symbol(f.value, "{")
  }

  /** The whole controller text, and nothing else but space. */
  function ParseController(s: string): Option<seq<Branch>> {
    var g := ParseGuard(s);
    if g.None? then None else
    var chain := ParseChain(g.value);
    if chain.None? then None else
    var close := Symbol(chain.value.1, "}");
    if close.None? || SkipSpace(close.value) != "" then None else Some(chain.value.0)
  }

  // -------------------------------------------------------------------------
  // Meaning
  // -------------------------------------------------------------------------

  datatype Effect = Nothing | Applied(funcId: nat, ingress: string)

  /** Integer literals take the width of the field they meet. */
  const VNIS := 0x100_0000
  const FUNC_IDS := 0x100

  predicate MatchesVni(vnis: seq<nat>, vni: nat) {
    exists i :: 0 <= i < |vnis| && vnis[i] % VNIS == vni
  }

  function EvalChain(branches: seq<Branch>, vni: nat): Effect {
    if branches == [] then Nothing
    else if MatchesVni(branches[0].vnis, vni) then Applied(branches[0].funcId % FUNC_IDS, branches[0].ingress)
    else EvalChain(branches[1..], vni)
  }

  function Eval(program: seq<Branch>, vxlanValid: bool, vni: nat): Effect {
    if vxlanValid then EvalChain(program, vni) else Nothing
  }
}
