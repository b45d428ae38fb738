/** The semantic pass: every word of the text must be a declared `int`, one
    of nine standard names, or a number. */
module Semantic {
  import opened Chars
  import opened Text
  import opened Scan
  import opened Words

  const SemanticOk: string := "Uso correcto de las estructuras sem\U{E1}nticas"

  /** Names never reported as undeclared. */
  const StandardKeywords: set<string> :=
    {"System", "out", "println", "for", "if", "else", "while", "return", "int"}

  /** Step: `\s+`, greedy. */
  function SpacesPlus(s: string, p: nat): (r: Option<nat>)
    requires p <= |s|
    ensures r.Some? <==> p < |s| && IsSpace(s[p])
    ensures r.Some? ==> r.value == SpacesEnd(s, p)
  {
    var q := SpacesEnd(s, p);
    if p < q then Some(q) else None
  }

  /** Step: `=\s*\d+`. */
  function Initialiser(s: string, p: nat): (r: Option<nat>)
    requires p <= |s|
    ensures r.Some? ==> p < r.value <= |s|
  {
    var p1 :- Lit(s, p, "=");
    Digits(s, SpacesEnd(s, p1))
  }

  /** Step: `int\s+(\w+)`; the result is the span of the name. */
  function TypedName(s: string, p: nat): (r: Option<(nat, nat)>)
    requires p <= |s|
    ensures r.Some? ==> p < r.value.0 < r.value.1 <= |s|
  {
    var p1 :- Lit(s, p, "int");
    var p2 :- SpacesPlus(s, p1);
    var p3 :- Word(s, p2);
    Some((p2, p3))
  }

  /** `\bint\s+(\w+)\s*(=\s*\d+)?\s*;` matched from position `i`; the result
      is the span of the captured name and the end of the match.  The
      optional initialiser is tried first; when it fails the pattern needs `;`
      where the `=` is, so the match fails. */
  function IntMatch(s: string, i: nat): (r: Option<(nat, nat, nat)>)
    requires i <= |s|
    ensures r.Some? ==> i < r.value.0 < r.value.1 < r.value.2 <= |s|
  {
    if !Boundary(s, i) then None
    else
      var name :- TypedName(s, i);
      var p := SpacesEnd(s, name.1);
      var p1 :- if LiteralAt(s, p, "=") then Initialiser(s, p) else Some(p);
      var p2 :- Lit(s, SpacesEnd(s, p1), ";");
      Some((name.0, name.1, p2))
  }

  /** The name an `int` declaration match at `i` captures. */
  function IntDeclarationAt(s: string, i: nat): (r: Option<string>)
    requires i <= |s|
    ensures r.Some? <==> IntMatch(s, i).Some?
  {
    var m :- IntMatch(s, i);
    Some(s[m.0..m.1])
  }

  /** Step: `for\s*\(\s*`. */
  function ForParenthesis(s: string, i: nat): (r: Option<nat>)
    requires i <= |s|
    ensures r.Some? ==> i < r.value <= |s|
  {
    var p1 :- Lit(s, i, "for");
    var p2 :- Lit(s, SpacesEnd(s, p1), "(");
    Some(SpacesEnd(s, p2))
  }

  /** `\bfor\s*\(\s*int\s+(\w+)\s*=\s*\d+\s*;` matched from position `i`;
      the result is the span of the captured name and the end of the match. */
  function ForMatch(s: string, i: nat): (r: Option<(nat, nat, nat)>)
    requires i <= |s|
    ensures r.Some? ==> i < r.value.0 < r.value.1 < r.value.2 <= |s|
  {
    if !Boundary(s, i) then None
    else
      var p :- ForParenthesis(s, i);
      var name :- TypedName(s, p);
      var p1 :- Initialiser(s, SpacesEnd(s, name.1));
      var p2 :- Lit(s, SpacesEnd(s, p1), ";");
      Some((name.0, name.1, p2))
  }

  /** The name a `for (int ...` declaration match at `i` captures. */
  function ForDeclarationAt(s: string, i: nat): (r: Option<string>)
    requires i <= |s|
    ensures r.Some? <==> ForMatch(s, i).Some?
  {
    var m :- ForMatch(s, i);
    Some(s[m.0..m.1])
  }

  /** The two declaration searches of the semantic pass. */
  datatype DeclarationPattern = IntPattern | ForPattern

  function MatchOf(pat: DeclarationPattern, s: string, i: nat): (r: Option<(nat, nat, nat)>)
    requires i <= |s|
    ensures r.Some? ==> i < r.value.0 < r.value.1 < r.value.2 <= |s|
  {
    match pat
    case IntPattern => IntMatch(s, i)
    case ForPattern => ForMatch(s, i)
  }

  /** `re.findall` of a declaration pattern from position `p`, keeping the
      name group: the scan tries each position from the left and, after a
      match, resumes where it ended. */
  function FindAll(pat: DeclarationPattern, s: string, p: nat): (names: seq<string>)
    requires p <= |s|
    ensures forall v :: v in names ==> CapturedFrom(pat, s, p, v)
    decreases |s| - p
  {
    match MatchOf(pat, s, p)
    case Some(m) =>
      var rest := FindAll(pat, s, m.2);
      assert CapturedFrom(pat, s, p, s[m.0..m.1]);
      [s[m.0..m.1]] + rest
    case None => if p < |s| then FindAll(pat, s, p + 1) else []
  }

  /** Some match of the pattern at or after `p` captures `v`. */
  predicate CapturedFrom(pat: DeclarationPattern, s: string, p: nat, v: string) {
    exists i :: p <= i <= |s| && MatchOf(pat, s, i).Some? &&
      v == s[MatchOf(pat, s, i).value.0..MatchOf(pat, s, i).value.1]
  }

  /** Names captured by the `int` declaration pattern at any position.  Two
      of its matches never overlap, so this is also what `FindAll` collects. */
  function IntDeclared(s: string): set<string> {
    set i | 0 <= i <= |s| && IntDeclarationAt(s, i).Some? :: IntDeclarationAt(s, i).value
  }

  /** Names captured by the `for (int ...` declaration pattern at any position. */
  function ForDeclared(s: string): set<string> {
    set i | 0 <= i <= |s| && ForDeclarationAt(s, i).Some? :: ForDeclarationAt(s, i).value
  }

  /** `declared_variables`, stated by positions; `FindAllDeclared` shows that
      the two left-to-right scans collect the same set. */
  function Declared(s: string): set<string> {
    IntDeclared(s) + ForDeclared(s)
  }

  /** `used_variables`: every `\b(\w+)\b` match, that is, every word run. */
  function Used(s: string): set<string> {
    set r | r in WordRuns(s)
  }

  /** `re.match(r'^\d+$', name)`. */
  predicate IsNumeral(v: string) {
    |v| > 0 && forall k :: 0 <= k < |v| ==> IsDigit(v[k])
  }

  /** The names reported as undeclared. */
  function Undeclared(s: string): set<string> {
    set v | v in Used(s) - Declared(s) - StandardKeywords && !IsNumeral(v)
  }

  /** The verdict: correct, or the set of undeclared names (the source
      reports them in the iteration order of a Python set). */
  datatype Verdict = Correct | NotDeclared(names: set<string>)

  /** The outcome of `analyze_semantic`: a verdict and the text handed on. */
  datatype SemanticReport = SemanticReport(verdict: Verdict, code: string)

  /** `analyze_semantic`. */
  function AnalyzeSemantic(code: string): (r: SemanticReport)
    requires IsAscii(code)
    ensures r.code == code
    ensures r.verdict.Correct? <==>
      forall v :: v in WordRuns(code) ==> v in Declared(code) || v in StandardKeywords || IsNumeral(v)
    ensures r.verdict.NotDeclared? ==>
      r.verdict.names != {} && forall v :: v in r.verdict.names <==> v in Undeclared(code)
  {
    var names := Undeclared(code);
    if names == {} then SemanticReport(Correct, code)
    else SemanticReport(NotDeclared(names), code)
  }

  /** The report for one undeclared name. */
  function UndeclaredError(v: string): string {
    "Variable no declarada: '" + v + "'."
  }

  /** The parts are the reports of the names in `names`: every part is one,
      and every name has its report among the parts. */
  predicate ReportsOf(parts: seq<string>, names: set<string>) {
    (set p | p in parts) == (set v | v in names :: UndeclaredError(v))
  }

  /** The reports of the names in `order`, in that order. */
  function Reports(order: seq<string>): (parts: seq<string>)
    ensures |parts| == |order|
    ensures forall k :: 0 <= k < |order| ==> parts[k] == UndeclaredError(order[k])
  {
    if order == [] then [] else [UndeclaredError(order[0])] + Reports(order[1..])
  }

  /** Enumerating exactly the names gives exactly their reports. */
  lemma ReportsCover(order: seq<string>, names: set<string>)
    requires forall v :: v in names <==> v in order
    ensures ReportsOf(Reports(order), names)
  {
    var parts := Reports(order);
    forall x | x in parts
      ensures x in (set v | v in names :: UndeclaredError(v))
    {
      var k :| 0 <= k < |parts| && parts[k] == x;
      assert order[k] in names;
    }
    forall v | v in names
      ensures UndeclaredError(v) in parts
    {
      var k :| 0 <= k < |order| && order[k] == v;
      assert parts[k] == UndeclaredError(v);
    }
  }

  /** Each name's report occurs in the joined reports. */
  lemma ReportsOccur(parts: seq<string>, names: set<string>)
    requires ReportsOf(parts, names)
    ensures forall v :: v in names ==> Occurs(Join(parts, " "), UndeclaredError(v))
  {
    forall v | v in names
      ensures Occurs(Join(parts, " "), UndeclaredError(v))
    {
      ReportOccurs(parts, names, v);
    }
  }

  lemma ReportOccurs(parts: seq<string>, names: set<string>, v: string)
    requires ReportsOf(parts, names) && v in names
    ensures Occurs(Join(parts, " "), UndeclaredError(v))
  {
    var reports := set w | w in names :: UndeclaredError(w);
    assert (set p | p in parts) == reports;
    assert UndeclaredError(v) in reports;
    assert UndeclaredError(v) in parts;
    var k :| 0 <= k < |parts| && parts[k] == UndeclaredError(v);
    JoinContains(parts, " ", k);
  }

  /** The message text, given the order in which the set of undeclared names
      is enumerated (each name once): the reports of the names, joined by
      spaces. */
  function Message(verdict: Verdict, order: seq<string>): (m: string)
    requires verdict.NotDeclared? ==>
      && verdict.names != {}
      && |order| == |verdict.names|
      && forall v :: v in verdict.names <==> v in order
    ensures m == SemanticOk <==> verdict.Correct?
    ensures verdict.NotDeclared? ==>
      exists parts :: |parts| == |verdict.names| && m == Join(parts, " ") && ReportsOf(parts, verdict.names)
    ensures verdict.NotDeclared? ==>
      forall v :: v in verdict.names ==> Occurs(m, UndeclaredError(v))
  {
    match verdict
    case Correct => SemanticOk
    case NotDeclared(names) =>
      var parts := Reports(order);
      var m := Join(parts, " ");
      ReportsCover(order, names);
      ReportsOccur(parts, names);
      JoinStartsWithFirst(parts, " ");
      assert m[0] == parts[0][0] == 'V';
      m
  }
}
