/** The syntactic pass: two whole-text searches for one fixed `for` loop
    header and one fixed loop body, and the message built from them. */
module Syntactic {
  import opened Chars
  import opened Text
  import opened Scan

  const SyntaxOk: string := "Sintaxis correcta"

  const HeaderError: string :=
    "Error en la sintaxis del bucle 'for'. Aseg\U{FA}rate de declarar el tipo de variable correctamente, por ejemplo: 'for (int i = 1; i <= 19; i++) {'."

  const BodyError: string :=
    "Error en el cuerpo del bucle 'for'. Aseg\U{FA}rate de usar 'System.out.println()' correctamente y de que las llaves est\U{E9}n bien colocadas."

  /* The header pattern
       `\bfor\s*\(\s*\w+\s*=\s*\d+\s*;\s*\w+\s*<=\s*\d+\s*;\s*\w+\+\+\s*\)\s*\{`
     is matched in four stages: the opening `for (`, the initialisation up to
     its `;`, the condition up to its `;`, and the increment up to `{`.  Every
     `\s*`, `\w+` and `\d+` in it is followed by a character outside its
     class, so the greedy run is the only one a match can use.  Each stage
     returns the position after the text it consumed. */

  /** `\bfor\s*\(` */
  function ForOpen(s: string, i: nat): (r: Option<nat>)
    requires i <= |s|
    ensures r.Some? ==> i < r.value <= |s|
  {
    if !Boundary(s, i) then None
    else
      var p :- Lit(s, i, "for");
      Lit(s, SpacesEnd(s, p), "(")
  }

  /** `\s*\w+\s*=\s*\d+\s*;` */
  function Initialisation(s: string, p: nat): (r: Option<nat>)
    requires p <= |s|
    ensures r.Some? ==> p < r.value <= |s|
  {
    var p1 :- Word(s, SpacesEnd(s, p));
    var p2 :- Lit(s, SpacesEnd(s, p1), "=");
    var p3 :- Digits(s, SpacesEnd(s, p2));
    Lit(s, SpacesEnd(s, p3), ";")
  }

  /** `\s*\w+\s*<=\s*\d+\s*;` */
  function Condition(s: string, p: nat): (r: Option<nat>)
    requires p <= |s|
    ensures r.Some? ==> p < r.value <= |s|
  {
    var p1 :- Word(s, SpacesEnd(s, p));
    var p2 :- Lit(s, SpacesEnd(s, p1), "<=");
    var p3 :- Digits(s, SpacesEnd(s, p2));
    Lit(s, SpacesEnd(s, p3), ";")
  }

  /** `\s*\w+\+\+\s*\)\s*\{` */
  function Increment(s: string, p: nat): (r: Option<nat>)
    requires p <= |s|
    ensures r.Some? ==> p < r.value <= |s|
  {
    var p1 :- Word(s, SpacesEnd(s, p));
    var p2 :- Lit(s, p1, "++");
    var p3 :- Lit(s, SpacesEnd(s, p2), ")");
    Lit(s, SpacesEnd(s, p3), "{")
  }

  /** The header pattern matched from position `i`. */
  function HeaderEnd(s: string, i: nat): (r: Option<nat>)
    requires i <= |s|
    ensures r.Some? ==> i < r.value <= |s|
  {
    var p1 :- ForOpen(s, i);
    var p2 :- Initialisation(s, p1);
    var p3 :- Condition(s, p2);
    Increment(s, p3)
  }

  /* The body pattern
       `\{\s*\n\s*System\.out\.println\s*\(\s*\w+\s*\)\s*;\s*\n\s*\}`
     in three stages: the brace and line break, the call, and the line break
     and brace. */

  /** `\{\s*\n\s*` */
  function BodyOpen(s: string, i: nat): (r: Option<nat>)
    requires i <= |s|
    ensures r.Some? ==> i < r.value <= |s|
  {
    var p :- Lit(s, i, "{");
    SpacedNewline(s, p)
  }

  /** `System\.out\.println\s*\(\s*\w+\s*\)\s*;` */
  function PrintCall(s: string, p: nat): (r: Option<nat>)
    requires p <= |s|
    ensures r.Some? ==> p < r.value <= |s|
  {
    var p1 :- Lit(s, p, "System.out.println");
    var p2 :- Lit(s, SpacesEnd(s, p1), "(");
    var p3 :- Word(s, SpacesEnd(s, p2));
    var p4 :- Lit(s, SpacesEnd(s, p3), ")");
    Lit(s, SpacesEnd(s, p4), ";")
  }

  /** `\s*\n\s*\}` */
  function BodyClose(s: string, p: nat): (r: Option<nat>)
    requires p <= |s|
    ensures r.Some? ==> p < r.value <= |s|
  {
    var p1 :- SpacedNewline(s, p);
    Lit(s, p1, "}")
  }

  /** The body pattern matched from position `i`. */
  function BodyEnd(s: string, i: nat): (r: Option<nat>)
    requires i <= |s|
    ensures r.Some? ==> i < r.value <= |s|
  {
    var p1 :- BodyOpen(s, i);
    var p2 :- PrintCall(s, p1);
    BodyClose(s, p2)
  }

  /** `re.search` of the header pattern succeeds. */
  predicate HeaderFound(s: string) {
    exists i :: 0 <= i <= |s| && HeaderEnd(s, i).Some?
  }

  /** `re.search` of the body pattern succeeds. */
  predicate BodyFound(s: string) {
    exists i :: 0 <= i <= |s| && BodyEnd(s, i).Some?
  }

  /** The outcome of `analyze_syntactic`: a message and the text handed on. */
  datatype SyntaxReport = SyntaxReport(message: string, code: string)

  /** The message built from the outcomes of the two searches: one error per
      failed search, header first, joined by a space. */
  function SyntaxMessage(headerFound: bool, bodyFound: bool): (m: string)
    ensures m == SyntaxOk <==> headerFound && bodyFound
    ensures !headerFound && bodyFound ==> m == HeaderError
    ensures headerFound && !bodyFound ==> m == BodyError
    ensures !headerFound && !bodyFound ==> m == HeaderError + " " + BodyError
  {
    var errors :=
      (if headerFound then [] else [HeaderError]) +
      (if bodyFound then [] else [BodyError]);
    if errors == [] then SyntaxOk
    else
      assert |errors| == 2 ==> errors[1..] == [BodyError];
      Join(errors, " ")
  }

  /** `analyze_syntactic`: the text is passed on unchanged. */
  function AnalyzeSyntactic(code: string): (r: SyntaxReport)
    requires IsAscii(code)
    ensures r.code == code
    ensures r.message == SyntaxOk <==> HeaderFound(code) && BodyFound(code)
    ensures !HeaderFound(code) && BodyFound(code) ==> r.message == HeaderError
    ensures HeaderFound(code) && !BodyFound(code) ==> r.message == BodyError
    ensures !HeaderFound(code) && !BodyFound(code) ==> r.message == HeaderError + " " + BodyError
  {
    SyntaxReport(SyntaxMessage(HeaderFound(code), BodyFound(code)), code)
  }
}
