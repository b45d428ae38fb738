/** Cursor primitives for the hand-written matchers that stand in for the
    analyser's regular expressions.  A position `p` into `s` satisfies
    `p <= |s|`; each `...End` function returns the end of the longest run of
    one character class starting at `p`, which is what a greedy `\w+`, `\s*`
    or `\d+` consumes. */
module Scan {
  import opened Chars
  import opened Text

  /** The outcome of one matching step: the position after it, or failure. */
  datatype Option<+T> = None | Some(value: T) {
    predicate IsFailure() {
      None?
    }

    function PropagateFailure<U>(): Option<U>
      requires None?
    {
      None
    }

    function Extract(): T
      requires Some?
    {
      value
    }
  }

  /** `\b` at position `i`: exactly one of the characters around it is a word
      character (the text's ends count as non-word). */
  predicate Boundary(s: string, i: nat)
    requires i <= |s|
  {
    (i > 0 && IsWordChar(s[i - 1])) != (i < |s| && IsWordChar(s[i]))
  }

  /** Position `i` is not inside a word: nothing, or a non-word character, precedes it. */
  predicate Fresh(s: string, i: nat)
    requires i <= |s|
  {
    i == 0 || !IsWordChar(s[i - 1])
  }

  /** End of the run of word characters starting at `p`. */
  function WordEnd(s: string, p: nat): (q: nat)
    requires p <= |s|
    ensures p <= q <= |s|
    ensures forall k :: p <= k < q ==> IsWordChar(s[k])
    ensures q == |s| || !IsWordChar(s[q])
    decreases |s| - p
  {
    if p < |s| && IsWordChar(s[p]) then WordEnd(s, p + 1) else p
  }

  /** End of the run of whitespace starting at `p`. */
  function SpacesEnd(s: string, p: nat): (q: nat)
    requires p <= |s|
    ensures p <= q <= |s|
    ensures forall k :: p <= k < q ==> IsSpace(s[k])
    ensures q == |s| || !IsSpace(s[q])
    decreases |s| - p
  {
    if p < |s| && IsSpace(s[p]) then SpacesEnd(s, p + 1) else p
  }

  /** End of the run of digits starting at `p`. */
  function DigitsEnd(s: string, p: nat): (q: nat)
    requires p <= |s|
    ensures p <= q <= |s|
    ensures forall k :: p <= k < q ==> IsDigit(s[k])
    ensures q == |s| || !IsDigit(s[q])
    decreases |s| - p
  {
    if p < |s| && IsDigit(s[p]) then DigitsEnd(s, p + 1) else p
  }

  /** `s[p..q]` is a maximal run of word characters. */
  predicate IsRun(s: string, p: int, q: int) {
    && 0 <= p < q <= |s|
    && Fresh(s, p)
    && (forall k :: p <= k < q ==> IsWordChar(s[k]))
    && (q == |s| || !IsWordChar(s[q]))
  }

  /** A word run starting at a fresh position extends exactly to `WordEnd`. */
  lemma RunIsWordEnd(s: string, p: nat, q: int)
    requires IsRun(s, p, q)
    ensures WordEnd(s, p) == q
  {
  }

  /** Step: the literal `lit`. */
  function Lit(s: string, p: nat, lit: string): (r: Option<nat>)
    ensures r.Some? <==> LiteralAt(s, p, lit)
    ensures r.Some? ==> r.value == p + |lit| <= |s|
  {
    if LiteralAt(s, p, lit) then Some(p + |lit|) else None
  }

  /** Step: `\w+`, greedy. */
  function Word(s: string, p: nat): (r: Option<nat>)
    requires p <= |s|
    ensures r.Some? <==> p < |s| && IsWordChar(s[p])
    ensures r.Some? ==> r.value == WordEnd(s, p)
  {
    var q := WordEnd(s, p);
    if p < q then Some(q) else None
  }

  /** Step: `\d+`, greedy. */
  function Digits(s: string, p: nat): (r: Option<nat>)
    requires p <= |s|
    ensures r.Some? <==> p < |s| && IsDigit(s[p])
    ensures r.Some? ==> r.value == DigitsEnd(s, p)
  {
    var q := DigitsEnd(s, p);
    if p < q then Some(q) else None
  }

  /** Step: `\s*\n\s*` when the next step needs a non-space character.  The
      whitespace in front of that character is then the whole maximal run,
      and the pattern needs a newline somewhere inside it. */
  function SpacedNewline(s: string, p: nat): (r: Option<nat>)
    requires p <= |s|
    ensures r.Some? <==> exists k :: p <= k < SpacesEnd(s, p) && s[k] == '\n'
    ensures r.Some? ==> r.value == SpacesEnd(s, p)
  {
    var q := SpacesEnd(s, p);
    if '\n' in s[p..q] then Some(q) else None
  }

  /** `t` is a text that `\s*\n\s*` matches in full: whitespace only, with
      a newline among it. */
  predicate SpacedNewlineText(t: string) {
    (forall k :: 0 <= k < |t| ==> IsSpace(t[k])) && '\n' in t
  }

  /** When the text after the whitespace is a non-space character (or the end
      of the text), `\s*\n\s*` matches from `p` to `q` exactly when
      `SpacedNewline` reaches `q`. */
  lemma SpacedNewlineMatches(s: string, p: nat, q: nat)
    requires p <= q <= |s| && (q == |s| || !IsSpace(s[q]))
    ensures SpacedNewlineText(s[p..q]) <==> SpacedNewline(s, p) == Some(q)
  {
    if SpacedNewlineText(s[p..q]) {
      assert forall k :: p <= k < q ==> IsSpace(s[k]) by {
        forall k | p <= k < q
          ensures IsSpace(s[k])
        {
          assert s[p..q][k - p] == s[k];
        }
      }
      SpacesEndIs(s, p, q);
    }
  }

  /* The greedy runs are determined by where the class starts and stops. */

  lemma SpacesEndIs(s: string, p: nat, q: nat)
    requires p <= q <= |s|
    requires forall k :: p <= k < q ==> IsSpace(s[k])
    requires q == |s| || !IsSpace(s[q])
    ensures SpacesEnd(s, p) == q
  {
  }

  lemma WordEndIs(s: string, p: nat, q: nat)
    requires p <= q <= |s|
    requires forall k :: p <= k < q ==> IsWordChar(s[k])
    requires q == |s| || !IsWordChar(s[q])
    ensures WordEnd(s, p) == q
  {
  }

  lemma DigitsEndIs(s: string, p: nat, q: nat)
    requires p <= q <= |s|
    requires forall k :: p <= k < q ==> IsDigit(s[k])
    requires q == |s| || !IsDigit(s[q])
    ensures DigitsEnd(s, p) == q
  {
  }

  /** A literal cannot occur where its first character does not. */
  lemma NotLiteralAt(s: string, p: nat, lit: string)
    requires |lit| > 0 && (p >= |s| || s[p] != lit[0])
    ensures !LiteralAt(s, p, lit)
  {
    if p + |lit| <= |s| {
      assert s[p..p + |lit|][0] == s[p];
    }
  }

  lemma LiteralAtJoin(a: string, lit: string, b: string)
    ensures LiteralAt(a + lit + b, |a|, lit)
  {
    assert (a + lit + b)[|a|..|a| + |lit|] == lit;
  }

  lemma LiteralChar(s: string, p: nat, c: char)
    requires p < |s| && s[p] == c
    ensures LiteralAt(s, p, [c])
  {
    assert s[p..p + 1] == [c];
  }

  /** A literal keeps occurring when text is put in front. */
  lemma LiteralAtShift(a: string, b: string, p: nat, lit: string)
    requires LiteralAt(b, p, lit)
    ensures LiteralAt(a + b, |a| + p, lit)
  {
    assert (a + b)[|a| + p..|a| + p + |lit|] == b[p..p + |lit|];
  }
}
