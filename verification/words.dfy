/** The maximal runs of `[A-Za-z0-9_]` of a text: the units that the
    keyword, identifier and number patterns and the semantic pass work on. */
module Words {
  import opened Chars
  import opened Scan

  /** A non-empty string of word characters. */
  predicate IsWord(r: string) {
    |r| > 0 && forall k :: 0 <= k < |r| ==> IsWordChar(r[k])
  }

  /** Position `p` does not cut a word run in two. */
  predicate Outside(s: string, p: nat)
    requires p <= |s|
  {
    p == |s| || !IsWordChar(s[p]) || Fresh(s, p)
  }

  /** The word runs of `s` that start at or after `p`, in text order. */
  function WordRunsFrom(s: string, p: nat): (runs: seq<string>)
    requires p <= |s|
    ensures forall k :: 0 <= k < |runs| ==> IsWord(runs[k])
    decreases |s| - p
  {
    if p == |s| then []
    else if !IsWordChar(s[p]) then WordRunsFrom(s, p + 1)
    else
      var q := WordEnd(s, p);
      [s[p..q]] + WordRunsFrom(s, q)
  }

  /** All word runs of `s`, in text order. */
  function WordRuns(s: string): (runs: seq<string>)
    ensures forall k :: 0 <= k < |runs| ==> IsWord(runs[k])
  {
    WordRunsFrom(s, 0)
  }

  /** Reference characterization: the scanner yields exactly the maximal word
      runs at or after `p`. */
  lemma {:induction false} WordRunsFromMembers(s: string, p: nat)
    requires p <= |s| && Outside(s, p)
    ensures forall x :: x in WordRunsFrom(s, p) <==>
      exists i, j :: p <= i && IsRun(s, i, j) && s[i..j] == x
    decreases |s| - p
  {
    if p == |s| {
    } else if !IsWordChar(s[p]) {
      WordRunsFromMembers(s, p + 1);
      forall i, j | p <= i && IsRun(s, i, j)
        ensures p + 1 <= i
      {
      }
    } else {
      var q := WordEnd(s, p);
      assert IsRun(s, p, q);
      WordRunsFromMembers(s, q);
      forall i, j | p <= i && IsRun(s, i, j)
        ensures s[i..j] in WordRunsFrom(s, p)
      {
        if i == p {
          RunIsWordEnd(s, p, j);
        } else if i < q {
          assert false;
        } else {
          assert s[i..j] in WordRunsFrom(s, q);
        }
      }
    }
  }

  /** The word runs of the whole text are exactly its maximal word runs. */
  lemma WordRunsMembers(s: string, x: string)
    ensures x in WordRuns(s) <==> exists i, j :: IsRun(s, i, j) && s[i..j] == x
  {
    WordRunsFromMembers(s, 0);
  }

  /** Characters that are not word characters contribute no run. */
  lemma {:induction false} SkipNonWord(s: string, p: nat, q: nat)
    requires p <= q <= |s|
    requires forall k :: p <= k < q ==> !IsWordChar(s[k])
    ensures WordRunsFrom(s, p) == WordRunsFrom(s, q)
    decreases q - p
  {
    if p < q {
      SkipNonWord(s, p + 1, q);
    }
  }

  /** A maximal run contributes itself, and scanning resumes after it. */
  lemma TakeRun(s: string, p: nat, q: nat)
    requires IsRun(s, p, q)
    ensures WordRunsFrom(s, p) == [s[p..q]] + WordRunsFrom(s, q)
  {
    RunIsWordEnd(s, p, q);
  }

  /** Only non-word characters in `s[p..q]`. */
  predicate Gap(s: string, p: nat, q: nat) {
    p <= q <= |s| && forall k :: p <= k < q ==> !IsWordChar(s[k])
  }

  /** `spans` lists, in text order, the word runs of `s` at or after `p`,
      with nothing but non-word characters around them. */
  predicate Tiles(s: string, p: nat, spans: seq<(nat, nat)>)
    requires p <= |s|
    decreases |spans|
  {
    if spans == [] then Gap(s, p, |s|)
    else
      && Gap(s, p, spans[0].0)
      && IsRun(s, spans[0].0, spans[0].1)
      && Tiles(s, spans[0].1, spans[1..])
  }

  /** The text of each span. */
  function Slices(s: string, p: nat, spans: seq<(nat, nat)>): (runs: seq<string>)
    requires p <= |s| && Tiles(s, p, spans)
    ensures |runs| == |spans|
    decreases |spans|
  {
    if spans == [] then []
    else [s[spans[0].0..spans[0].1]] + Slices(s, spans[0].1, spans[1..])
  }

  /** A tiling is what the scanner finds. */
  lemma {:induction false} TilesRuns(s: string, p: nat, spans: seq<(nat, nat)>)
    requires p <= |s| && Tiles(s, p, spans)
    ensures WordRunsFrom(s, p) == Slices(s, p, spans)
    decreases |spans|
  {
    if spans == [] {
      SkipNonWord(s, p, |s|);
    } else {
      SkipNonWord(s, p, spans[0].0);
      TakeRun(s, spans[0].0, spans[0].1);
      TilesRuns(s, spans[0].1, spans[1..]);
    }
  }

  /** Builds a tiling one run at a time, from the end of the text. */
  lemma TilesCons(s: string, p: nat, a: nat, b: nat, rest: seq<(nat, nat)>)
    requires Gap(s, p, a) && IsRun(s, a, b) && Tiles(s, b, rest)
    ensures Tiles(s, p, [(a, b)] + rest)
    ensures Slices(s, p, [(a, b)] + rest) == [s[a..b]] + Slices(s, b, rest)
  {
    assert ([(a, b)] + rest)[1..] == rest;
  }

  /** The scanner only looks forward, so text in front shifts nothing. */
  lemma {:induction false} WordEndShift(a: string, b: string, q: nat)
    requires q <= |b|
    ensures WordEnd(a + b, |a| + q) == |a| + WordEnd(b, q)
    decreases |b| - q
  {
    if q < |b| && IsWordChar(b[q]) {
      assert (a + b)[|a| + q] == b[q];
      WordEndShift(a, b, q + 1);
    } else if q < |b| {
      assert (a + b)[|a| + q] == b[q];
    }
  }

  lemma {:induction false} WordRunsShift(a: string, b: string, q: nat)
    requires q <= |b|
    ensures WordRunsFrom(a + b, |a| + q) == WordRunsFrom(b, q)
    decreases |b| - q
  {
    if q < |b| {
      assert (a + b)[|a| + q] == b[q];
      if IsWordChar(b[q]) {
        var e := WordEnd(b, q);
        WordEndShift(a, b, q);
        WordRunsShift(a, b, e);
        assert (a + b)[|a| + q..|a| + e] == b[q..e];
      } else {
        WordRunsShift(a, b, q + 1);
      }
    }
  }

  /** Text that ends outside a word run contributes its runs, and the text
      after it contributes the rest. */
  lemma {:induction false} WordRunsFromAppend(a: string, b: string, p: nat)
    requires p <= |a|
    requires a == [] || !IsWordChar(a[|a| - 1])
    ensures WordRunsFrom(a + b, p) == WordRunsFrom(a, p) + WordRunsFrom(b, 0)
    decreases |a| - p
  {
    if p == |a| {
      WordRunsShift(a, b, 0);
    } else {
      assert (a + b)[p] == a[p];
      if IsWordChar(a[p]) {
        var e := WordEnd(a, p);
        assert e < |a|;
        WordEndIs(a + b, p, e);
        WordRunsFromAppend(a, b, e);
        assert (a + b)[p..e] == a[p..e];
      } else {
        WordRunsFromAppend(a, b, p + 1);
      }
    }
  }

  lemma WordRunsAppend(a: string, b: string)
    requires a == [] || !IsWordChar(a[|a| - 1])
    ensures WordRuns(a + b) == WordRuns(a) + WordRuns(b)
  {
    WordRunsFromAppend(a, b, 0);
  }
}
