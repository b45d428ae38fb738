/** Python's `str.split('\n')` and `str.join`, on `seq<char>`. */
module Text {

  /** Number of newline characters in `s`. */
  function NewlineCount(s: string): nat {
    if s == [] then 0
    else (if s[0] == '\n' then 1 else 0) + NewlineCount(s[1..])
  }

  /** `s.split('\n')`: the pieces between newlines, including the empty
      pieces before a leading and after a trailing newline.  The empty text
      splits into one empty line. */
  function Split(s: string): (lines: seq<string>)
    ensures |lines| == NewlineCount(s) + 1
    ensures forall k :: 0 <= k < |lines| ==> '\n' !in lines[k]
  {
    if s == [] then [[]]
    else
      var rest := Split(s[1..]);
      if s[0] == '\n' then [[]] + rest
      else [[s[0]] + rest[0]] + rest[1..]
  }

  /** `sep.join(parts)`. */
  function Join(parts: seq<string>, sep: string): (r: string)
    ensures |parts| == 1 ==> r == parts[0]
  {
    if |parts| == 0 then []
    else if |parts| == 1 then parts[0]
    else parts[0] + sep + Join(parts[1..], sep)
  }

  /** The literal `lit` occurs in `s` at position `p`. */
  predicate LiteralAt(s: string, p: nat, lit: string)
    ensures LiteralAt(s, p, lit) ==> p + |lit| <= |s|
  {
    p + |lit| <= |s| && s[p..p + |lit|] == lit
  }

  /** The literal `lit` occurs somewhere in `s`. */
  predicate Occurs(s: string, lit: string) {
    exists off: nat :: off <= |s| && LiteralAt(s, off, lit)
  }

  /** A slice equals a literal that it matches character by character. */
  lemma SliceMatches(s: string, p: nat, lit: string)
    requires p + |lit| <= |s|
    requires forall k :: 0 <= k < |lit| ==> s[p + k] == lit[k]
    ensures s[p..p + |lit|] == lit
  {
  }

  /** A literal occurrence starts with the literal's first character. */
  lemma LiteralAtFirst(s: string, p: nat, lit: string)
    requires LiteralAt(s, p, lit) && |lit| > 0
    ensures s[p] == lit[0]
  {
    assert s[p..p + |lit|][0] == s[p];
  }

  /** Total length of a sequence of strings. */
  function TotalLength(parts: seq<string>): nat {
    if parts == [] then 0 else |parts[0]| + TotalLength(parts[1..])
  }

  /** Joining the lines back with newlines gives the original text. */
  lemma {:induction false} JoinSplit(s: string)
    ensures Join(Split(s), "\n") == s
  {
    if s != [] {
      var rest := Split(s[1..]);
      JoinSplit(s[1..]);
      if s[0] == '\n' {
        assert Split(s) == [[]] + rest;
        assert Split(s)[1..] == rest;
      } else {
        assert Split(s) == [[s[0]] + rest[0]] + rest[1..];
        if |rest| == 1 {
          assert Join(Split(s), "\n") == [s[0]] + rest[0];
        } else {
          assert Split(s)[1..] == rest[1..];
          assert Join(rest, "\n") == rest[0] + "\n" + Join(rest[1..], "\n");
          assert Join(Split(s), "\n") == [s[0]] + (rest[0] + "\n" + Join(rest[1..], "\n"));
        }
      }
    }
  }

  /** Splitting newline-free lines joined by newlines gives the lines back. */
  lemma {:induction false} SplitJoin(lines: seq<string>)
    requires |lines| > 0
    requires forall k :: 0 <= k < |lines| ==> '\n' !in lines[k]
    ensures Split(Join(lines, "\n")) == lines
  {
    if |lines| == 1 {
      SplitLine(lines[0]);
    } else {
      SplitJoin(lines[1..]);
      SplitPrefix(lines[0], Join(lines[1..], "\n"));
      assert [lines[0]] + lines[1..] == lines;
    }
  }

  /** A newline-free text is a single line. */
  lemma {:induction false} SplitLine(line: string)
    requires '\n' !in line
    ensures Split(line) == [line]
  {
    if line != [] {
      SplitLine(line[1..]);
      assert [line[0]] + line[1..] == line;
    }
  }

  /** A newline-free first line followed by a newline and the rest. */
  lemma {:induction false} SplitPrefix(line: string, rest: string)
    requires '\n' !in line
    ensures Split(line + "\n" + rest) == [line] + Split(rest)
  {
    if line == [] {
      assert line + "\n" + rest == "\n" + rest;
      assert ("\n" + rest)[1..] == rest;
    } else {
      var t := line + "\n" + rest;
      assert t[1..] == line[1..] + "\n" + rest;
      SplitPrefix(line[1..], rest);
      assert [line[0]] + line[1..] == line;
    }
  }

  /** The characters of the text other than newlines all sit in some line. */
  lemma {:induction false} SplitLength(s: string)
    ensures TotalLength(Split(s)) + NewlineCount(s) == |s|
  {
    if s != [] {
      SplitLength(s[1..]);
      var rest := Split(s[1..]);
      if s[0] == '\n' {
        assert Split(s)[1..] == rest;
      } else {
        assert Split(s)[1..] == rest[1..];
        assert TotalLength(rest) == |rest[0]| + TotalLength(rest[1..]);
      }
    }
  }

  /** A join starts with its first part. */
  lemma JoinStartsWithFirst(parts: seq<string>, sep: string)
    requires |parts| > 0
    ensures |parts[0]| <= |Join(parts, sep)| && Join(parts, sep)[..|parts[0]|] == parts[0]
  {
    if |parts| > 1 {
      assert (parts[0] + sep + Join(parts[1..], sep))[..|parts[0]|] == parts[0];
    }
  }

  /** Every part occurs in the join. */
  lemma {:induction false} JoinContains(parts: seq<string>, sep: string, k: nat)
    requires k < |parts|
    ensures Occurs(Join(parts, sep), parts[k])
  {
    if k == 0 {
      JoinStartsWithFirst(parts, sep);
      assert LiteralAt(Join(parts, sep), 0, parts[0]);
    } else {
      JoinContains(parts[1..], sep, k - 1);
      var rest := Join(parts[1..], sep);
      assert parts[1..][k - 1] == parts[k];
      var off: nat :| off <= |rest| && LiteralAt(rest, off, parts[k]);
      assert off + |parts[k]| <= |rest|;
      var pre := parts[0] + sep;
      assert Join(parts, sep) == pre + rest;
      assert (pre + rest)[|pre| + off..|pre| + off + |parts[k]|] == rest[off..off + |parts[k]|];
      assert LiteralAt(Join(parts, sep), |pre| + off, parts[k]);
    }
  }

  lemma {:induction false} TotalLengthAppend(a: seq<string>, b: seq<string>)
    ensures TotalLength(a + b) == TotalLength(a) + TotalLength(b)
  {
    if a == [] {
      assert a + b == b;
    } else {
      assert (a + b)[0] == a[0];
      assert (a + b)[1..] == a[1..] + b;
      TotalLengthAppend(a[1..], b);
    }
  }
}
