/** What the counts of the lexical pass amount to on ASCII text: ERR counts
    characters, SYM counts seventeen punctuation characters, and PR, ID and
    NUM count word runs of a given shape. */
module LexicalProperties {
  import opened Chars
  import opened Text
  import opened Scan
  import opened Words
  import opened Lexical

  /** Number of characters of `s` that belong to `cs`. */
  function CountIn(s: string, cs: set<char>): nat {
    if s == [] then 0 else (if s[0] in cs then 1 else 0) + CountIn(s[1..], cs)
  }

  lemma {:induction false} ErrMatchesFrom(s: string, i: nat)
    requires i <= |s| && '\n' !in s
    ensures MatchesFrom(ERR, s, i) == |s| - i
    decreases |s| - i
  {
    if i < |s| {
      assert s[i] in s;
      ErrMatchesFrom(s, i + 1);
    }
  }

  /** `.` matches every character of a line, since no line holds a newline. */
  lemma ErrCountIsLength(line: string)
    requires '\n' !in line
    ensures Count(ERR, line) == |line|
  {
    ErrMatchesFrom(line, 0);
  }

  lemma {:induction false} TotalErrIsLength(lines: seq<string>)
    requires forall k :: 0 <= k < |lines| ==> '\n' !in lines[k]
    ensures TotalOf(ERR, lines) == TotalLength(lines)
  {
    if lines != [] {
      var init, last := lines[..|lines| - 1], lines[|lines| - 1];
      TotalErrIsLength(init);
      ErrCountIsLength(last);
      assert lines == init + [last];
      TotalLengthAppend(init, [last]);
    }
  }

  /** The ERR total is the length of the text less its newlines. */
  lemma TotalErrOfText(code: string)
    ensures TotalOf(ERR, Split(code)) == |code| - NewlineCount(code)
  {
    TotalErrIsLength(Split(code));
    SplitLength(code);
  }

  lemma {:induction false} SymMatchesFrom(s: string, i: nat)
    requires i <= |s|
    ensures MatchesFrom(SYM, s, i) == CountIn(s[i..], SymbolList)
    decreases |s| - i
  {
    if i < |s| {
      SymbolClassIsList(s[i]);
      assert s[i..][1..] == s[i + 1..];
      SymMatchesFrom(s, i + 1);
    }
  }

  /** SYM counts the characters of `; { } ( ) [ ] = < > ! * + , - . /`. */
  lemma SymCountIsListed(line: string)
    ensures Count(SYM, line) == CountIn(line, SymbolList)
  {
    SymMatchesFrom(line, 0);
    assert line[0..] == line;
  }

  lemma {:induction false} SymAtMostErrFrom(s: string, i: nat)
    requires i <= |s|
    ensures MatchesFrom(SYM, s, i) <= MatchesFrom(ERR, s, i)
    decreases |s| - i
  {
    if i < |s| {
      if IsSymbolChar(s[i]) {
        SymbolIsNotWordOrSpace(s[i]);
      }
      SymAtMostErrFrom(s, i + 1);
    }
  }

  /** Every SYM match is also an ERR match. */
  lemma SymAtMostErr(line: string)
    ensures Count(SYM, line) <= Count(ERR, line)
  {
    SymAtMostErrFrom(line, 0);
  }

  /** The keywords are words that start like identifiers. */
  lemma KeywordShape(n: nat)
    requires n < |Keywords|
    ensures IsWord(Keywords[n]) && IsIdStart(Keywords[n][0])
    ensures Keywords[n][0] != '_'
  {
  }

  /** A keyword match is an identifier match at the same position. */
  lemma KeywordIsIdentifier(s: string, i: nat)
    requires i < |s| && KeywordMatchAt(s, i)
    ensures IdentifierMatchAt(s, i)
  {
    var n :| 0 <= n < |Keywords| && LiteralAt(s, i, Keywords[n]) && Boundary(s, i + |Keywords[n]|);
    KeywordShape(n);
    var kw := Keywords[n];
    assert forall k :: i <= k < i + |kw| ==> s[k] == kw[k - i];
    assert s[i] == kw[0];
  }

  lemma {:induction false} KeywordsAtMostIdentifiersFrom(s: string, i: nat)
    requires i <= |s|
    ensures MatchesFrom(PR, s, i) <= MatchesFrom(ID, s, i)
    decreases |s| - i
  {
    if i < |s| {
      if KeywordMatchAt(s, i) {
        KeywordIsIdentifier(s, i);
      }
      KeywordsAtMostIdentifiersFrom(s, i + 1);
    }
  }

  /** Per line, PR never exceeds ID: every keyword is also an identifier. */
  lemma KeywordsAtMostIdentifiers(line: string)
    ensures Count(PR, line) <= Count(ID, line)
  {
    KeywordsAtMostIdentifiersFrom(line, 0);
  }

  /** The categories whose patterns match whole word runs. */
  predicate IsWordCategory(c: Category) {
    c == PR || c == ID || c == NUM
  }

  /** The shape of word run that PR, ID and NUM accept. */
  predicate RunMatches(c: Category, r: string) {
    match c
    case PR => r in Keywords
    case ID => |r| > 0 && IsIdStart(r[0])
    case NUM => forall k :: 0 <= k < |r| ==> IsDigit(r[k])
    case _ => false
  }

  /** Number of runs in `runs` of the shape category `c` accepts. */
  function RunCount(c: Category, runs: seq<string>): nat {
    if runs == [] then 0
    else (if RunMatches(c, runs[0]) then 1 else 0) + RunCount(c, runs[1..])
  }

  /** The word patterns never match at a character outside a word. */
  lemma NoMatchOutsideWords(c: Category, s: string, i: nat)
    requires IsWordCategory(c) && i < |s| && !IsWordChar(s[i])
    ensures !MatchAt(c, s, i)
  {
    if c == PR && KeywordMatchAt(s, i) {
      var n :| 0 <= n < |Keywords| && LiteralAt(s, i, Keywords[n]) && Boundary(s, i + |Keywords[n]|);
      KeywordShape(n);
      assert false;
    }
  }

  /** Nor strictly inside a word run, where `\b` fails. */
  lemma {:induction false} NoMatchInsideRun(c: Category, s: string, a: nat, q: nat)
    requires IsWordCategory(c) && 0 < a <= q <= |s|
    requires forall k :: a - 1 <= k < q ==> IsWordChar(s[k])
    ensures MatchesFrom(c, s, a) == MatchesFrom(c, s, q)
    decreases q - a
  {
    if a < q {
      assert !Boundary(s, a);
      NoMatchInsideRun(c, s, a + 1, q);
    }
  }

  /** The scan of `re.findall` skips only the inside of the word run a match
      consumes, where nothing matches, so it finds a match at every position
      `Count` counts. */
  lemma {:induction false} FindAllIsMatchesFrom(c: Category, s: string, i: nat)
    requires i <= |s|
    ensures FindAll(c, s, i) == MatchesFrom(c, s, i)
    decreases |s| - i
  {
    if i < |s| {
      if !MatchAt(c, s, i) {
        FindAllIsMatchesFrom(c, s, i + 1);
      } else if !IsWordCategory(c) {
        FindAllIsMatchesFrom(c, s, i + 1);
      } else if IsWordChar(s[i]) {
        var e := WordEnd(s, i);
        NoMatchInsideRun(c, s, i + 1, e);
        FindAllIsMatchesFrom(c, s, e);
      } else {
        NoMatchOutsideWords(c, s, i);
      }
    }
  }

  /** An identifier match ends at the end of its word run: the only `j` the
      ID pattern's closing `\b` admits is `MatchEnd(ID, s, i)`. */
  lemma IdentifierMatchEnd(s: string, i: nat, j: nat)
    requires i < j <= |s| && Boundary(s, i) && IsIdStart(s[i])
    requires forall k :: i < k < j ==> IsWordChar(s[k])
    requires Boundary(s, j)
    ensures j == MatchEnd(ID, s, i)
  {
    WordEndIs(s, i, j);
  }

  /** A number match ends at the end of its word run. */
  lemma NumberMatchEnd(s: string, i: nat, j: nat)
    requires i < j <= |s| && Boundary(s, i)
    requires forall k :: i <= k < j ==> IsDigit(s[k])
    requires Boundary(s, j)
    ensures j == MatchEnd(NUM, s, i)
  {
    WordEndIs(s, i, j);
  }

  /** Per line, the scan's number of matches is `Count`. */
  lemma FindAllIsCount(c: Category, line: string)
    ensures FindAll(c, line, 0) == Count(c, line)
  {
    FindAllIsMatchesFrom(c, line, 0);
  }

  /** A keyword match ends where the word run it starts ends. */
  lemma KeywordMatchEnd(s: string, i: nat, n: nat)
    requires i < |s| && n < |Keywords| && Boundary(s, i)
    requires LiteralAt(s, i, Keywords[n]) && Boundary(s, i + |Keywords[n]|)
    ensures i + |Keywords[n]| == MatchEnd(PR, s, i)
  {
    KeywordShape(n);
    assert s[i..i + |Keywords[n]|][0] == s[i];
    var q := WordEnd(s, i);
    assert IsRun(s, i, q);
    KeywordMatchCoversRun(s, i, q, n);
  }

  /** A keyword match at the start of a run covers the whole run. */
  lemma KeywordMatchCoversRun(s: string, p: nat, q: nat, n: nat)
    requires IsRun(s, p, q) && n < |Keywords|
    requires LiteralAt(s, p, Keywords[n]) && Boundary(s, p + |Keywords[n]|)
    ensures s[p..q] == Keywords[n]
  {
    KeywordShape(n);
    var kw := Keywords[n];
    var e := p + |kw|;
    assert forall k :: p <= k < e ==> s[k] == kw[k - p];
    assert IsWordChar(s[e - 1]);
    assert IsRun(s, p, e);
    RunIsWordEnd(s, p, e);
    RunIsWordEnd(s, p, q);
  }

  lemma KeywordAtRunStart(s: string, p: nat, q: nat)
    requires IsRun(s, p, q)
    ensures KeywordMatchAt(s, p) <==> s[p..q] in Keywords
  {
    assert Boundary(s, p) && Boundary(s, q);
    if KeywordMatchAt(s, p) {
      var n :| 0 <= n < |Keywords| && LiteralAt(s, p, Keywords[n]) && Boundary(s, p + |Keywords[n]|);
      KeywordMatchCoversRun(s, p, q, n);
    }
    if s[p..q] in Keywords {
      var n :| 0 <= n < |Keywords| && Keywords[n] == s[p..q];
      assert LiteralAt(s, p, Keywords[n]);
    }
  }

  lemma IdentifierAtRunStart(s: string, p: nat, q: nat)
    requires IsRun(s, p, q)
    ensures IdentifierMatchAt(s, p) <==> IsIdStart(s[p])
  {
    assert Boundary(s, p) && Boundary(s, q);
    if IsIdStart(s[p]) {
      assert q <= |s| && (forall k :: p < k < q ==> IsWordChar(s[k])) && Boundary(s, q);
    }
  }

  lemma NumberAtRunStart(s: string, p: nat, q: nat)
    requires IsRun(s, p, q)
    ensures NumberMatchAt(s, p) <==> forall k :: p <= k < q ==> IsDigit(s[k])
  {
    assert Boundary(s, p) && Boundary(s, q);
    if NumberMatchAt(s, p) {
      var j :| p < j <= |s| && (forall k :: p <= k < j ==> IsDigit(s[k])) && Boundary(s, j);
      assert IsRun(s, p, j);
      RunIsWordEnd(s, p, j);
      RunIsWordEnd(s, p, q);
    }
  }

  /** At the start of a word run, a word pattern matches exactly when the
      whole run has the pattern's shape. */
  lemma MatchAtRunStart(c: Category, s: string, p: nat, q: nat)
    requires IsWordCategory(c) && IsRun(s, p, q)
    ensures MatchAt(c, s, p) <==> RunMatches(c, s[p..q])
  {
    match c
    case PR => KeywordAtRunStart(s, p, q);
    case ID => IdentifierAtRunStart(s, p, q);
    case NUM =>
      NumberAtRunStart(s, p, q);
      assert forall k :: p <= k < q ==> s[p..q][k - p] == s[k];
  }

  lemma {:induction false} RunCountsFrom(c: Category, s: string, p: nat)
    requires IsWordCategory(c) && p <= |s| && Outside(s, p)
    ensures MatchesFrom(c, s, p) == RunCount(c, WordRunsFrom(s, p))
    decreases |s| - p
  {
    if p < |s| {
      if !IsWordChar(s[p]) {
        NoMatchOutsideWords(c, s, p);
        RunCountsFrom(c, s, p + 1);
      } else {
        var q := WordEnd(s, p);
        assert IsRun(s, p, q);
        MatchAtRunStart(c, s, p, q);
        NoMatchInsideRun(c, s, p + 1, q);
        RunCountsFrom(c, s, q);
        var runs := WordRunsFrom(s, p);
        assert runs == [s[p..q]] + WordRunsFrom(s, q);
        assert runs[1..] == WordRunsFrom(s, q);
      }
    }
  }

  /** PR, ID and NUM count the word runs of the line that are a keyword, that
      start with a letter or `_`, and that are all digits, respectively. */
  lemma WordRunCounts(c: Category, line: string)
    requires IsWordCategory(c)
    ensures Count(c, line) == RunCount(c, WordRuns(line))
  {
    RunCountsFrom(c, line, 0);
  }

  lemma {:induction false} IdentifierAndNumberRunsDisjoint(runs: seq<string>)
    requires forall k :: 0 <= k < |runs| ==> IsWord(runs[k])
    ensures RunCount(ID, runs) + RunCount(NUM, runs) <= |runs|
  {
    if runs != [] {
      IdentifierAndNumberRunsDisjoint(runs[1..]);
    }
  }

  /** No word run is both an identifier and a number. */
  lemma IdentifiersAndNumbersAtMostRuns(line: string)
    ensures Count(ID, line) + Count(NUM, line) <= |WordRuns(line)|
  {
    WordRunCounts(ID, line);
    WordRunCounts(NUM, line);
    IdentifierAndNumberRunsDisjoint(WordRuns(line));
  }

  /** The empty text still yields one row, all of whose cells are empty, and zero totals. */
  lemma EmptyText()
    ensures Split("") == [""]
    ensures Row("") == ["", "", "", "", "", ""]
    ensures forall c :: TotalOf(c, Split("")) == 0
  {
    assert Split("")[..0] == [];
  }
}
