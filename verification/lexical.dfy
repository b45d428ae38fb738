/** The lexical pass: per line, how often each pattern of the token table
    matches, a row of `'x'` marks and running totals. */
module Lexical {
  import opened Chars
  import opened Text
  import opened Scan
  import opened Words

  /** The five entries of the token table. */
  datatype Category = PR | ID | NUM | SYM | ERR

  /** The token table's order, which is also the order of a row's cells. */
  const Categories: seq<Category> := [PR, ID, NUM, SYM, ERR]

  /** The cell of a row that records category `c`. */
  function Column(c: Category): (k: nat)
    ensures k < |Categories| && Categories[k] == c
  {
    match c
    case PR => 0
    case ID => 1
    case NUM => 2
    case SYM => 3
    case ERR => 4
  }

  /** The alternatives of the PR pattern, in the order they are tried. */
  const Keywords: seq<string> :=
    ["int", "for", "if", "else", "while", "return", "System", "out", "println"]

  /* Each `...MatchAt(s, i)` says that the category's pattern matches a
     substring of `s` that starts at `i`.  `Count` counts those positions;
     `FindAll` below is the left-to-right scan of `re.findall`, and
     `FindAllIsCount` shows that the two agree. */

  /** PR: `\b(int|for|if|else|while|return|System|out|println)\b`. */
  predicate KeywordMatchAt(s: string, i: nat)
    requires i < |s|
  {
    && Boundary(s, i)
    && exists n :: 0 <= n < |Keywords| && LiteralAt(s, i, Keywords[n]) && Boundary(s, i + |Keywords[n]|)
  }

  /** ID: `\b[a-zA-Z_][a-zA-Z_0-9]*\b`. */
  predicate IdentifierMatchAt(s: string, i: nat)
    requires i < |s|
  {
    && Boundary(s, i)
    && IsIdStart(s[i])
    && exists j :: i < j <= |s| && (forall k :: i < k < j ==> IsWordChar(s[k])) && Boundary(s, j)
  }

  /** NUM: `\b\d+\b`. */
  predicate NumberMatchAt(s: string, i: nat)
    requires i < |s|
  {
    && Boundary(s, i)
    && exists j :: i < j <= |s| && (forall k :: i <= k < j ==> IsDigit(s[k])) && Boundary(s, j)
  }

  /** Does the pattern of category `c` match at position `i`?  SYM is a
      one-character class; ERR is `.`, any character but a newline. */
  predicate MatchAt(c: Category, s: string, i: nat)
    requires i < |s|
  {
    match c
    case PR => KeywordMatchAt(s, i)
    case ID => IdentifierMatchAt(s, i)
    case NUM => NumberMatchAt(s, i)
    case SYM => IsSymbolChar(s[i])
    case ERR => s[i] != '\n'
  }

  /** Number of positions at or after `i` where the pattern of `c` matches. */
  function MatchesFrom(c: Category, s: string, i: nat): (n: nat)
    requires i <= |s|
    ensures n <= |s| - i
    decreases |s| - i
  {
    if i == |s| then 0
    else (if MatchAt(c, s, i) then 1 else 0) + MatchesFrom(c, s, i + 1)
  }

  /** `len(re.findall(pattern, line))` for the pattern of `c`, as the number
      of positions where a match starts. */
  function Count(c: Category, line: string): (n: nat)
    ensures n <= |line|
  {
    MatchesFrom(c, line, 0)
  }

  /** Where a match of `c` found at `i` ends: a word pattern consumes the
      whole word run (its closing `\b` admits no shorter match, as
      `KeywordMatchEnd`, `IdentifierMatchEnd` and `NumberMatchEnd` show); SYM and ERR consume one character. */
  function MatchEnd(c: Category, s: string, i: nat): (e: nat)
    requires i < |s|
    ensures i < e <= |s|
  {
    if (c == PR || c == ID || c == NUM) && IsWordChar(s[i]) then WordEnd(s, i) else i + 1
  }

  /** The number of matches `re.findall` returns from position `i`: the scan
      tries each position from the left and, after a match, resumes where it
      ended. */
  function FindAll(c: Category, s: string, i: nat): (n: nat)
    requires i <= |s|
    ensures n <= |s| - i
    decreases |s| - i
  {
    if i == |s| then 0
    else if MatchAt(c, s, i) then 1 + FindAll(c, s, MatchEnd(c, s, i))
    else FindAll(c, s, i + 1)
  }

  /** The content of a cell. */
  function Mark(hit: bool): string {
    if hit then "x" else ""
  }

  /** The row of one line: a cell per category, and a sixth cell that nothing writes. */
  function Row(line: string): (row: seq<string>)
    ensures |row| == 6 && row[5] == ""
    ensures forall c :: row[Column(c)] == "x" <==> exists i :: 0 <= i < |line| && MatchAt(c, line, i)
    ensures forall k :: 0 <= k < 6 ==> row[k] == "" || row[k] == "x"
  {
    MatchesFromPositive(PR, line, 0);
    MatchesFromPositive(ID, line, 0);
    MatchesFromPositive(NUM, line, 0);
    MatchesFromPositive(SYM, line, 0);
    MatchesFromPositive(ERR, line, 0);
    [ Mark(Count(PR, line) > 0), Mark(Count(ID, line) > 0), Mark(Count(NUM, line) > 0),
      Mark(Count(SYM, line) > 0), Mark(Count(ERR, line) > 0), "" ]
  }

  /** The running totals, one per category. */
  datatype Totals = Totals(pr: nat, id: nat, num: nat, sym: nat, err: nat) {

    function Get(c: Category): nat {
      match c
      case PR => pr
      case ID => id
      case NUM => num
      case SYM => sym
      case ERR => err
    }

    /** Adds `n` to the total of `c` and leaves the other totals alone. */
    function Add(c: Category, n: nat): (t: Totals)
      ensures t.Get(c) == Get(c) + n
      ensures forall d :: d != c ==> t.Get(d) == Get(d)
    {
      match c
      case PR => this.(pr := pr + n)
      case ID => this.(id := id + n)
      case NUM => this.(num := num + n)
      case SYM => this.(sym := sym + n)
      case ERR => this.(err := err + n)
    }
  }

  /** Sum over `lines` of the matches of category `c`. */
  function TotalOf(c: Category, lines: seq<string>): nat {
    if lines == [] then 0
    else TotalOf(c, lines[..|lines| - 1]) + Count(c, lines[|lines| - 1])
  }

  /** `analyze_lexical`: split on newlines; for every line build its row
      and add the line's matches to the totals. */
  method AnalyzeLexical(code: string) returns (rows: seq<seq<string>>, totals: Totals)
    requires IsAscii(code)
    ensures |rows| == NewlineCount(code) + 1
    ensures forall n :: 0 <= n < |rows| ==> rows[n] == Row(Split(code)[n])
    ensures forall c :: totals.Get(c) == TotalOf(c, Split(code))
  {
    var lines := Split(code);
    rows := [];
    totals := Totals(0, 0, 0, 0, 0);
    var n := 0;
    while n < |lines|
      invariant n <= |lines|
      invariant |rows| == n
      invariant forall m :: 0 <= m < n ==> rows[m] == Row(lines[m])
      invariant forall c :: totals.Get(c) == TotalOf(c, lines[..n])
    {
      var row;
      row, totals := AnalyzeLine(lines[n], totals);
      assert lines[..n + 1][..n] == lines[..n];
      rows := rows + [row];
      n := n + 1;
    }
    assert lines[..n] == lines;
  }

  /** The body of the outer loop: a fresh row of six empty cells, then every
      table entry in order. */
  method AnalyzeLine(line: string, totals: Totals) returns (row: seq<string>, totals': Totals)
    ensures row == Row(line)
    ensures forall c :: totals'.Get(c) == totals.Get(c) + Count(c, line)
  {
    row := ["", "", "", "", "", ""];
    totals' := totals;
    var t := 0;
    while t < |Categories|
      invariant t <= |Categories|
      invariant |row| == 6
      invariant forall k :: 0 <= k < t ==> row[k] == Row(line)[k]
      invariant forall k :: t <= k < 6 ==> row[k] == ""
      invariant forall c :: totals'.Get(c) == totals.Get(c) + (if Column(c) < t then Count(c, line) else 0)
    {
      row, totals' := AnalyzeCategory(Categories[t], line, row, totals');
      t := t + 1;
    }
  }

  /** The innermost loop: one step per match of the category's pattern, each
      adding one to its total and writing `'x'` into its cell. */
  method AnalyzeCategory(c: Category, line: string, row: seq<string>, totals: Totals)
    returns (row': seq<string>, totals': Totals)
    requires |row| == 6
    ensures row' == if Count(c, line) > 0 then row[Column(c) := "x"] else row
    ensures totals' == totals.Add(c, Count(c, line))
  {
    row', totals' := row, totals;
    ghost var found := 0;
    var i := 0;
    while i < |line|
      invariant i <= |line|
      invariant found + MatchesFrom(c, line, i) == Count(c, line)
      invariant row' == if found > 0 then row[Column(c) := "x"] else row
      invariant totals' == totals.Add(c, found)
    {
      if MatchAt(c, line, i) {
        totals' := totals'.Add(c, 1);
        row' := row'[Column(c) := "x"];
        found := found + 1;
      }
      i := i + 1;
    }
  }

  /** A category matched somewhere at or after `i` exactly when its count there is positive. */
  lemma {:induction false} MatchesFromPositive(c: Category, s: string, i: nat)
    requires i <= |s|
    ensures MatchesFrom(c, s, i) > 0 <==> exists k :: i <= k < |s| && MatchAt(c, s, k)
    decreases |s| - i
  {
    if i < |s| {
      MatchesFromPositive(c, s, i + 1);
      if exists k :: i <= k < |s| && MatchAt(c, s, k) {
        var k :| i <= k < |s| && MatchAt(c, s, k);
        assert k == i || (i + 1 <= k < |s| && MatchAt(c, s, k));
      }
    }
  }
}
