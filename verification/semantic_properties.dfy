/** Properties of the semantic pass. */
module SemanticProperties {
  import opened Chars
  import opened Text
  import opened Scan
  import opened Words
  import Lexical
  import opened Semantic
  import SyntacticProperties

  /** The standard names are exactly the alternatives of the keyword pattern
      of the token table. */
  lemma StandardKeywordsAreTokenKeywords()
    ensures StandardKeywords == set n | 0 <= n < |Lexical.Keywords| :: Lexical.Keywords[n]
  {
    var table := set n | 0 <= n < |Lexical.Keywords| :: Lexical.Keywords[n];
    assert Lexical.Keywords[0] == "int" && Lexical.Keywords[1] == "for" && Lexical.Keywords[2] == "if";
    assert Lexical.Keywords[3] == "else" && Lexical.Keywords[4] == "while" && Lexical.Keywords[5] == "return";
    assert Lexical.Keywords[6] == "System" && Lexical.Keywords[7] == "out" && Lexical.Keywords[8] == "println";
    assert "int" in table && "for" in table && "if" in table && "else" in table && "while" in table;
    assert "return" in table && "System" in table && "out" in table && "println" in table;
  }

  /** The name `TypedName` captures is a whole word run of the text. */
  lemma TypedNameIsRun(s: string, p: nat)
    requires p <= |s| && TypedName(s, p).Some?
    ensures IsRun(s, TypedName(s, p).value.0, TypedName(s, p).value.1)
  {
    var q := TypedName(s, p).value.0;
    assert IsSpace(s[q - 1]);
  }

  /** A declaration starts with its keyword. */
  lemma DeclarationStartsWithInt(s: string, i: nat)
    requires i <= |s| && IntDeclarationAt(s, i).Some?
    ensures Boundary(s, i) && i < |s| && s[i] == 'i'
  {
    assert LiteralAt(s, i, "int");
    assert s[i..i + 3][0] == s[i];
  }

  /** Every declared name is also a used name. */
  lemma DeclaredAreUsed(s: string)
    ensures Declared(s) <= Used(s)
  {
    forall v | v in Declared(s)
      ensures v in Used(s)
    {
      if v in IntDeclared(s) {
        IntDeclaredIsUsed(s, v);
      } else {
        ForDeclaredIsUsed(s, v);
      }
    }
  }

  lemma IntDeclaredIsUsed(s: string, v: string)
    requires v in IntDeclared(s)
    ensures v in Used(s)
  {
    var i :| 0 <= i <= |s| && IntDeclarationAt(s, i).Some? && IntDeclarationAt(s, i).value == v;
    var name := TypedName(s, i).value;
    TypedNameIsRun(s, i);
    RunIsUsed(s, name.0, name.1);
  }

  lemma ForDeclaredIsUsed(s: string, v: string)
    requires v in ForDeclared(s)
    ensures v in Used(s)
  {
    var i :| 0 <= i <= |s| && ForDeclarationAt(s, i).Some? && ForDeclarationAt(s, i).value == v;
    ForMatchNameIsRun(s, i);
    var m := ForMatch(s, i).value;
    RunIsUsed(s, m.0, m.1);
  }

  lemma ForMatchNameIsRun(s: string, i: nat)
    requires i <= |s| && ForMatch(s, i).Some?
    ensures IsRun(s, ForMatch(s, i).value.0, ForMatch(s, i).value.1)
  {
    var p := ForParenthesis(s, i).value;
    TypedNameIsRun(s, p);
  }

  lemma RunIsUsed(s: string, p: nat, q: nat)
    requires IsRun(s, p, q)
    ensures s[p..q] in Used(s)
  {
    WordRunsMembers(s, s[p..q]);
  }

  /** The `int` inside a `for (int v = n;` header is itself matched by the
      `int` declaration pattern, with the same name. */
  lemma ForDeclarationIsIntDeclaration(s: string, i: nat)
    requires i <= |s| && ForDeclarationAt(s, i).Some?
    ensures exists j :: 0 <= j <= |s| && IntDeclarationAt(s, j) == ForDeclarationAt(s, i)
  {
    var j := ForParenthesis(s, i).value;
    var name := TypedName(s, j).value;
    var e := SpacesEnd(s, name.1);
    var d := Initialiser(s, e).value;
    TypedNameAfterParenthesis(s, i);
    assert LiteralAt(s, e, "=");
    assert LiteralAt(s, SpacesEnd(s, d), ";");
    DeclarationFromParts(s, j);
  }

  /** The `int` after `for (` starts at a word boundary. */
  lemma TypedNameAfterParenthesis(s: string, i: nat)
    requires i <= |s| && ForParenthesis(s, i).Some?
    requires TypedName(s, ForParenthesis(s, i).value).Some?
    ensures Boundary(s, ForParenthesis(s, i).value)
  {
    var j := ForParenthesis(s, i).value;
    assert LiteralAt(s, j, "int");
    assert s[j..j + 3][0] == s[j];
    assert s[j - 1] == '(' || IsSpace(s[j - 1]);
  }

  /** The `int` pattern assembled from its stages, taking the initialiser. */
  lemma DeclarationFromParts(s: string, i: nat)
    requires i <= |s| && Boundary(s, i) && TypedName(s, i).Some?
    requires LiteralAt(s, SpacesEnd(s, TypedName(s, i).value.1), "=")
    requires Initialiser(s, SpacesEnd(s, TypedName(s, i).value.1)).Some?
    requires LiteralAt(s, SpacesEnd(s, Initialiser(s, SpacesEnd(s, TypedName(s, i).value.1)).value), ";")
    ensures IntDeclarationAt(s, i) == Some(s[TypedName(s, i).value.0..TypedName(s, i).value.1])
  {
  }

  /** So the second declaration search finds nothing the first does not:
      the declared names are the names of the `int` declarations. */
  lemma ForDeclaredSubsumed(s: string)
    ensures ForDeclared(s) <= IntDeclared(s)
    ensures Declared(s) == IntDeclared(s)
  {
    forall v | v in ForDeclared(s)
      ensures v in IntDeclared(s)
    {
      var i :| 0 <= i <= |s| && ForDeclarationAt(s, i).Some? && ForDeclarationAt(s, i).value == v;
      ForDeclarationIsIntDeclaration(s, i);
    }
  }

  /** A name is reported exactly when it is a maximal word run of the text,
      is not declared, is not a standard name and is not all digits. */
  lemma UndeclaredMembers(s: string, v: string)
    ensures v in Undeclared(s) <==>
      && (exists i, j :: IsRun(s, i, j) && s[i..j] == v)
      && v !in IntDeclared(s)
      && v !in StandardKeywords
      && !IsNumeral(v)
  {
    WordRunsMembers(s, v);
    ForDeclaredSubsumed(s);
  }

  /* `re.findall` resumes after each match.  Two `int` declaration matches
     never overlap, so the scan meets every position where the pattern
     matches; the `for` scan only finds names the `int` scan finds too. */

  /** What `int\s+(\w+)` consumed: the keyword, whitespace up to the name,
      and the name as a greedy run of word characters. */
  lemma TypedNameShape(s: string, p: nat)
    requires p <= |s| && TypedName(s, p).Some?
    ensures p + 3 < |s| && s[p] == 'i' && s[p + 1] == 'n' && s[p + 2] == 't' && IsSpace(s[p + 3])
    ensures TypedName(s, p).value.0 == SpacesEnd(s, p + 3)
    ensures TypedName(s, p).value.1 == WordEnd(s, TypedName(s, p).value.0)
    ensures IsWordChar(s[TypedName(s, p).value.0])
  {
    assert LiteralAt(s, p, "int");
    assert s[p..p + 3][0] == s[p] && s[p..p + 3][1] == s[p + 1] && s[p..p + 3][2] == s[p + 2];
  }

  /** After a name ending at `b`: whitespace, then either `=` with an
      initialiser, whitespace and `;`, or `;` alone; the match ends at `end`. */
  predicate DeclarationTail(s: string, b: nat, end: nat) {
    b <= |s| &&
    var e := SpacesEnd(s, b);
    if LiteralAt(s, e, "=") then
      && Initialiser(s, e).Some?
      && LiteralAt(s, SpacesEnd(s, Initialiser(s, e).value), ";")
      && end == SpacesEnd(s, Initialiser(s, e).value) + 1
    else
      LiteralAt(s, e, ";") && end == e + 1
  }

  /** An `int` declaration match is the typed name followed by its tail. */
  lemma IntMatchEnd(s: string, i: nat)
    requires i <= |s| && IntMatch(s, i).Some?
    ensures TypedName(s, i) == Some((IntMatch(s, i).value.0, IntMatch(s, i).value.1))
    ensures DeclarationTail(s, IntMatch(s, i).value.1, IntMatch(s, i).value.2)
  {
  }

  /** The character at the end of the whitespace after the name. */
  lemma TailSeparator(s: string, b: nat, end: nat)
    requires DeclarationTail(s, b, end)
    ensures SpacesEnd(s, b) < |s| && !IsWordChar(s[SpacesEnd(s, b)])
  {
    var e := SpacesEnd(s, b);
    if LiteralAt(s, e, "=") {
      LiteralAtFirst(s, e, "=");
    } else {
      LiteralAtFirst(s, e, ";");
    }
  }

  /** What `=\s*\d+` consumed. */
  lemma InitialiserShape(s: string, e: nat)
    requires e <= |s| && Initialiser(s, e).Some?
    ensures LiteralAt(s, e, "=")
    ensures SpacesEnd(s, e + 1) < Initialiser(s, e).value == DigitsEnd(s, SpacesEnd(s, e + 1))
  {
  }

  /** From just after `=` to the closing `;`, only whitespace, digits and the
      `;` occur. */
  lemma InitialiserTail(s: string, e: nat, j: nat)
    requires e <= |s| && Initialiser(s, e).Some?
    requires LiteralAt(s, SpacesEnd(s, Initialiser(s, e).value), ";")
    requires e < j <= SpacesEnd(s, Initialiser(s, e).value)
    ensures s[j] != 'i'
  {
    var d := Initialiser(s, e).value;
    var g := SpacesEnd(s, d);
    var f := SpacesEnd(s, e + 1);
    InitialiserShape(s, e);
    if j == g {
      LiteralAtFirst(s, g, ";");
    } else if j < f {
      assert IsSpace(s[j]);
    } else if j < d {
      assert IsDigit(s[j]);
    } else {
      assert IsSpace(s[j]);
    }
  }

  /** From the end of the whitespace after the name to the end of the match,
      no `i` occurs. */
  lemma TailHasNoI(s: string, b: nat, end: nat, j: nat)
    requires DeclarationTail(s, b, end)
    requires SpacesEnd(s, b) <= j < end
    ensures s[j] != 'i'
  {
    var e := SpacesEnd(s, b);
    TailSeparator(s, b, end);
    if e < j && LiteralAt(s, e, "=") {
      InitialiserTail(s, e, j);
    }
  }

  /** Inside an `int` declaration match the only word boundary at an `i` is
      the start of the captured name. */
  lemma InsideIntMatch(s: string, i: nat, j: nat)
    requires i <= |s| && IntMatch(s, i).Some?
    requires i < j < IntMatch(s, i).value.2 && Boundary(s, j) && s[j] == 'i'
    ensures j == IntMatch(s, i).value.0
  {
    var b, end := IntMatch(s, i).value.1, IntMatch(s, i).value.2;
    IntMatchEnd(s, i);
    TypedNameShape(s, i);
    if SpacesEnd(s, b) <= j {
      TailHasNoI(s, b, end, j);
    }
  }

  /** Where `int\s+(\w+)` matches, the word run at its start is `int` alone
      and the captured name starts after the whitespace behind it. */
  lemma TypedNameRun(s: string, p: nat)
    requires p <= |s|
    ensures TypedName(s, p).Some? ==>
      && p + 3 <= |s| && WordEnd(s, p) == p + 3
      && TypedName(s, p).value.0 == SpacesEnd(s, p + 3)
      && IsWordChar(s[TypedName(s, p).value.0])
  {
    if TypedName(s, p).Some? {
      TypedNameShape(s, p);
      WordEndIs(s, p, p + 3);
    }
  }

  /** The captured name never starts a declaration match of its own: that
      would need whitespace after its first three letters, and then a name
      where the first match has `=` or `;`. */
  lemma NameStartsNoIntMatch(s: string, i: nat)
    requires i <= |s| && IntMatch(s, i).Some?
    ensures IntMatch(s, IntMatch(s, i).value.0).None?
  {
    var a, b := IntMatch(s, i).value.0, IntMatch(s, i).value.1;
    IntMatchEnd(s, i);
    TypedNameShape(s, i);
    TailSeparator(s, b, IntMatch(s, i).value.2);
    TypedNameRun(s, a);
  }

  /** No `int` declaration match starts strictly inside another. */
  lemma IntMatchesDisjoint(s: string, i: nat, j: nat)
    requires i <= |s| && IntMatch(s, i).Some?
    requires i < j < IntMatch(s, i).value.2
    ensures IntMatch(s, j).None?
  {
    if IntMatch(s, j).Some? {
      IntMatchEnd(s, j);
      TypedNameShape(s, j);
      InsideIntMatch(s, i, j);
      NameStartsNoIntMatch(s, i);
    }
  }

  /** The `int` scan from `p` finds the name of every match at or after `p`. */
  lemma {:induction false} FindAllIntComplete(s: string, p: nat, i: nat)
    requires p <= i <= |s| && IntMatch(s, i).Some?
    ensures IntDeclarationAt(s, i).value in FindAll(IntPattern, s, p)
    decreases |s| - p
  {
    var m := IntMatch(s, i).value;
    match IntMatch(s, p)
    case Some(mp) =>
      if p < i {
        if i < mp.2 {
          IntMatchesDisjoint(s, p, i);
        } else {
          FindAllIntComplete(s, mp.2, i);
        }
      }
    case None =>
      FindAllIntComplete(s, p + 1, i);
  }

  /** The names the two `re.findall` scans return are the declared names,
      and the `int` scan alone already returns all of them. */
  lemma FindAllDeclared(s: string)
    ensures (set v | v in FindAll(IntPattern, s, 0)) + (set v | v in FindAll(ForPattern, s, 0)) == Declared(s)
    ensures (set v | v in FindAll(IntPattern, s, 0)) == Declared(s)
  {
    ForDeclaredSubsumed(s);
    forall v | v in FindAll(IntPattern, s, 0)
      ensures v in IntDeclared(s)
    {
      var i :| 0 <= i <= |s| && MatchOf(IntPattern, s, i).Some? &&
        v == s[MatchOf(IntPattern, s, i).value.0..MatchOf(IntPattern, s, i).value.1];
      assert IntDeclarationAt(s, i).value == v;
    }
    forall v | v in FindAll(ForPattern, s, 0)
      ensures v in ForDeclared(s)
    {
      var i :| 0 <= i <= |s| && MatchOf(ForPattern, s, i).Some? &&
        v == s[MatchOf(ForPattern, s, i).value.0..MatchOf(ForPattern, s, i).value.1];
      assert ForDeclarationAt(s, i).value == v;
    }
    forall v | v in IntDeclared(s)
      ensures v in FindAll(IntPattern, s, 0)
    {
      var i :| 0 <= i <= |s| && IntDeclarationAt(s, i).Some? && IntDeclarationAt(s, i).value == v;
      FindAllIntComplete(s, 0, i);
    }
  }

  /* The semantic message reports each flagged name exactly once. */

  /** Different names give different reports. */
  lemma UndeclaredErrorInjective(v: string, w: string)
    requires UndeclaredError(v) == UndeclaredError(w)
    ensures v == w
  {
    var prefix := "Variable no declarada: '";
    assert |prefix| == 24;
    assert |v| == |w|;
    forall i | 0 <= i < |v|
      ensures v[i] == w[i]
    {
      assert UndeclaredError(v)[24 + i] == v[i];
      assert UndeclaredError(w)[24 + i] == w[i];
    }
  }

  /** There are as many reports as names. */
  lemma {:induction false} ReportsCount(names: set<string>)
    ensures |set v | v in names :: UndeclaredError(v)| == |names|
    decreases |names|
  {
    if names != {} {
      var x :| x in names;
      var rest := names - {x};
      ReportsCount(rest);
      var image := set v | v in rest :: UndeclaredError(v);
      assert (set v | v in names :: UndeclaredError(v)) == image + {UndeclaredError(x)};
      if UndeclaredError(x) in image {
        var y :| y in rest && UndeclaredError(y) == UndeclaredError(x);
        UndeclaredErrorInjective(y, x);
      }
    }
  }

  /** A sequence has at least as many elements as distinct values. */
  lemma {:induction false} DistinctAtMostLength(s: seq<string>)
    ensures |set p | p in s| <= |s|
  {
    if s != [] {
      DistinctAtMostLength(s[1..]);
      assert (set p | p in s) == {s[0]} + (set p | p in s[1..]);
    }
  }

  /** A sequence with a repeated element has fewer distinct values than
      elements. */
  lemma RepeatShrinks(s: seq<string>, i: nat, j: nat)
    requires i < j < |s| && s[i] == s[j]
    ensures |set p | p in s| < |s|
  {
    var t := s[..j] + s[j + 1..];
    assert (set p | p in s) == (set p | p in t) by {
      forall p | p in s
        ensures p in t
      {
        var k :| 0 <= k < |s| && s[k] == p;
        if k == j {
          assert t[i] == p;
        } else if k < j {
          assert t[k] == p;
        } else {
          assert t[k - 1] == p;
        }
      }
    }
    DistinctAtMostLength(t);
  }

  /** Parts that are the reports of the names, as many as there are names,
      report each name once: no report repeats. */
  lemma ReportsOnce(parts: seq<string>, names: set<string>)
    requires ReportsOf(parts, names) && |parts| == |names|
    ensures forall i, j :: 0 <= i < j < |parts| ==> parts[i] != parts[j]
  {
    ReportsCount(names);
    forall i, j | 0 <= i < j < |parts|
      ensures parts[i] != parts[j]
    {
      if parts[i] == parts[j] {
        RepeatShrinks(parts, i, j);
      }
    }
  }

  /* Worked examples.  Positions are 0-based. */

  /** A declaration whose initialiser is a name: the `int` pattern needs
      digits after `=`, so `x` is not declared either. */
  const NameInitialiser: string := "int x = y;"

  lemma NameInitialiserRuns()
    ensures WordRuns(NameInitialiser) == ["int", "x", "y"]
  {
    var s := NameInitialiser;
    TakeRun(s, 0, 3);
    SkipNonWord(s, 3, 4);
    TakeRun(s, 4, 5);
    SkipNonWord(s, 5, 8);
    TakeRun(s, 8, 9);
    SkipNonWord(s, 9, 10);
    assert s[0..3] == "int" && s[4..5] == "x" && s[8..9] == "y";
  }

  lemma NameInitialiserAtStart()
    ensures IntDeclarationAt(NameInitialiser, 0).None?
  {
    var s := NameInitialiser;
    assert LiteralAt(s, 0, "int");
    SpacesEndIs(s, 3, 4);
    WordEndIs(s, 4, 5);
    assert TypedName(s, 0) == Some((4, 5));
    SpacesEndIs(s, 5, 6);
    LiteralChar(s, 6, '=');
    SpacesEndIs(s, 7, 8);
    assert Initialiser(s, 6).None?;
  }

  lemma NameInitialiserNoOtherInt(i: nat)
    requires 0 < i <= |NameInitialiser|
    ensures IntDeclarationAt(NameInitialiser, i).None?
  {
    if IntDeclarationAt(NameInitialiser, i).Some? {
      DeclarationStartsWithInt(NameInitialiser, i);
      assert false;
    }
  }

  lemma NameInitialiserUndeclared()
    ensures IntDeclared(NameInitialiser) == {}
  {
    forall v | v in IntDeclared(NameInitialiser)
      ensures false
    {
      var i :| 0 <= i <= |NameInitialiser| && IntDeclarationAt(NameInitialiser, i).Some?;
      if i == 0 {
        NameInitialiserAtStart();
      } else {
        NameInitialiserNoOtherInt(i);
      }
    }
  }

  lemma NameInitialiserVerdict()
    ensures AnalyzeSemantic(NameInitialiser).verdict == NotDeclared({"x", "y"})
  {
    NameInitialiserRuns();
    NameInitialiserUndeclared();
    ForDeclaredSubsumed(NameInitialiser);
    OnlyXAndYUndeclared(NameInitialiser);
  }

  lemma OnlyXAndYUndeclared(s: string)
    requires WordRuns(s) == ["int", "x", "y"]
    requires Declared(s) == {}
    ensures Undeclared(s) == {"x", "y"}
  {
    NameInitialiserUsed(s);
    NameInitialiserFilter(s);
  }

  lemma NameInitialiserUsed(s: string)
    requires WordRuns(s) == ["int", "x", "y"]
    ensures Used(s) == {"int", "x", "y"}
  {
  }

  lemma NameInitialiserFilter(s: string)
    requires Used(s) == {"int", "x", "y"} && Declared(s) == {}
    ensures Undeclared(s) == {"x", "y"}
  {
    assert Used(s) - Declared(s) - StandardKeywords == {"x", "y"};
    assert "x"[0] == 'x' && "y"[0] == 'y';
  }

  /** A declaration with an initialiser, step by step: `a..b` is the name,
      `c..d` the number. */
  lemma InitialisedDeclaration(s: string, i: nat, a: nat, b: nat, c: nat, d: nat)
    requires i + 3 < a < b <= |s|
    requires Boundary(s, i) && LiteralAt(s, i, "int")
    requires SpacesEnd(s, i + 3) == a && WordEnd(s, a) == b
    requires LiteralAt(s, SpacesEnd(s, b), "=")
    requires SpacesEnd(s, SpacesEnd(s, b) + 1) == c < d && DigitsEnd(s, c) == d
    requires LiteralAt(s, SpacesEnd(s, d), ";")
    ensures IntDeclarationAt(s, i) == Some(s[a..b])
  {
    assert TypedName(s, i) == Some((a, b));
    assert Initialiser(s, SpacesEnd(s, b)) == Some(d);
    DeclarationFromParts(s, i);
  }

  /** A declared name and an undeclared one; the standard names and the
      number are not reported. */
  const UndeclaredArgument: string := "int x = 5; System.out.println(y);"

  lemma UndeclaredArgumentRunsHead(s: string)
    requires s == UndeclaredArgument
    ensures Gap(s, 0, 0) && IsRun(s, 0, 3) && Gap(s, 3, 4) && IsRun(s, 4, 5) && Gap(s, 5, 8)
  {
  }

  lemma UndeclaredArgumentRunsMiddle(s: string)
    requires s == UndeclaredArgument
    ensures IsRun(s, 8, 9) && Gap(s, 9, 11) && IsRun(s, 11, 17) && Gap(s, 17, 18)
  {
  }

  lemma UndeclaredArgumentRunsTail(s: string)
    requires s == UndeclaredArgument
    ensures IsRun(s, 18, 21) && Gap(s, 21, 22) && IsRun(s, 22, 29) && Gap(s, 29, 30)
    ensures IsRun(s, 30, 31) && Gap(s, 31, |s|)
  {
  }

  lemma UndeclaredArgumentSlices(s: string)
    requires s == UndeclaredArgument
    ensures s[0..3] == "int" && s[4..5] == "x" && s[8..9] == "5" && s[11..17] == "System"
    ensures s[18..21] == "out" && s[22..29] == "println" && s[30..31] == "y"
  {
    SliceMatches(s, 0, "int");
    SliceMatches(s, 4, "x");
    SliceMatches(s, 8, "5");
    SliceMatches(s, 11, "System");
    SliceMatches(s, 18, "out");
    SliceMatches(s, 22, "println");
    SliceMatches(s, 30, "y");
  }

  lemma UndeclaredArgumentTiling(s: string)
    requires Gap(s, 0, 0) && IsRun(s, 0, 3) && Gap(s, 3, 4) && IsRun(s, 4, 5) && Gap(s, 5, 8)
    requires IsRun(s, 8, 9) && Gap(s, 9, 11) && IsRun(s, 11, 17) && Gap(s, 17, 18)
    requires IsRun(s, 18, 21) && Gap(s, 21, 22) && IsRun(s, 22, 29) && Gap(s, 29, 30)
    requires IsRun(s, 30, 31) && Gap(s, 31, |s|)
    ensures WordRuns(s) == [s[0..3], s[4..5], s[8..9], s[11..17], s[18..21], s[22..29], s[30..31]]
  {
    TilesCons(s, 29, 30, 31, []);
    TilesCons(s, 21, 22, 29, [(30, 31)]);
    TilesCons(s, 17, 18, 21, [(22, 29), (30, 31)]);
    TilesCons(s, 9, 11, 17, [(18, 21), (22, 29), (30, 31)]);
    TilesCons(s, 5, 8, 9, [(11, 17), (18, 21), (22, 29), (30, 31)]);
    TilesCons(s, 3, 4, 5, [(8, 9), (11, 17), (18, 21), (22, 29), (30, 31)]);
    TilesCons(s, 0, 0, 3, [(4, 5), (8, 9), (11, 17), (18, 21), (22, 29), (30, 31)]);
    TilesRuns(s, 0, [(0, 3), (4, 5), (8, 9), (11, 17), (18, 21), (22, 29), (30, 31)]);
  }

  lemma UndeclaredArgumentRuns(s: string)
    requires s == UndeclaredArgument
    ensures WordRuns(s) == ["int", "x", "5", "System", "out", "println", "y"]
  {
    UndeclaredArgumentRunsHead(s);
    UndeclaredArgumentRunsMiddle(s);
    UndeclaredArgumentRunsTail(s);
    UndeclaredArgumentTiling(s);
    UndeclaredArgumentSlices(s);
  }

  lemma UndeclaredArgumentName(s: string)
    requires s == UndeclaredArgument
    ensures Boundary(s, 0) && LiteralAt(s, 0, "int") && SpacesEnd(s, 3) == 4 && WordEnd(s, 4) == 5
  {
    SliceMatches(s, 0, "int");
    SpacesEndIs(s, 3, 4);
    WordEndIs(s, 4, 5);
  }

  lemma UndeclaredArgumentInitialiser(s: string)
    requires s == UndeclaredArgument
    ensures SpacesEnd(s, 5) == 6 && LiteralAt(s, 6, "=") && SpacesEnd(s, 7) == 8
    ensures DigitsEnd(s, 8) == 9 && SpacesEnd(s, 9) == 9 && LiteralAt(s, 9, ";")
  {
    LiteralChar(s, 6, '=');
    LiteralChar(s, 9, ';');
    SpacesEndIs(s, 5, 6);
    SpacesEndIs(s, 7, 8);
    DigitsEndIs(s, 8, 9);
    SpacesEndIs(s, 9, 9);
  }

  /** The only other `i` is inside `println`. */
  lemma UndeclaredArgumentOtherI(s: string)
    requires s == UndeclaredArgument
    ensures forall i :: 0 < i < |s| && s[i] == 'i' ==> i == 24
    ensures !Boundary(s, 24)
  {
  }

  lemma UndeclaredArgumentDeclared(s: string)
    requires s == UndeclaredArgument
    ensures IntDeclared(s) == {"x"}
  {
    UndeclaredArgumentName(s);
    UndeclaredArgumentInitialiser(s);
    UndeclaredArgumentOtherI(s);
    UndeclaredArgumentSlices(s);
    InitialisedDeclaration(s, 0, 4, 5, 8, 9);
    forall v | v in IntDeclared(s)
      ensures v == "x"
    {
      var i :| 0 <= i <= |s| && IntDeclarationAt(s, i).Some? && IntDeclarationAt(s, i).value == v;
      if i != 0 {
        DeclarationStartsWithInt(s, i);
      }
    }
  }

  lemma UndeclaredArgumentUndeclared(s: string)
    requires s == UndeclaredArgument
    ensures Undeclared(s) == {"y"}
  {
    UndeclaredArgumentRuns(s);
    UndeclaredArgumentDeclared(s);
    ForDeclaredSubsumed(s);
    OnlyYUndeclared(s);
  }

  lemma OnlyYUndeclared(s: string)
    requires WordRuns(s) == ["int", "x", "5", "System", "out", "println", "y"]
    requires Declared(s) == {"x"}
    ensures Undeclared(s) == {"y"}
  {
    UndeclaredArgumentUsed(s);
    UndeclaredArgumentCandidates(Used(s), Declared(s));
    UndeclaredArgumentFilter(s);
  }

  lemma UndeclaredArgumentUsed(s: string)
    requires WordRuns(s) == ["int", "x", "5", "System", "out", "println", "y"]
    ensures Used(s) == {"int", "x", "5", "System", "out", "println", "y"}
  {
  }

  lemma UndeclaredArgumentCandidates(used: set<string>, declared: set<string>)
    requires used == {"int", "x", "5", "System", "out", "println", "y"}
    requires declared == {"x"}
    ensures used - declared - StandardKeywords == {"5", "y"}
  {
  }

  lemma UndeclaredArgumentFilter(s: string)
    requires Used(s) - Declared(s) - StandardKeywords == {"5", "y"}
    ensures Undeclared(s) == {"y"}
  {
    assert IsNumeral("5");
    assert "y"[0] == 'y';
  }

  lemma UndeclaredArgumentVerdict()
    ensures AnalyzeSemantic(UndeclaredArgument).verdict == NotDeclared({"y"})
  {
    var s := UndeclaredArgument;
    UndeclaredArgumentUndeclared(s);
  }

  /* The header quoted in the header error message declares its counter,
     so it passes the semantic check. */

  lemma MessageHeaderName(s: string)
    requires s == SyntacticProperties.MessageHeader
    ensures Boundary(s, 5) && LiteralAt(s, 5, "int") && SpacesEnd(s, 8) == 9 && WordEnd(s, 9) == 10
  {
    SliceMatches(s, 5, "int");
    SpacesEndIs(s, 8, 9);
    WordEndIs(s, 9, 10);
  }

  lemma MessageHeaderInitialiser(s: string)
    requires s == SyntacticProperties.MessageHeader
    ensures SpacesEnd(s, 10) == 11 && LiteralAt(s, 11, "=") && SpacesEnd(s, 12) == 13
    ensures DigitsEnd(s, 13) == 14 && SpacesEnd(s, 14) == 14 && LiteralAt(s, 14, ";")
  {
    LiteralChar(s, 11, '=');
    LiteralChar(s, 14, ';');
    SpacesEndIs(s, 10, 11);
    SpacesEndIs(s, 12, 13);
    DigitsEndIs(s, 13, 14);
    SpacesEndIs(s, 14, 14);
  }

  lemma MessageHeaderRunsHead(s: string)
    requires s == SyntacticProperties.MessageHeader
    ensures Gap(s, 0, 0) && IsRun(s, 0, 3) && Gap(s, 3, 5) && IsRun(s, 5, 8) && Gap(s, 8, 9)
  {
  }

  lemma MessageHeaderRunsMiddle(s: string)
    requires s == SyntacticProperties.MessageHeader
    ensures IsRun(s, 9, 10) && Gap(s, 10, 13) && IsRun(s, 13, 14) && Gap(s, 14, 16)
  {
  }

  lemma MessageHeaderRunsTail(s: string)
    requires s == SyntacticProperties.MessageHeader
    ensures IsRun(s, 16, 17) && Gap(s, 17, 21) && IsRun(s, 21, 23) && Gap(s, 23, 25)
    ensures IsRun(s, 25, 26) && Gap(s, 26, |s|)
  {
  }

  lemma MessageHeaderSlices(s: string)
    requires s == SyntacticProperties.MessageHeader
    ensures s[0..3] == "for" && s[5..8] == "int" && s[9..10] == "i" && s[13..14] == "1"
    ensures s[16..17] == "i" && s[21..23] == "19" && s[25..26] == "i"
  {
    SliceMatches(s, 0, "for");
    SliceMatches(s, 5, "int");
    SliceMatches(s, 9, "i");
    SliceMatches(s, 13, "1");
    SliceMatches(s, 16, "i");
    SliceMatches(s, 21, "19");
    SliceMatches(s, 25, "i");
  }

  lemma MessageHeaderTiling(s: string)
    requires Gap(s, 0, 0) && IsRun(s, 0, 3) && Gap(s, 3, 5) && IsRun(s, 5, 8) && Gap(s, 8, 9)
    requires IsRun(s, 9, 10) && Gap(s, 10, 13) && IsRun(s, 13, 14) && Gap(s, 14, 16)
    requires IsRun(s, 16, 17) && Gap(s, 17, 21) && IsRun(s, 21, 23) && Gap(s, 23, 25)
    requires IsRun(s, 25, 26) && Gap(s, 26, |s|)
    ensures WordRuns(s) == [s[0..3], s[5..8], s[9..10], s[13..14], s[16..17], s[21..23], s[25..26]]
  {
    TilesCons(s, 23, 25, 26, []);
    TilesCons(s, 17, 21, 23, [(25, 26)]);
    TilesCons(s, 14, 16, 17, [(21, 23), (25, 26)]);
    TilesCons(s, 10, 13, 14, [(16, 17), (21, 23), (25, 26)]);
    TilesCons(s, 8, 9, 10, [(13, 14), (16, 17), (21, 23), (25, 26)]);
    TilesCons(s, 3, 5, 8, [(9, 10), (13, 14), (16, 17), (21, 23), (25, 26)]);
    TilesCons(s, 0, 0, 3, [(5, 8), (9, 10), (13, 14), (16, 17), (21, 23), (25, 26)]);
    TilesRuns(s, 0, [(0, 3), (5, 8), (9, 10), (13, 14), (16, 17), (21, 23), (25, 26)]);
  }

  lemma MessageHeaderRuns(s: string)
    requires s == SyntacticProperties.MessageHeader
    ensures WordRuns(s) == ["for", "int", "i", "1", "i", "19", "i"]
  {
    MessageHeaderRunsHead(s);
    MessageHeaderRunsMiddle(s);
    MessageHeaderRunsTail(s);
    MessageHeaderTiling(s);
    MessageHeaderSlices(s);
  }

  lemma MessageHeaderDeclaresCounter(s: string)
    requires s == SyntacticProperties.MessageHeader
    ensures "i" in Declared(s)
  {
    MessageHeaderName(s);
    MessageHeaderInitialiser(s);
    MessageHeaderSlices(s);
    InitialisedDeclaration(s, 5, 9, 10, 13, 14);
  }

  lemma MessageHeaderVerdict()
    ensures AnalyzeSemantic(SyntacticProperties.MessageHeader).verdict == Correct
  {
    var s := SyntacticProperties.MessageHeader;
    MessageHeaderDeclaresCounter(s);
    MessageHeaderRuns(s);
    HeaderWordsAccounted(s);
  }

  /** Every word of the header is the declared counter, a standard name or a
      number. */
  lemma HeaderWordsAccounted(s: string)
    requires WordRuns(s) == ["for", "int", "i", "1", "i", "19", "i"] && "i" in Declared(s)
    ensures forall v :: v in WordRuns(s) ==> v in Declared(s) || v in StandardKeywords || IsNumeral(v)
  {
    assert IsNumeral("1") && IsNumeral("19");
  }

  /* The canonical loop: the recommended header and a one-statement body.
     Its only name besides the standard ones is the counter, which the
     header declares, so it passes the semantic check. */

  lemma CanonicalBodyRunsHead(s: string)
    requires s == SyntacticProperties.CanonicalBody
    ensures Gap(s, 0, 5) && IsRun(s, 5, 11) && Gap(s, 11, 12) && IsRun(s, 12, 15)
  {
  }

  lemma CanonicalBodyRunsTail(s: string)
    requires s == SyntacticProperties.CanonicalBody
    ensures Gap(s, 15, 16) && IsRun(s, 16, 23) && Gap(s, 23, 24) && IsRun(s, 24, 25) && Gap(s, 25, |s|)
  {
  }

  lemma CanonicalBodySlices(s: string)
    requires s == SyntacticProperties.CanonicalBody
    ensures s[5..11] == "System" && s[12..15] == "out" && s[16..23] == "println" && s[24..25] == "i"
  {
    SliceMatches(s, 5, "System");
    SliceMatches(s, 12, "out");
    SliceMatches(s, 16, "println");
    SliceMatches(s, 24, "i");
  }

  lemma CanonicalBodyTiling(s: string)
    requires Gap(s, 0, 5) && IsRun(s, 5, 11) && Gap(s, 11, 12) && IsRun(s, 12, 15)
    requires Gap(s, 15, 16) && IsRun(s, 16, 23) && Gap(s, 23, 24) && IsRun(s, 24, 25) && Gap(s, 25, |s|)
    ensures WordRuns(s) == [s[5..11], s[12..15], s[16..23], s[24..25]]
  {
    TilesCons(s, 23, 24, 25, []);
    TilesCons(s, 15, 16, 23, [(24, 25)]);
    TilesCons(s, 11, 12, 15, [(16, 23), (24, 25)]);
    TilesCons(s, 0, 5, 11, [(12, 15), (16, 23), (24, 25)]);
    TilesRuns(s, 0, [(5, 11), (12, 15), (16, 23), (24, 25)]);
  }

  lemma CanonicalBodyRuns(s: string)
    requires s == SyntacticProperties.CanonicalBody
    ensures WordRuns(s) == ["System", "out", "println", "i"]
  {
    CanonicalBodyRunsHead(s);
    CanonicalBodyRunsTail(s);
    CanonicalBodyTiling(s);
    CanonicalBodySlices(s);
  }

  lemma MessageHeaderEnd(s: string)
    requires s == SyntacticProperties.MessageHeader
    ensures !IsWordChar(s[|s| - 1])
  {
  }

  lemma CanonicalLoopRuns(t: string)
    requires t == SyntacticProperties.CanonicalLoop
    ensures WordRuns(t) == ["for", "int", "i", "1", "i", "19", "i", "System", "out", "println", "i"]
  {
    var h := SyntacticProperties.MessageHeader;
    var b := SyntacticProperties.CanonicalBody;
    MessageHeaderRuns(h);
    CanonicalBodyRuns(b);
    MessageHeaderEnd(h);
    WordRunsAppend(h, b);
  }

  /** The declaration `int i = 1;` inside the header, read in the whole loop. */
  lemma CanonicalLoopPrefix(t: string)
    requires t == SyntacticProperties.CanonicalLoop
    ensures forall k :: 0 <= k < 31 ==> t[k] == SyntacticProperties.MessageHeader[k]
  {
  }

  lemma CanonicalLoopName(t: string)
    requires t == SyntacticProperties.CanonicalLoop
    ensures Boundary(t, 5) && LiteralAt(t, 5, "int") && SpacesEnd(t, 8) == 9 && WordEnd(t, 9) == 10
    ensures t[9..10] == "i"
  {
    var h := SyntacticProperties.MessageHeader;
    CanonicalLoopPrefix(t);
    MessageHeaderName(h);
    assert h[4] == '(' && h[5] == 'i' && h[6] == 'n' && h[7] == 't' && h[8] == ' ' && h[9] == 'i' && h[10] == ' ';
    SliceMatches(t, 5, "int");
    SpacesEndIs(t, 8, 9);
    WordEndIs(t, 9, 10);
    SliceMatches(t, 9, "i");
  }

  lemma CanonicalLoopInitialiser(t: string)
    requires t == SyntacticProperties.CanonicalLoop
    ensures SpacesEnd(t, 10) == 11 && LiteralAt(t, 11, "=") && SpacesEnd(t, 12) == 13
    ensures DigitsEnd(t, 13) == 14 && SpacesEnd(t, 14) == 14 && LiteralAt(t, 14, ";")
  {
    var h := SyntacticProperties.MessageHeader;
    CanonicalLoopPrefix(t);
    assert h[10] == ' ' && h[11] == '=' && h[12] == ' ' && h[13] == '1' && h[14] == ';';
    LiteralChar(t, 11, '=');
    LiteralChar(t, 14, ';');
    SpacesEndIs(t, 10, 11);
    SpacesEndIs(t, 12, 13);
    DigitsEndIs(t, 13, 14);
    SpacesEndIs(t, 14, 14);
  }

  lemma CanonicalLoopDeclaresCounter(t: string)
    requires t == SyntacticProperties.CanonicalLoop
    ensures "i" in Declared(t)
  {
    CanonicalLoopName(t);
    CanonicalLoopInitialiser(t);
    InitialisedDeclaration(t, 5, 9, 10, 13, 14);
  }

  lemma CanonicalLoopSemanticVerdict()
    ensures AnalyzeSemantic(SyntacticProperties.CanonicalLoop).verdict == Correct
  {
    var t := SyntacticProperties.CanonicalLoop;
    SyntacticProperties.CanonicalLoopShape();
    CanonicalLoopDeclaresCounter(t);
    CanonicalLoopRuns(t);
    LoopWordsAccounted(t);
  }

  /** Every word of the loop is the declared counter, a standard name or a
      number. */
  lemma LoopWordsAccounted(t: string)
    requires WordRuns(t) == ["for", "int", "i", "1", "i", "19", "i", "System", "out", "println", "i"]
    requires "i" in Declared(t)
    ensures forall v :: v in WordRuns(t) ==> v in Declared(t) || v in StandardKeywords || IsNumeral(v)
  {
    assert IsNumeral("1") && IsNumeral("19");
  }
}
