/** What the two syntactic searches accept and reject. */
module SyntacticProperties {
  import opened Chars
  import opened Text
  import opened Scan
  import opened Words
  import opened Syntactic

  /** The body pattern needs a newline between `{` and `System` and another
      between `;` and `}`: one before the call and one after it. */
  lemma BodyNeedsTwoNewlines(s: string, i: nat)
    requires i <= |s| && BodyEnd(s, i).Some?
    ensures exists a, b :: i < a < b < BodyEnd(s, i).value && s[a] == '\n' && s[b] == '\n'
    ensures exists a, c, d, b ::
      && i < a < c < d <= b < BodyEnd(s, i).value
      && s[a] == '\n' && s[b] == '\n' && PrintCall(s, c) == Some(d)
    ensures '\n' in s
  {
    var p1 := Lit(s, i, "{").value;
    var p2 := BodyOpen(s, i).value;
    var a :| p1 <= a < p2 && s[a] == '\n';
    var p3 := PrintCall(s, p2).value;
    var p4 := SpacedNewline(s, p3).value;
    var b :| p3 <= b < p4 && s[b] == '\n';
    assert BodyEnd(s, i) == BodyClose(s, p3);
    assert s[a] in s;
  }

  /** A body written on one line, such as `{ System.out.println(i); }`,
      never satisfies the body search. */
  lemma SingleLineBodyRejected(s: string)
    requires '\n' !in s
    ensures !BodyFound(s)
  {
    forall i | 0 <= i <= |s|
      ensures BodyEnd(s, i).None?
    {
      if BodyEnd(s, i).Some? {
        BodyNeedsTwoNewlines(s, i);
        assert false;
      }
    }
  }

  /** The header search cannot start where there is no `f`. */
  lemma NoHeaderWithoutF(s: string, i: nat)
    requires i <= |s| && (i == |s| || s[i] != 'f')
    ensures HeaderEnd(s, i).None?
  {
    NotLiteralAt(s, i, "for");
  }

  /** `\s*\w+\s+\w` at `p`: a word, whitespace, then a second word, as
      `int i` is after `for (`. */
  predicate TypedVariableAt(s: string, p: nat)
    requires p <= |s|
  {
    var a := SpacesEnd(s, p);
    a < |s| && IsWordChar(s[a]) &&
    var b := WordEnd(s, a);
    var c := SpacesEnd(s, b);
    b < c < |s| && IsWordChar(s[c])
  }

  /** Wherever `\bfor\s*\(` is followed by two words, whatever the spacing,
      the header pattern fails: after `(` it admits one word and then `=`. */
  lemma TypedHeaderRejected(s: string, i: nat)
    requires i <= |s| && ForOpen(s, i).Some? && TypedVariableAt(s, ForOpen(s, i).value)
    ensures HeaderEnd(s, i).None?
  {
    var a := SpacesEnd(s, ForOpen(s, i).value);
    var c := SpacesEnd(s, WordEnd(s, a));
    NotLiteralAt(s, c, "=");
  }

  /** A text in which every `for (` is followed by two words never passes the
      header search. */
  lemma TypedHeadersRejected(s: string)
    requires forall i :: 0 <= i <= |s| && ForOpen(s, i).Some? ==> TypedVariableAt(s, ForOpen(s, i).value)
    ensures !HeaderFound(s)
  {
    forall i | 0 <= i <= |s|
      ensures HeaderEnd(s, i).None?
    {
      if ForOpen(s, i).Some? {
        TypedHeaderRejected(s, i);
      }
    }
  }

  /** A typed loop variable, `for (<type> <name> ...`, fails the header
      search: between `(` and `=` the pattern admits a single word. */
  lemma TypedHeaderRejectedAt(s: string, ty: string, v: string)
    requires IsWord(ty) && IsWord(v)
    requires 6 + |ty| + |v| <= |s| && s[..6 + |ty| + |v|] == "for (" + ty + " " + v
    ensures HeaderEnd(s, 0).None?
  {
    var e := 5 + |ty|;
    var pre := "for (" + ty + " " + v;
    assert forall k :: 0 <= k < |pre| ==> s[k] == pre[k];
    assert s[..5] == "for (";
    assert forall k :: 5 <= k < e ==> s[k] == ty[k - 5];
    assert s[e] == ' ' && s[e + 1] == v[0];
    assert Lit(s, 0, "for") == Some(3);
    SpacesEndIs(s, 3, 4);
    assert ForOpen(s, 0) == Some(5);
    SpacesEndIs(s, 5, 5);
    WordEndIs(s, 5, e);
    SpacesEndIs(s, e, e + 1);
    NotLiteralAt(s, e + 1, "=");
    assert Initialisation(s, 5).None?;
  }

  /** The header that the error message quotes as the correct form. */
  const MessageHeader: string := "for (int i = 1; i <= 19; i++) {"

  lemma MessageHeaderAtStart()
    ensures HeaderEnd(MessageHeader, 0).None?
  {
    assert MessageHeader[..10] == "for (" + "int" + " " + "i";
    TypedHeaderRejectedAt(MessageHeader, "int", "i");
  }

  lemma MessageHeaderHasOneF(t: string)
    requires t == MessageHeader
    ensures forall i :: 0 < i < |t| ==> t[i] != 'f'
  {
  }

  /** The header the error message recommends fails the header search. */
  lemma MessageExampleRejected()
    ensures !HeaderFound(MessageHeader)
  {
    var t := MessageHeader;
    MessageHeaderAtStart();
    MessageHeaderHasOneF(t);
    forall i | 0 < i <= |t|
      ensures HeaderEnd(t, i).None?
    {
      NoHeaderWithoutF(t, i);
    }
  }

  const UntypedHeader: string := "for (i = 1; i <= 19; i++) {"

  lemma UntypedOpen(u: string)
    requires u == UntypedHeader
    ensures ForOpen(u, 0) == Some(5)
  {
    assert Boundary(u, 0);
    assert Lit(u, 0, "for") == Some(3);
    SpacesEndIs(u, 3, 4);
    assert Lit(u, 4, "(") == Some(5);
  }

  lemma UntypedInitialisationName(u: string)
    requires u == UntypedHeader
    ensures Word(u, SpacesEnd(u, 5)) == Some(6) && SpacesEnd(u, 6) == 7
    ensures Lit(u, 7, "=") == Some(8)
  {
    assert u[5] == 'i' && u[6] == ' ' && u[7] == '=';
    SpacesEndIs(u, 5, 5);
    WordEndIs(u, 5, 6);
    SpacesEndIs(u, 6, 7);
    LiteralChar(u, 7, '=');
  }

  lemma UntypedInitialisationValue(u: string)
    requires u == UntypedHeader
    ensures SpacesEnd(u, 8) == 9 && Digits(u, 9) == Some(10)
    ensures SpacesEnd(u, 10) == 10 && Lit(u, 10, ";") == Some(11)
  {
    assert u[8] == ' ' && u[9] == '1' && u[10] == ';';
    SpacesEndIs(u, 8, 9);
    DigitsEndIs(u, 9, 10);
    SpacesEndIs(u, 10, 10);
    LiteralChar(u, 10, ';');
  }

  lemma UntypedInitialisation(u: string)
    requires u == UntypedHeader
    ensures Initialisation(u, 5) == Some(11)
  {
    UntypedInitialisationName(u);
    UntypedInitialisationValue(u);
  }

  lemma UntypedConditionName(u: string)
    requires u == UntypedHeader
    ensures Word(u, SpacesEnd(u, 11)) == Some(13) && SpacesEnd(u, 13) == 14
    ensures Lit(u, 14, "<=") == Some(16)
  {
    assert u[11] == ' ' && u[12] == 'i' && u[13] == ' ';
    assert u[14] == '<' && u[15] == '=';
    SpacesEndIs(u, 11, 12);
    WordEndIs(u, 12, 13);
    SpacesEndIs(u, 13, 14);
    SliceMatches(u, 14, "<=");
  }

  lemma UntypedConditionBound(u: string)
    requires u == UntypedHeader
    ensures SpacesEnd(u, 16) == 17 && Digits(u, 17) == Some(19)
    ensures SpacesEnd(u, 19) == 19 && Lit(u, 19, ";") == Some(20)
  {
    assert u[16] == ' ' && u[17] == '1' && u[18] == '9' && u[19] == ';';
    SpacesEndIs(u, 16, 17);
    DigitsEndIs(u, 17, 19);
    SpacesEndIs(u, 19, 19);
    LiteralChar(u, 19, ';');
  }

  lemma UntypedCondition(u: string)
    requires u == UntypedHeader
    ensures Condition(u, 11) == Some(20)
  {
    UntypedConditionName(u);
    UntypedConditionBound(u);
  }

  lemma UntypedIncrement(u: string)
    requires u == UntypedHeader
    ensures Increment(u, 20) == Some(27)
  {
    SpacesEndIs(u, 20, 21);
    WordEndIs(u, 21, 22);
    assert Lit(u, 22, "++") == Some(24);
    SpacesEndIs(u, 24, 24);
    assert Lit(u, 24, ")") == Some(25);
    SpacesEndIs(u, 25, 26);
    assert Lit(u, 26, "{") == Some(27);
  }

  /** The same header without the type passes. */
  lemma UntypedHeaderAccepted()
    ensures HeaderEnd(UntypedHeader, 0) == Some(|UntypedHeader|)
    ensures HeaderFound(UntypedHeader)
  {
    UntypedOpen(UntypedHeader);
    UntypedInitialisation(UntypedHeader);
    UntypedCondition(UntypedHeader);
    UntypedIncrement(UntypedHeader);
  }

  /** The canonical loop's text after its header: a one-statement body. */
  const CanonicalBody: string := "\n    System.out.println(i);\n}"

  /** The canonical loop: the recommended header and a one-statement body. */
  const CanonicalLoop: string := MessageHeader + CanonicalBody

  lemma CanonicalLoopShape()
    ensures IsAscii(CanonicalLoop)
    ensures forall i :: 0 < i < |CanonicalLoop| ==> CanonicalLoop[i] != 'f'
  {
    assert IsAscii(MessageHeader) && IsAscii(CanonicalBody);
    MessageHeaderHasOneF(MessageHeader);
    assert forall i :: 0 <= i < |CanonicalBody| ==> CanonicalBody[i] != 'f';
  }

  lemma CanonicalLoopHeader()
    ensures !HeaderFound(CanonicalLoop)
  {
    var t := CanonicalLoop;
    CanonicalLoopShape();
    assert MessageHeader[..10] == "for (" + "int" + " " + "i";
    assert t[..10] == MessageHeader[..10];
    TypedHeaderRejectedAt(t, "int", "i");
    forall i | 0 < i <= |t|
      ensures HeaderEnd(t, i).None?
    {
      NoHeaderWithoutF(t, i);
    }
  }

  lemma CanonicalBodyCallName()
    ensures LiteralAt(CanonicalBody, 5, "System.out.println")
  {
    assert CanonicalBody == "\n    " + "System.out.println" + "(i);\n}";
    LiteralAtJoin("\n    ", "System.out.println", "(i);\n}");
  }

  lemma CanonicalLoopCall()
    ensures PrintCall(CanonicalLoop, 36) == Some(58)
  {
    var t := CanonicalLoop;
    CanonicalBodyCallName();
    LiteralAtShift(MessageHeader, CanonicalBody, 5, "System.out.println");
    assert Lit(t, 36, "System.out.println") == Some(54);
    assert t[54] == CanonicalBody[23] == '(';
    assert t[55] == CanonicalBody[24] == 'i';
    assert t[56] == CanonicalBody[25] == ')';
    assert t[57] == CanonicalBody[26] == ';';
    SpacesEndIs(t, 54, 54);
    LiteralChar(t, 54, '(');
    SpacesEndIs(t, 55, 55);
    WordEndIs(t, 55, 56);
    SpacesEndIs(t, 56, 56);
    LiteralChar(t, 56, ')');
    SpacesEndIs(t, 57, 57);
    LiteralChar(t, 57, ';');
  }

  lemma CanonicalLoopOpen()
    ensures BodyOpen(CanonicalLoop, 30) == Some(36)
  {
    var t := CanonicalLoop;
    assert t[30] == MessageHeader[30] == '{';
    LiteralChar(t, 30, '{');
    assert forall k :: 31 <= k < 36 ==> t[k] == CanonicalBody[k - 31];
    SpacesEndIs(t, 31, 36);
    assert t[31] == '\n';
  }

  lemma CanonicalLoopClose()
    ensures BodyClose(CanonicalLoop, 58) == Some(60)
  {
    var t := CanonicalLoop;
    assert t[58] == CanonicalBody[27] == '\n';
    assert t[59] == CanonicalBody[28] == '}';
    SpacesEndIs(t, 58, 59);
    LiteralChar(t, 59, '}');
  }

  lemma CanonicalLoopBody()
    ensures BodyEnd(CanonicalLoop, 30) == Some(|CanonicalLoop|)
    ensures BodyFound(CanonicalLoop)
  {
    CanonicalLoopOpen();
    CanonicalLoopCall();
    CanonicalLoopClose();
  }

  /** The canonical loop fails the header search and passes the body search,
      so the syntactic pass reports only the header error. */
  lemma CanonicalLoopVerdict()
    ensures IsAscii(CanonicalLoop)
    ensures AnalyzeSyntactic(CanonicalLoop).message == HeaderError
  {
    CanonicalLoopShape();
    CanonicalLoopHeader();
    CanonicalLoopBody();
  }
}
