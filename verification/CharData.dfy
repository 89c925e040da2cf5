/**
  Character data in content and in CDATA sections: however the tokenizers cut it up, what is
  reported is the text that stands there, with its line ends normalised.
*/
module CharData {
  import opened Scanner
  import opened Tokenizer
  import opened References
  import opened CharRefs
  import opened TagNames
  import opened Lines
  import opened Tokens
  import opened Grammar
  import opened Accepted
  import Utf
  import C = Content

  // -------------------------------------------------------------- line ends

  /** Character data as it is reported: line ends are those of the document. */
  function Reported(enc: Enc, t: Text): Text { if enc.internal then t else Normalised(t) }

  predicate Newline(enc: Enc, c: int) { c == 0xA || (c == 0xD && !enc.internal) }

  /** A stretch of characters that one token covers, before `rest`. */
  predicate Stretch(enc: Enc, cs: seq<int>, rest: seq<int>)
  {
    || (cs != [] && forall k :: 0 <= k < |cs| ==> !Newline(enc, cs[k]))
    || cs == [0xA]
    || (!enc.internal && cs == [0xD] && (rest == [] || rest[0] != 0xA))
    || (!enc.internal && cs == [0xD, 0xA])
  }

  function StretchText(enc: Enc, cs: seq<int>): Text
    requires cs != []
  {
    if Newline(enc, cs[0]) then [0xA] else Utf.Encode8(cs)
  }

  lemma {:induction false} EncodeConcat(a: seq<int>, b: seq<int>)
    ensures Utf.Encode8(a + b) == Utf.Encode8(a) + Utf.Encode8(b)
  {
    hide Utf8Encode;
    if a == [] {
      assert a + b == b;
    } else {
      assert (a + b)[1..] == a[1..] + b;
      EncodeConcat(a[1..], b);
    }
  }

  lemma NoCrByte(c: int)
    requires Utf.XmlChar(c) && c != 0xD
    ensures CR_CHAR !in Utf8Encode(c)
  {
  }

  lemma {:induction false} NoCrBytes(cs: seq<int>)
    requires Utf.XmlChars(cs) && 0xD !in cs
    ensures CR_CHAR !in Utf.Encode8(cs)
  {
    hide Utf8Encode;
    if cs != [] {
      NoCrByte(cs[0]);
      NoCrBytes(cs[1..]);
    }
  }

  lemma FirstByte(c: int)
    requires Utf.XmlChar(c)
    ensures Utf8Encode(c) != [] && (c < 0x80 ==> Utf8Encode(c) == [c]) && (c >= 0x80 ==> Utf8Encode(c)[0] >= 0xC0)
  {
  }

  lemma EncodeFirst(cs: seq<int>)
    requires Utf.XmlChars(cs) && cs != []
    ensures Utf.Encode8(cs) != [] && Utf.Encode8(cs)[0] == Utf8Encode(cs[0])[0] && |Utf8Encode(cs[0])| >= 1
    ensures Utf.Encode8([cs[0]]) == Utf8Encode(cs[0])
  {
    FirstByte(cs[0]);
    hide Utf8Encode;
    EncodeStep(cs);
    EncodeStep([cs[0]]);
    EncodeNone([cs[0]][1..]);
  }

  /** Line ends are normalised token by token. */
  lemma StretchReported(enc: Enc, cs: seq<int>, rest: seq<int>)
    requires Utf.XmlChars(cs) && Utf.XmlChars(rest) && Stretch(enc, cs, rest)
    ensures Reported(enc, Utf.Encode8(cs + rest)) == StretchText(enc, cs) + Reported(enc, Utf.Encode8(rest))
  {
    hide Utf8Encode, Normalised, Utf.Encode8;
    EncodeConcat(cs, rest);
    if rest != [] {
      EncodeFirst(rest);
      FirstByte(rest[0]);
    } else {
      EncodeNone(rest);
    }
    var a, b := Utf.Encode8(cs), Utf.Encode8(rest);
    if Newline(enc, cs[0]) {
      LineEndText(enc, cs);
      if !enc.internal {
        NormalConcat(a, b);
        LineEndNormal(a);
      }
    } else if !enc.internal {
      NoCrBytes(cs);
      NormalIs(a);
      NormalConcat(a, b) by { LastNotCr(a); }
    }
  }

  lemma LastNotCr(a: Text)
    requires CR_CHAR !in a
    ensures a == [] || a[|a| - 1] != CR_CHAR
  {
  }

  lemma LineEndText(enc: Enc, cs: seq<int>)
    requires cs == [0xA] || cs == [0xD] || cs == [0xD, 0xA]
    ensures Utf.Encode8(cs) == cs
  {
    assert Utf8Encode(0xA) == [0xA] && Utf8Encode(0xD) == [0xD];
    EncodeStep(cs);
    EncodeNone([]);
    if cs == [0xD, 0xA] {
      assert cs[1..] == [0xA];
      EncodeStep([0xA]);
    }
  }

  lemma LineEndNormal(t: Text)
    requires t == [0xA] || t == [0xD] || t == [0xD, 0xA]
    ensures Normalised(t) == [0xA]
  {
    NormalStep(t);
    NormalNone();
    assert t[After(t)..] == [];
  }

  // ---------------------------------------------------------- character data

  /** The first character of a stretch in place. */
  lemma Peek(s: Text, i: nat, cs: seq<int>)
    requires Utf.XmlChars(cs) && cs != [] && At(s, i, Utf.Encode8(cs))
    ensures Len(cs[0]) >= 1 && |Utf.Encode8(cs)| == Len(cs[0]) + |Utf.Encode8(cs[1..])|
    ensures i < |s| && s[i] == Utf8Encode(cs[0])[0] && At(s, i, Utf8Encode(cs[0]))
    ensures At(s, i + Len(cs[0]), Utf.Encode8(cs[1..]))
    ensures if cs[0] < 0x80 then s[i] == cs[0] && Len(cs[0]) == 1 else s[i] >= 0xC0
  {
    FirstByte(cs[0]);
    hide Utf8Encode, Utf.Encode8, At;
    EncodeStep(cs);
    AtParts(s, i, Utf8Encode(cs[0]), Utf.Encode8(cs[1..]));
    AtByte(s, i, Utf8Encode(cs[0]), 0);
  }

  /** What comes after the characters does not go on with them. */
  predicate Bounded(s: Text, n: nat, end: nat) { n <= end <= |s| && (n < end ==> s[n] == 0x3C || s[n] == 0x26) }

  predicate DataOk(cs: seq<int>) { Utf.XmlChars(cs) && 0x3C !in cs && 0x26 !in cs }

  const CLOSE: seq<int> := [0x5D, 0x5D, 0x3E]

  lemma DataRest(cs: seq<int>)
    requires DataOk(cs) && cs != []
    ensures DataOk(cs[1..]) && Utf.XmlChar(cs[0]) && cs[0] != 0x3C && cs[0] != 0x26
  {
  }

  /** What stands there is held by the characters. */
  lemma CloseHeld(s: Text, i: nat, cs: seq<int>, end: nat)
    requires Utf.XmlChars(cs) && At(s, i, Utf.Encode8(cs)) && Bounded(s, i + |Utf.Encode8(cs)|, end)
    requires cs != [] && cs[0] == 0x5D && i + 2 < end && s[i + 1] == 0x5D && s[i + 2] == 0x3E
    ensures HoldsAt(cs, CLOSE, 0)
  {
    hide Utf8Encode, Utf.Encode8, Utf.XmlChar, At;
    Peek(s, i, cs);
    EncodeNone(cs[1..]);
    Peek(s, i + 1, cs[1..]);
    EncodeNone(cs[2..]);
    assert cs[1..][1..] == cs[2..];
    Peek(s, i + 2, cs[2..]);
    assert cs[0..3] == [cs[0], cs[1], cs[2]];
  }

  /** `]]>` does not stand where the characters are. */
  lemma NoClose(s: Text, i: nat, cs: seq<int>, end: nat)
    requires Utf.XmlChars(cs) && Without(cs, CLOSE) && At(s, i, Utf.Encode8(cs))
    requires Bounded(s, i + |Utf.Encode8(cs)|, end) && cs != [] && cs[0] == 0x5D && i + 2 < end
    ensures !(s[i + 1] == 0x5D && s[i + 2] == 0x3E)
  {
    hide Utf8Encode, Utf.Encode8, Utf.XmlChar, At, HoldsAt;
    if s[i + 1] == 0x5D && s[i + 2] == 0x3E {
      CloseHeld(s, i, cs, end);
      assert false;
    }
  }

  lemma TailUnfold(enc: Enc, s: Text, i: nat, end: nat)
    requires i <= end <= |s|
    ensures DataTail(enc, s, end, end) == Tok(DataChars, end)
    ensures i < end ==>
      var c, t := ByteType(enc, s[i]), TestChar(enc, DataChar, s, i, end);
      DataTail(enc, s, i, end) ==
        if t.Fits? then DataTail(enc, s, i + t.n, end)
        else if !t.NotCovered? then Tok(DataChars, i)
        else if c == RSQB then
          if i + 1 == end then Tok(DataChars, i)
          else if s[i + 1] != RSQB_CHAR then DataTail(enc, s, i + 1, end)
          else if i + 2 == end then Tok(DataChars, i)
          else if s[i + 2] != GT_CHAR then DataTail(enc, s, i + 1, end)
          else Invalid(i + 2)
        else if c in {AMP, LT, CR, LF} then Tok(DataChars, i)
        else DataTail(enc, s, i + 1, end)
  {
    hide TestChar, ByteType;
  }

  /** One character of data: the loop stops before it, or goes on after it. */
  lemma TailStep(enc: Enc, s: Text, i: nat, cs: seq<int>, end: nat)
    requires DataOk(cs) && cs != [] && Without(cs, CLOSE) && At(s, i, Utf.Encode8(cs))
    requires Bounded(s, i + |Utf.Encode8(cs)|, end)
    ensures 1 <= Len(cs[0]) && i + Len(cs[0]) <= end
    ensures DataTail(enc, s, i, end) == Tok(DataChars, i) ||
      (!Newline(enc, cs[0]) && DataTail(enc, s, i, end) == DataTail(enc, s, i + Len(cs[0]), end))
  {
    hide DataTail, TestChar, ByteType, Utf8Encode, Utf.Encode8, Without, Utf.XmlChar, DataOk, At;
    DataRest(cs);
    DataIs(cs);
    TailUnfold(enc, s, i, end);
    Peek(s, i, cs);
    CharView(enc, s, i, cs[0], end);
    AsciiChar(enc, cs[0]);
    if s[i] == 0x5D && i + 2 < end { NoClose(s, i, cs, end); }
  }

  /** The second loop of contentTok stops at the end of the characters, or earlier. */
  lemma {:induction false} TailFound(enc: Enc, s: Text, i: nat, cs: seq<int>, end: nat) returns (k: nat)
    requires DataOk(cs) && Without(cs, CLOSE) && At(s, i, Utf.Encode8(cs))
    requires Bounded(s, i + |Utf.Encode8(cs)|, end)
    ensures k <= |cs| && DataTail(enc, s, i, end) == Tok(DataChars, i + |Utf.Encode8(cs[..k])|)
    ensures forall j :: 0 <= j < k ==> !Newline(enc, cs[j])
    decreases |cs|
  {
    hide DataTail, TestChar, ByteType, Utf8Encode, Utf.Encode8, Without, Utf.XmlChar, DataOk, At, Len, Newline;
    k := 0;
    EncodeNone([]);
    assert cs[..0] == [];
    if cs == [] {
      EncodeNone(cs);
      TailUnfold(enc, s, i, end);
      MarkupStops(enc, s, i, end);
    } else {
      TailStep(enc, s, i, cs, end);
      if DataTail(enc, s, i, end) != Tok(DataChars, i) {
        DataRest(cs);
        DataIs(cs);
        Peek(s, i, cs);
        WithoutRest(cs, CLOSE);
        var more := TailFound(enc, s, i + Len(cs[0]), cs[1..], end);
        k := more + 1;
        TakeMore(cs, more);
      }
    }
  }

  lemma DataIs(cs: seq<int>)
    requires DataOk(cs)
    ensures Utf.XmlChars(cs)
  {
  }

  lemma MarkupStops(enc: Enc, s: Text, i: nat, end: nat)
    requires Bounded(s, i, end)
    ensures i < end ==> TestChar(enc, DataChar, s, i, end) == NotCovered && ByteType(enc, s[i]) in {LT, AMP}
  {
  }

  /** contentTok where character data begins. */
  lemma DataUnfold(enc: Enc, s: Text, i: nat, end: nat)
    requires i < end <= |s|
    requires ByteType(enc, s[i]) != LT && ByteType(enc, s[i]) != AMP
    ensures
      var c, t := ByteType(enc, s[i]), TestChar(enc, DataChar, s, i, end);
      ContentTok(enc, s, i, end) ==
        if c == CR then
          if i + 1 == end then TrailingCr else Tok(DataNewline, if ByteType(enc, s[i + 1]) == LF then i + 2 else i + 1)
        else if c == LF then Tok(DataNewline, i + 1)
        else if c == RSQB then
          if i + 1 == end then TrailingRsqb
          else if s[i + 1] != RSQB_CHAR then DataTail(enc, s, i + 1, end)
          else if i + 2 == end then TrailingRsqb
          else if s[i + 2] != GT_CHAR then DataTail(enc, s, i + 1, end)
          else Invalid(i + 2)
        else if t.Fits? then DataTail(enc, s, i + t.n, end)
        else if t.NotCovered? then DataTail(enc, s, i + 1, end)
        else if t.CutOff? then PartialChar
        else Invalid(i)
  {
    hide TestChar, ByteType, DataTail, Scan;
  }

  /** The result is a token for the first `k` of the characters, or they end the input. */
  predicate ChunkTok(enc: Enc, s: Text, i: nat, cs: seq<int>, k: nat, end: nat, r: Result)
    requires 1 <= k <= |cs|
  {
    if r.Tok? then r == Tok(if Newline(enc, cs[0]) then DataNewline else DataChars, i + |Utf.Encode8(cs[..k])|)
    else
      && k == |cs| && i + |Utf.Encode8(cs)| == end
      && (if Newline(enc, cs[0]) then r == TrailingCr else r == TrailingRsqb)
  }

  lemma EmptyText(cs: seq<int>)
    requires Utf.XmlChars(cs) && |Utf.Encode8(cs)| == 0
    ensures cs == []
  {
    hide Utf8Encode, Utf.Encode8, Utf.XmlChar;
    if cs != [] { EncodeFirst(cs); }
  }

  /** What follows the first character, if it is an ASCII character. */
  lemma Second(s: Text, i: nat, cs: seq<int>, end: nat)
    requires Utf.XmlChars(cs) && cs != [] && cs[0] < 0x80 && At(s, i, Utf.Encode8(cs))
    requires Bounded(s, i + |Utf.Encode8(cs)|, end)
    ensures i + 1 <= end && (i + 1 == end ==> |cs| == 1 && i + |Utf.Encode8(cs)| == end)
    ensures i + 1 < end && |cs| == 1 ==> s[i + 1] == 0x3C || s[i + 1] == 0x26
    ensures i + 1 < end && |cs| > 1 ==> if cs[1] < 0x80 then s[i + 1] == cs[1] else s[i + 1] >= 0xC0
  {
    hide Utf8Encode, Utf.Encode8, Utf.XmlChar, At;
    Peek(s, i, cs);
    EncodeNone(cs[1..]);
    if i + 1 == end { EmptyText(cs[1..]); }
    if |cs| > 1 { Peek(s, i + 1, cs[1..]); }
  }

  /** A line end. */
  lemma NewlineFound(enc: Enc, s: Text, i: nat, cs: seq<int>, end: nat) returns (k: nat)
    requires DataOk(cs) && cs != [] && At(s, i, Utf.Encode8(cs)) && Newline(enc, cs[0])
    requires Bounded(s, i + |Utf.Encode8(cs)|, end)
    ensures 1 <= k <= |cs| && Stretch(enc, cs[..k], cs[k..])
    ensures i < end && ChunkTok(enc, s, i, cs, k, end, ContentTok(enc, s, i, end))
  {
    hide TestChar, ByteType, Utf8Encode, Utf.Encode8, Utf.XmlChar, ContentTok, At;
    Peek(s, i, cs);
    AsciiChar(enc, cs[0]);
    Second(s, i, cs, end);
    DataUnfold(enc, s, i, end);
    k := 1;
    if cs[0] == 0xD && i + 1 < end {
      LineFeed(enc, s[i + 1]);
      if s[i + 1] == 0xA { k := 2; }
    }
    assert cs[..k] == if k == 2 then [cs[0], cs[1]] else [cs[0]];
    LineEndText(enc, cs[..k]);
  }

  lemma LineFeed(enc: Enc, b: Byte)
    ensures ByteType(enc, b) == LF <==> b == 0xA
    ensures ByteType(enc, b) == RSQB <==> b == 0x5D
  {
  }

  lemma TakeMore(cs: seq<int>, k: nat)
    requires cs != [] && k <= |cs| - 1
    ensures |Utf.Encode8(cs[..k + 1])| == Len(cs[0]) + |Utf.Encode8(cs[1..][..k])|
  {
    hide Utf8Encode;
    EncodeStep(cs[..k + 1]);
    assert cs[..k + 1][1..] == cs[1..][..k];
  }

  /** A stretch without line ends. */
  lemma PlainFound(enc: Enc, s: Text, i: nat, cs: seq<int>, end: nat) returns (k: nat)
    requires DataOk(cs) && cs != [] && Without(cs, CLOSE) && At(s, i, Utf.Encode8(cs)) && !Newline(enc, cs[0])
    requires Bounded(s, i + |Utf.Encode8(cs)|, end)
    ensures 1 <= k <= |cs| && Stretch(enc, cs[..k], cs[k..])
    ensures i < end && ChunkTok(enc, s, i, cs, k, end, ContentTok(enc, s, i, end))
  {
    hide DataTail, TestChar, ByteType, Utf8Encode, Utf.Encode8, Without, Utf.XmlChar, ContentTok, DataOk, At;
    DataRest(cs);
    DataIs(cs);
    Peek(s, i, cs);
    CharView(enc, s, i, cs[0], end);
    AsciiChar(enc, cs[0]);
    if cs[0] >= 0x80 { HighByte(enc, s[i]); }
    DataUnfold(enc, s, i, end);
    WithoutRest(cs, CLOSE);
    var more := TailFound(enc, s, i + Len(cs[0]), cs[1..], end);
    k := more + 1;
    TakeMore(cs, more);
    if s[i] == 0x5D {
      LineFeed(enc, s[i]);
      Second(s, i, cs, end);
      if i + 2 < end { NoClose(s, i, cs, end); }
      if ContentTok(enc, s, i, end).TrailingRsqb? { k := |cs|; BracketsEnd(enc, s, i, cs, end); }
    }
  }

  /** One or two brackets that end the input. */
  lemma BracketsEnd(enc: Enc, s: Text, i: nat, cs: seq<int>, end: nat)
    requires Utf.XmlChars(cs) && cs != [] && At(s, i, Utf.Encode8(cs)) && cs[0] == 0x5D
    requires Bounded(s, i + |Utf.Encode8(cs)|, end) && (i + 1 == end || (i + 2 == end && s[i + 1] == 0x5D))
    ensures i + |Utf.Encode8(cs)| == end && forall k :: 0 <= k < |cs| ==> cs[k] == 0x5D
  {
    hide Utf8Encode, Utf.Encode8, Utf.XmlChar, At;
    Peek(s, i, cs);
    Second(s, i, cs, end);
    if |cs| > 1 {
      Peek(s, i + 1, cs[1..]);
      EmptyText(cs[1..][1..]);
    }
  }

  /** One token of character data. */
  lemma ChunkFound(enc: Enc, s: Text, i: nat, cs: seq<int>, end: nat) returns (k: nat)
    requires DataOk(cs) && cs != [] && Without(cs, CLOSE) && At(s, i, Utf.Encode8(cs))
    requires Bounded(s, i + |Utf.Encode8(cs)|, end)
    ensures 1 <= k <= |cs| && Stretch(enc, cs[..k], cs[k..])
    ensures i < end && ChunkTok(enc, s, i, cs, k, end, ContentTok(enc, s, i, end))
  {
    hide DataTail, TestChar, ByteType, Utf8Encode, Utf.Encode8, Without, Utf.XmlChar, DataOk, ContentTok, At;
    DataRest(cs);
    DataIs(cs);
    Peek(s, i, cs);
    CharView(enc, s, i, cs[0], end);
    AsciiChar(enc, cs[0]);
    if cs[0] >= 0x80 { HighByte(enc, s[i]); }
    DataUnfold(enc, s, i, end);
    if Newline(enc, cs[0]) {
      k := NewlineFound(enc, s, i, cs, end);
    } else {
      k := PlainFound(enc, s, i, cs, end);
    }
  }

  // ------------------------------------------------------------------- runs

  lemma PrependTwice(a: seq<C.Event>, b: seq<C.Event>, r: C.Outcome)
    ensures C.Prepend(a, C.Prepend(b, r)) == C.Prepend(a + b, r)
    ensures C.Prepend([], r) == r
  {
    if r.Ok? {
      assert a + (b + r.events) == (a + b) + r.events && [] + r.events == r.events;
    }
  }

  lemma DataMerge(a: Text, more: seq<C.Event>, b: Text)
    requires C.Merge(more) == [C.Data(b)]
    ensures C.Merge([C.Data(a)] + more) == [C.Data(a + b)]
  {
    hide C.Merge;
    OneData(b);
    OneData(a + b);
    C.MergeCongruence([C.Data(a)], more, [C.Data(b)]);
    C.MergeDataSplit(a, b, []);
    assert [C.Data(b)] + [] == [C.Data(b)] && [C.Data(a + b)] + [] == [C.Data(a + b)];
  }

  lemma OneData(a: Text)
    ensures C.Merge([C.Data(a)]) == [C.Data(a)] && C.Merge([]) == []
  {
    C.MergeSnoc([], [], C.Data(a));
    assert [] + [C.Data(a)] == [C.Data(a)];
  }

  /** A decided token of character data. */
  lemma DataRound(env: C.Env, open: set<Text>, lvl: nat, enc: Enc, s: Text, st: C.Parser, tok: Token, next: nat)
    requires st.mode == C.InContent && st.pos < next <= |s| && (tok == DataNewline || tok == DataChars)
    requires ContentTok(enc, s, st.pos, |s|) == Tok(tok, next)
    ensures
      var x := if tok == DataNewline then [0xA] else s[st.pos..next];
      C.Run(env, open, lvl, enc, s, st, |s|, false) ==
        C.Prepend([C.Data(x)], C.Run(env, open, lvl, enc, s, st.(pos := next), |s|, false))
  {
    hide ContentTok, C.Run;
    C.RunUnfold(env, open, lvl, enc, s, st, |s|, false);
    hide C.Reference, CharRefNumber, C.NameEnd;
  }

  /** Data that ends the input. */
  lemma LastData(env: C.Env, open: set<Text>, lvl: nat, enc: Enc, s: Text, st: C.Parser)
    requires st.mode == C.InContent && st.pos < |s|
    requires ContentTok(enc, s, st.pos, |s|).TrailingCr? || ContentTok(enc, s, st.pos, |s|).TrailingRsqb?
    ensures
      var x := if ContentTok(enc, s, st.pos, |s|).TrailingCr? then [0xA] else s[st.pos..];
      C.Run(env, open, lvl, enc, s, st, |s|, false) ==
        C.Prepend([C.Data(x)], C.Run(env, open, lvl, enc, s, st.(pos := |s|), |s|, false))
  {
    hide ContentTok, C.Run;
    C.RunUnfold(env, open, lvl, enc, s, st, |s|, false);
    C.RunUnfold(env, open, lvl, enc, s, st.(pos := |s|), |s|, false);
    assert ContentTok(enc, s, |s|, |s|) == NoTok;
    assert s[st.pos..|s|] == s[st.pos..];
  }

  lemma WithoutMore(cs: seq<int>, bad: seq<int>, k: nat)
    requires k <= |cs| && Without(cs, bad)
    ensures Without(cs[k..], bad)
  {
    forall j: nat ensures !HoldsAt(cs[k..], bad, j) {
      assert !HoldsAt(cs, bad, k + j);
      assert j + |bad| <= |cs| - k ==> cs[k..][j..j + |bad|] == cs[k + j..k + j + |bad|];
    }
  }

  /** Cutting characters in two, where they stand. */
  lemma CutChars(s: Text, i: nat, cs: seq<int>, k: nat)
    requires k <= |cs| && Utf.XmlChars(cs) && At(s, i, Utf.Encode8(cs))
    ensures At(s, i, Utf.Encode8(cs[..k])) && At(s, i + |Utf.Encode8(cs[..k])|, Utf.Encode8(cs[k..]))
    ensures |Utf.Encode8(cs)| == |Utf.Encode8(cs[..k])| + |Utf.Encode8(cs[k..])|
    ensures Utf.XmlChars(cs[..k]) && Utf.XmlChars(cs[k..])
  {
    hide Utf.Encode8, Utf.XmlChar, At;
    assert cs == cs[..k] + cs[k..];
    EncodeConcat(cs[..k], cs[k..]);
    AtParts(s, i, Utf.Encode8(cs[..k]), Utf.Encode8(cs[k..]));
  }

  /** What is reported for a first token and for the rest, together. */
  lemma ReportedTogether(enc: Enc, cs: seq<int>, k: nat, x: Text, more: seq<C.Event>)
    requires 1 <= k <= |cs| && Utf.XmlChars(cs) && Stretch(enc, cs[..k], cs[k..]) && x == StretchText(enc, cs[..k])
    requires C.Merge(more) == if k == |cs| then [] else [C.Data(Reported(enc, Utf.Encode8(cs[k..])))]
    ensures C.Merge([C.Data(x)] + more) == [C.Data(Reported(enc, Utf.Encode8(cs)))]
  {
    hide C.Merge, Utf.Encode8, Reported, Stretch, StretchText, Utf.XmlChar;
    assert cs == cs[..k] + cs[k..];
    StretchReported(enc, cs[..k], cs[k..]);
    var rest := Reported(enc, Utf.Encode8(cs[k..]));
    if k < |cs| {
      DataMerge(x, more, rest);
    } else {
      NothingMore(enc, cs[k..]);
      OneData(x);
      C.MergeCongruence([C.Data(x)], more, []);
      assert [C.Data(x)] + [] == [C.Data(x)] && x + [] == x;
    }
  }

  lemma NothingMore(enc: Enc, cs: seq<int>)
    requires cs == []
    ensures Reported(enc, Utf.Encode8(cs)) == []
  {
    EncodeNone(cs);
    NormalNone();
  }

  /** Character data is read to its end and reported as one text. */
  lemma {:induction false} CharsRun(env: C.Env, open: set<Text>, lvl: nat, enc: Enc, s: Text, st: C.Parser,
      cs: seq<int>) returns (ev: seq<C.Event>)
    requires st.mode == C.InContent && DataOk(cs) && Without(cs, CLOSE) && At(s, st.pos, Utf.Encode8(cs))
    requires Bounded(s, st.pos + |Utf.Encode8(cs)|, |s|)
    ensures
      var n := st.pos + |Utf.Encode8(cs)|;
      C.Run(env, open, lvl, enc, s, st, |s|, false) ==
        C.Prepend(ev, C.Run(env, open, lvl, enc, s, st.(pos := n), |s|, false))
    ensures C.Merge(ev) == if cs == [] then [] else [C.Data(Reported(enc, Utf.Encode8(cs)))]
    decreases |cs|
  {
    hide ContentTok, C.Run, C.Merge, Utf.Encode8, Without, Stretch, Reported, Utf.XmlChar;
    ev := [];
    if cs == [] {
      EncodeNone(cs);
      OneData([]);
      PrependTwice([], [], C.Run(env, open, lvl, enc, s, st, |s|, false));
    } else {
      var k := ChunkFound(enc, s, st.pos, cs, |s|);
      var r := ContentTok(enc, s, st.pos, |s|);
      CutChars(s, st.pos, cs, k);
      WithoutMore(cs, CLOSE, k);
      var x := StretchText(enc, cs[..k]);
      assert cs[..k][0] == cs[0] && s[st.pos..|s|] == s[st.pos..];
      var more: seq<C.Event> := [];
      if r.Tok? {
        more := CharsRun(env, open, lvl, enc, s, st.(pos := r.next), cs[k..]);
        DataRound(env, open, lvl, enc, s, st, r.tok, r.next);
        PrependTwice([C.Data(x)], more,
          C.Run(env, open, lvl, enc, s, st.(pos := st.pos + |Utf.Encode8(cs)|), |s|, false));
      } else {
        assert cs[..k] == cs;
        OneData([]);
        LastData(env, open, lvl, enc, s, st);
        assert [C.Data(x)] + more == [C.Data(x)];
      }
      ReportedTogether(enc, cs, k, x, more);
      ev := [C.Data(x)] + more;
    }
  }

  // ---------------------------------------------------------- CDATA sections

  /** The characters stand there, and the end of the section after them. */
  predicate Section(s: Text, i: nat, cs: seq<int>, end: nat)
  {
    && Utf.XmlChars(cs) && At(s, i, Utf.Encode8(cs)) && At(s, i + |Utf.Encode8(cs)|, CDATA_END)
    && i + |Utf.Encode8(cs)| + 3 <= end <= |s|
  }

  lemma SectionRest(s: Text, i: nat, cs: seq<int>, end: nat)
    requires Section(s, i, cs, end) && cs != []
    ensures Utf.XmlChar(cs[0]) && Section(s, i + Len(cs[0]), cs[1..], end)
    ensures Len(cs[0]) >= 1 && At(s, i, Utf8Encode(cs[0])) && i + Len(cs[0]) < end
    ensures if cs[0] < 0x80 then s[i] == cs[0] && Len(cs[0]) == 1 && Section(s, i + 1, cs[1..], end) else s[i] >= 0xC0
  {
    hide Utf8Encode, Utf.Encode8, Utf.XmlChar, At;
    Peek(s, i, cs);
  }

  lemma SectionEnd(s: Text, i: nat, cs: seq<int>, end: nat)
    requires Section(s, i, cs, end) && cs == []
    ensures i + 3 <= end && s[i] == 0x5D && s[i + 1] == 0x5D && s[i + 2] == 0x3E
  {
    hide Utf8Encode;
    EncodeNone(cs);
    AtByte(s, i, CDATA_END, 0);
    AtByte(s, i, CDATA_END, 1);
    AtByte(s, i, CDATA_END, 2);
  }

  /** The section does not end before its end. */
  lemma SectionHolds(s: Text, i: nat, cs: seq<int>, end: nat)
    requires Section(s, i, cs, end) && cs != [] && cs[0] == 0x5D
    requires i + 2 < |s| && s[i + 1] == 0x5D && s[i + 2] == 0x3E
    ensures HoldsAt(cs, CLOSE, 0)
  {
    hide Utf8Encode, Utf.Encode8, Utf.XmlChar, Section;
    SectionRest(s, i, cs, end);
    if |cs| == 1 {
      SectionEnd(s, i + 1, cs[1..], end);
    } else {
      SectionRest(s, i + 1, cs[1..], end);
      assert cs[1..][1..] == cs[2..];
      if |cs| == 2 {
        SectionEnd(s, i + 2, cs[2..], end);
      } else {
        SectionRest(s, i + 2, cs[2..], end);
        assert cs[0..3] == [cs[0], cs[1], cs[2]];
      }
    }
  }

  lemma SectionGoesOn(s: Text, i: nat, cs: seq<int>, end: nat)
    requires Section(s, i, cs, end) && cs != [] && cs[0] == 0x5D && Without(cs, CLOSE) && i + 2 < |s|
    ensures !(s[i + 1] == 0x5D && s[i + 2] == 0x3E)
  {
    hide Section, HoldsAt;
    if s[i + 1] == 0x5D && s[i + 2] == 0x3E {
      SectionHolds(s, i, cs, end);
      assert false;
    }
  }

  lemma CdataTailUnfold(enc: Enc, s: Text, i: nat, end: nat)
    requires i < end <= |s|
    ensures
      var c, t := ByteType(enc, s[i]), TestChar(enc, DataChar, s, i, end);
      CdataTail(enc, s, i, end) ==
        if t.Fits? then CdataTail(enc, s, i + t.n, end)
        else if !t.NotCovered? || c in {CR, LF, RSQB} then i
        else CdataTail(enc, s, i + 1, end)
  {
    hide TestChar, ByteType;
  }

  lemma {:induction false} CdataTailFound(enc: Enc, s: Text, i: nat, cs: seq<int>, end: nat) returns (k: nat)
    requires Section(s, i, cs, end)
    ensures k <= |cs| && CdataTail(enc, s, i, end) == i + |Utf.Encode8(cs[..k])|
    ensures forall j :: 0 <= j < k ==> !Newline(enc, cs[j])
    decreases |cs|
  {
    hide CdataTail, TestChar, ByteType, Utf8Encode, Utf.Encode8, Utf.XmlChar, Section;
    SectionRoom(s, i, cs, end);
    k := 0;
    EncodeNone([]);
    assert cs[..0] == [];
    if cs == [] {
      SectionEnd(s, i, cs, end);
      CdataTailUnfold(enc, s, i, end);
      BracketView(enc, s, i, end);
    } else {
      SectionRest(s, i, cs, end);
      CdataTailUnfold(enc, s, i, end);
      CharView(enc, s, i, cs[0], end);
      AsciiChar(enc, cs[0]);
      if CdataTail(enc, s, i, end) != i {
        var more := CdataTailFound(enc, s, i + Len(cs[0]), cs[1..], end);
        k := more + 1;
        TakeMore(cs, more);
      }
    }
  }

  lemma BracketView(enc: Enc, s: Text, i: nat, end: nat)
    requires i < end <= |s| && s[i] == 0x5D
    ensures TestChar(enc, DataChar, s, i, end) == NotCovered && ByteType(enc, s[i]) == RSQB
  {
  }

  /** cdataSectionTok, without its partial cases. */
  lemma CdataUnfold(enc: Enc, s: Text, i: nat, end: nat)
    requires i + 2 < end <= |s|
    ensures
      var c, t := ByteType(enc, s[i]), TestChar(enc, DataChar, s, i, end);
      CdataTok(enc, s, i, end) ==
        if c == RSQB then
          if s[i + 1] == RSQB_CHAR && s[i + 2] == GT_CHAR then Tok(CdataClose, i + 3)
          else Tok(DataChars, CdataTail(enc, s, i + 1, end))
        else if c == CR then Tok(DataNewline, if ByteType(enc, s[i + 1]) == LF then i + 2 else i + 1)
        else if c == LF then Tok(DataNewline, i + 1)
        else if t.Fits? then Tok(DataChars, CdataTail(enc, s, i + t.n, end))
        else if t.NotCovered? then Tok(DataChars, CdataTail(enc, s, i + 1, end))
        else if t.CutOff? then PartialChar
        else Invalid(i)
  {
    hide TestChar, ByteType, CdataTail;
  }

  /** A line end in a section. */
  lemma SectionNewline(enc: Enc, s: Text, i: nat, cs: seq<int>, end: nat) returns (k: nat)
    requires Section(s, i, cs, end) && cs != [] && Newline(enc, cs[0])
    ensures 1 <= k <= |cs| && Stretch(enc, cs[..k], cs[k..])
    ensures i < end && CdataTok(enc, s, i, end) == Tok(DataNewline, i + |Utf.Encode8(cs[..k])|)
  {
    hide CdataTail, CdataTok, TestChar, ByteType, Utf8Encode, Utf.Encode8, Utf.XmlChar, Section, At;
    SectionRest(s, i, cs, end);
    SectionRoom(s, i, cs, end);
    AsciiChar(enc, cs[0]);
    CdataUnfold(enc, s, i, end);
    k := 1;
    if cs[0] == 0xD {
      AfterCr(s, i, cs, end);
      LineFeed(enc, s[i + 1]);
      if s[i + 1] == 0xA { k := 2; }
    }
    assert cs[..k] == if k == 2 then [cs[0], cs[1]] else [cs[0]];
    LineEndText(enc, cs[..k]);
  }

  /** One token of a CDATA section. */
  lemma CdataChunk(enc: Enc, s: Text, i: nat, cs: seq<int>, end: nat) returns (k: nat)
    requires Section(s, i, cs, end) && cs != [] && Without(cs, CLOSE)
    ensures 1 <= k <= |cs| && Stretch(enc, cs[..k], cs[k..])
    ensures i < end && CdataTok(enc, s, i, end) ==
      Tok(if Newline(enc, cs[0]) then DataNewline else DataChars, i + |Utf.Encode8(cs[..k])|)
  {
    hide CdataTail, CdataTok, TestChar, ByteType, Utf8Encode, Utf.Encode8, Utf.XmlChar, Section, Without, At;
    SectionRest(s, i, cs, end);
    SectionRoom(s, i, cs, end);
    if Newline(enc, cs[0]) {
      k := SectionNewline(enc, s, i, cs, end);
    } else {
      CharView(enc, s, i, cs[0], end);
      AsciiChar(enc, cs[0]);
      if cs[0] >= 0x80 { HighByte(enc, s[i]); }
      LineFeed(enc, s[i]);
      CdataUnfold(enc, s, i, end);
      var more := CdataTailFound(enc, s, i + Len(cs[0]), cs[1..], end);
      k := more + 1;
      TakeMore(cs, more);
      if s[i] == 0x5D { SectionGoesOn(s, i, cs, end); }
    }
  }

  lemma SectionRoom(s: Text, i: nat, cs: seq<int>, end: nat)
    requires Section(s, i, cs, end)
    ensures i + |Utf.Encode8(cs)| + 3 <= end <= |s|
  {
  }

  /** What follows a carriage return in a section. */
  lemma AfterCr(s: Text, i: nat, cs: seq<int>, end: nat)
    requires Section(s, i, cs, end) && cs != [] && cs[0] < 0x80
    ensures i + 1 < |s| && (s[i + 1] == 0xA <==> |cs| > 1 && cs[1] == 0xA)
  {
    hide Utf8Encode, Utf.Encode8, Utf.XmlChar, Section;
    SectionRoom(s, i, cs, end);
    SectionRest(s, i, cs, end);
    if |cs| == 1 {
      SectionEnd(s, i + 1, cs[1..], end);
    } else {
      SectionRest(s, i + 1, cs[1..], end);
    }
  }

  /** A decided token inside a section. */
  lemma SectionRound(env: C.Env, open: set<Text>, lvl: nat, enc: Enc, s: Text, st: C.Parser, tok: Token, next: nat)
    requires st.mode == C.InCdata && st.pos < next <= |s| && CdataTok(enc, s, st.pos, |s|) == Tok(tok, next)
    requires tok == DataNewline || tok == DataChars || tok == CdataClose
    ensures
      var st' := if tok == CdataClose then C.Parser(st.stack, C.InContent, next) else st.(pos := next);
      var e := if tok == CdataClose then C.EndCdata else C.Data(if tok == DataNewline then [0xA] else s[st.pos..next]);
      C.Run(env, open, lvl, enc, s, st, |s|, false) == C.Prepend([e], C.Run(env, open, lvl, enc, s, st', |s|, false))
  {
    hide CdataTok, C.Run;
    C.RunUnfold(env, open, lvl, enc, s, st, |s|, false);
    hide C.Reference, C.Act;
  }

  /** The body of a section, up to its end. */
  lemma {:induction false} SectionRun(env: C.Env, open: set<Text>, lvl: nat, enc: Enc, s: Text, st: C.Parser,
      cs: seq<int>) returns (ev: seq<C.Event>)
    requires st.mode == C.InCdata && Section(s, st.pos, cs, |s|) && Without(cs, CLOSE)
    ensures
      var n := st.pos + |Utf.Encode8(cs)|;
      && n + 3 <= |s|
      && C.Run(env, open, lvl, enc, s, st, |s|, false) ==
         C.Prepend(ev + [C.EndCdata], C.Run(env, open, lvl, enc, s, C.Parser(st.stack, C.InContent, n + 3), |s|, false))
    ensures C.Merge(ev) == if cs == [] then [] else [C.Data(Reported(enc, Utf.Encode8(cs)))]
    decreases |cs|
  {
    hide CdataTok, C.Run, C.Merge, Utf.Encode8, Without, Stretch, Reported, Utf.XmlChar, Section;
    SectionRoom(s, st.pos, cs, |s|);
    ev := [];
    if cs == [] {
      EncodeNone(cs);
      OneData([]);
      SectionEnd(s, st.pos, cs, |s|);
      SectionCloses(enc, s, st.pos, |s|);
      SectionRound(env, open, lvl, enc, s, st, CdataClose, st.pos + 3);
      assert [] + [C.EndCdata] == [C.EndCdata];
    } else {
      var k := CdataChunk(enc, s, st.pos, cs, |s|);
      var r := CdataTok(enc, s, st.pos, |s|);
      SectionCut(s, st.pos, cs, k, |s|);
      WithoutMore(cs, CLOSE, k);
      var x := StretchText(enc, cs[..k]);
      var more := SectionRun(env, open, lvl, enc, s, st.(pos := r.next), cs[k..]);
      SectionRound(env, open, lvl, enc, s, st, r.tok, r.next);
      var end := C.Parser(st.stack, C.InContent, st.pos + |Utf.Encode8(cs)| + 3);
      PrependTwice([C.Data(x)], more + [C.EndCdata], C.Run(env, open, lvl, enc, s, end, |s|, false));
      assert [C.Data(x)] + (more + [C.EndCdata]) == ([C.Data(x)] + more) + [C.EndCdata];
      ReportedTogether(enc, cs, k, x, more);
      ev := [C.Data(x)] + more;
    }
  }

  lemma SectionCloses(enc: Enc, s: Text, i: nat, end: nat)
    requires i + 3 <= end <= |s| && s[i] == 0x5D && s[i + 1] == 0x5D && s[i + 2] == 0x3E
    ensures CdataTok(enc, s, i, end) == Tok(CdataClose, i + 3)
  {
    hide TestChar, CdataTail;
  }

  lemma SectionCut(s: Text, i: nat, cs: seq<int>, k: nat, end: nat)
    requires Section(s, i, cs, end) && k <= |cs|
    ensures
      var n := i + |Utf.Encode8(cs[..k])|;
      && Section(s, n, cs[k..], end) && n <= |s| && s[i..n] == Utf.Encode8(cs[..k])
      && |Utf.Encode8(cs)| == |Utf.Encode8(cs[..k])| + |Utf.Encode8(cs[k..])| && Utf.XmlChars(cs)
  {
    hide Utf.Encode8, Utf.XmlChar;
    CutChars(s, i, cs, k);
  }
}
