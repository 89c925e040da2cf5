/**
  The converse of ContentMeans: a text that the content loop accepts is one of the grammar.
  So what is accepted is the grammar, and what is reported is what it means.
*/
module ContentIs {
  import opened Scanner
  import opened Tokenizer
  import opened References
  import opened TagNames
  import opened Tokens
  import opened Grammar
  import opened Accepted
  import opened CharData
  import opened Documents
  import opened Exact
  import Utf
  import C = Content

  // ---------------------------------------------------------- character data

  predicate CloseAt(s: Text, j: nat, end: nat)
  {
    j + 2 < end <= |s| && s[j] == 0x5D && s[j + 1] == 0x5D && s[j + 2] == 0x3E
  }

  /** `]]>` begins nowhere from `i` to `n`. */
  predicate NoneClose(s: Text, i: nat, n: nat, end: nat) { forall j :: i <= j < n ==> !CloseAt(s, j, end) }

  /** Characters stand from `i` to `n`, without `]]>`, and outside CDATA sections without `<` and `&`. */
  predicate Data(raw: bool, s: Text, i: nat, cs: seq<int>, n: nat, end: nat)
  {
    (if raw then Utf.XmlChars(cs) else DataOk(cs)) && At(s, i, Utf.Encode8(cs)) && i + |Utf.Encode8(cs)| == n &&
      NoneClose(s, i, n, end)
  }

  lemma HighTrail(c: int)
    requires Utf.XmlChar(c) && c >= 0x80
    ensures forall k :: 0 <= k < Len(c) ==> Utf8Encode(c)[k] >= 0x80
  {
  }

  lemma DataNothing(raw: bool, s: Text, i: nat, end: nat)
    requires i <= |s|
    ensures Data(raw, s, i, [], i, end)
  {
    EncodeNone([]);
    AtSlice(s, i, i);
  }

  lemma DataCons(raw: bool, s: Text, i: nat, c: int, cs: seq<int>, n: nat, end: nat)
    requires Utf.XmlChar(c) && (raw || (c != 0x3C && c != 0x26)) && At(s, i, Utf8Encode(c)) && !CloseAt(s, i, end)
    requires Data(raw, s, i + Len(c), cs, n, end) && 1 <= Len(c)
    ensures Data(raw, s, i, [c] + cs, n, end)
  {
    var t := [c] + cs;
    assert t[1..] == cs && t[0] == c;
    EncodeStep(t);
    if c >= 0x80 { HighTrail(c); }
    FirstByte(c);
    hide Utf8Encode, Utf.Encode8, Utf.XmlChar, At;
    AtJoin(s, i, Utf8Encode(c), Utf.Encode8(cs));
    forall j | i <= j < n ensures !CloseAt(s, j, end) {
      if i < j < i + Len(c) { AtByte(s, i, Utf8Encode(c), j - i); }
    }
  }

  lemma DataThen(raw: bool, s: Text, i: nat, a: seq<int>, m: nat, b: seq<int>, n: nat, end: nat)
    requires Data(raw, s, i, a, m, end) && Data(raw, s, m, b, n, end)
    ensures Data(raw, s, i, a + b, n, end)
  {
    hide Utf8Encode, Utf.Encode8, Utf.XmlChar;
    EncodeConcat(a, b);
    AtJoin(s, i, Utf.Encode8(a), Utf.Encode8(b));
  }

  /** A byte where the second loop of contentTok goes on. */
  lemma {:induction false} TailFrom(enc: Enc, s: Text, i: nat, end: nat) returns (cs: seq<int>)
    requires i <= end <= |s| && DataTail(enc, s, i, end).Tok?
    ensures Data(false, s, i, cs, DataTail(enc, s, i, end).next, end)
    decreases end - i
  {
    hide DataTail, TestChar, ByteType, Data, Utf8Encode;
    TailUnfold(enc, s, i, end);
    cs := [];
    DataNothing(false, s, i, end);
    if DataTail(enc, s, i, end) != Tok(DataChars, i) {
      var c := CharFrom(enc, s, i, end);
      AsciiChar(enc, c);
      CharView(enc, s, i, c, end);
      if c >= 0x80 { HighByte(enc, s[i]); }
      NoMarks(enc, c, s[i]);
      var rest := TailFrom(enc, s, i + Len(c), end);
      DataCons(false, s, i, c, rest, DataTail(enc, s, i, end).next, end);
      cs := [c] + rest;
    }
  }

  lemma NoMarks(enc: Enc, c: int, b: Byte)
    requires c < 0x80 ==> c == b
    requires ByteType(enc, b) !in {AMP, LT}
    ensures c != 0x3C && c != 0x26
    ensures ByteType(enc, b) != RSQB ==> b != 0x5D
  {
  }

  lemma OneChar(s: Text, i: nat, c: int)
    requires i < |s| && s[i] == c && c < 0x80 && Utf.XmlChar(c)
    ensures At(s, i, Utf8Encode(c)) && Len(c) == 1
  {
    AtOne(s, i, c);
  }

  /** A single ASCII character as data. */
  lemma DataOne(raw: bool, s: Text, i: nat, c: int, cs: seq<int>, n: nat, end: nat)
    requires i < |s| && s[i] == c && c < 0x80 && Utf.XmlChar(c) && (raw || (c != 0x3C && c != 0x26))
    requires !CloseAt(s, i, end)
    requires Data(raw, s, i + 1, cs, n, end)
    ensures Data(raw, s, i, [c] + cs, n, end)
  {
    hide Data, Utf8Encode, Utf.XmlChar;
    OneChar(s, i, c);
    DataCons(raw, s, i, c, cs, n, end);
  }

  /** A line end as data. */
  lemma LineFrom(enc: Enc, s: Text, i: nat, end: nat) returns (cs: seq<int>)
    requires i < end <= |s| && (ByteType(enc, s[i]) == CR || ByteType(enc, s[i]) == LF)
    requires ContentTok(enc, s, i, end).Tok? || ContentTok(enc, s, i, end).TrailingCr?
    ensures
      var r := ContentTok(enc, s, i, end);
      cs != [] && Data(false, s, i, cs, if r.Tok? then r.next else end, end)
  {
    hide ByteType, Data, ContentTok, TestChar, DataTail;
    DataUnfold(enc, s, i, end);
    LineBytes(enc, s[i]);
    var r := ContentTok(enc, s, i, end);
    var n := if r.Tok? then r.next else end;
    DataNothing(false, s, n, end);
    if n == i + 2 {
      LineBytes(enc, s[i + 1]);
      DataOne(false, s, i + 1, s[i + 1], [], n, end);
      DataOne(false, s, i, s[i], [s[i + 1] as int] + [], n, end);
      cs := [s[i] as int] + ([s[i + 1] as int] + []);
    } else {
      DataOne(false, s, i, s[i], [], n, end);
      cs := [s[i] as int] + [];
    }
  }

  lemma LineBytes(enc: Enc, b: Byte)
    ensures ByteType(enc, b) == CR ==> b == 0xD
    ensures ByteType(enc, b) == LF ==> b == 0xA
    ensures ByteType(enc, b) == RSQB <==> b == 0x5D
    ensures Utf.XmlChar(0xD) && Utf.XmlChar(0xA) && Utf.XmlChar(0x5D)
  {
  }

  /** Brackets at the beginning of data. */
  lemma BracketFrom(enc: Enc, s: Text, i: nat, end: nat) returns (cs: seq<int>)
    requires i < end <= |s| && s[i] == 0x5D
    requires ContentTok(enc, s, i, end).Tok? || ContentTok(enc, s, i, end).TrailingRsqb?
    ensures
      var r := ContentTok(enc, s, i, end);
      cs != [] && Data(false, s, i, cs, if r.Tok? then r.next else end, end)
  {
    hide ByteType, Data, ContentTok, TestChar, DataTail;
    LineBytes(enc, s[i]);
    DataUnfold(enc, s, i, end);
    var r := ContentTok(enc, s, i, end);
    if r.Tok? {
      var rest := TailFrom(enc, s, i + 1, end);
      DataOne(false, s, i, 0x5D, rest, r.next, end);
      cs := [0x5D] + rest;
    } else {
      DataNothing(false, s, end, end);
      if i + 2 == end {
        DataOne(false, s, i + 1, 0x5D, [], end, end);
        DataOne(false, s, i, 0x5D, [0x5D] + [], end, end);
        cs := [0x5D] + ([0x5D] + []);
      } else {
        DataOne(false, s, i, 0x5D, [], end, end);
        cs := [0x5D] + [];
      }
    }
  }

  /** What one token of character data covers. */
  lemma ChunkFrom(enc: Enc, s: Text, i: nat, end: nat) returns (cs: seq<int>)
    requires i < end <= |s| && s[i] != 0x3C && s[i] != 0x26
    requires ContentTok(enc, s, i, end).Tok? || ContentTok(enc, s, i, end).TrailingCr? ||
      ContentTok(enc, s, i, end).TrailingRsqb?
    ensures
      var r := ContentTok(enc, s, i, end);
      cs != [] && Data(false, s, i, cs, if r.Tok? then r.next else end, end)
  {
    hide ByteType, Data, ContentTok, TestChar, DataTail, Utf8Encode;
    LastClass(enc, s[i]);
    LineBytes(enc, s[i]);
    DataUnfold(enc, s, i, end);
    if ByteType(enc, s[i]) == CR || ByteType(enc, s[i]) == LF {
      cs := LineFrom(enc, s, i, end);
    } else if s[i] == 0x5D {
      cs := BracketFrom(enc, s, i, end);
    } else {
      var c := CharFrom(enc, s, i, end);
      AsciiChar(enc, c);
      CharView(enc, s, i, c, end);
      NoMarks(enc, c, s[i]);
      var rest := TailFrom(enc, s, i + Len(c), end);
      DataCons(false, s, i, c, rest, ContentTok(enc, s, i, end).next, end);
      cs := [c] + rest;
    }
  }

  /** In a run that ends well, content goes on with a token, or ends with a carriage return or brackets. */
  lemma RunTokens(env: C.Env, open: set<Text>, lvl: nat, enc: Enc, s: Text, st: C.Parser)
    requires st.mode == C.InContent && st.pos < |s| && C.Run(env, open, lvl, enc, s, st, |s|, false).Ok?
    ensures
      var r := ContentTok(enc, s, st.pos, |s|);
      r.Tok? || r.TrailingCr? || r.TrailingRsqb?
  {
    hide C.Run, ContentTok, C.Act, C.Reference;
    C.RunUnfold(env, open, lvl, enc, s, st, |s|, false);
    NoTokIs(enc, s, st.pos, |s|);
  }

  lemma NoTokIs(enc: Enc, s: Text, i: nat, end: nat)
    requires i < end <= |s|
    ensures !ContentTok(enc, s, i, end).NoTok?
  {
  }

  lemma DataToken(enc: Enc, s: Text, i: nat, end: nat)
    requires i < end <= |s| && s[i] != 0x3C && s[i] != 0x26 && ContentTok(enc, s, i, end).Tok?
    ensures ContentTok(enc, s, i, end).tok == DataNewline || ContentTok(enc, s, i, end).tok == DataChars
  {
    hide ByteType, ContentTok, TestChar, DataTail;
    LastClass(enc, s[i]);
    DataUnfold(enc, s, i, end);
    TailUnfold(enc, s, i, end);
  }

  /** In a run that ends well: character data, up to the next markup. */
  lemma {:induction false} CharsFrom(env: C.Env, open: set<Text>, lvl: nat, enc: Enc, s: Text, st: C.Parser)
      returns (cs: seq<int>, n: nat)
    requires st.mode == C.InContent && st.pos < |s| && s[st.pos] != 0x3C && s[st.pos] != 0x26
    requires C.Run(env, open, lvl, enc, s, st, |s|, false).Ok?
    ensures cs != [] && Data(false, s, st.pos, cs, n, |s|) && Bounded(s, n, |s|)
    decreases |s| - st.pos
  {
    hide C.Run, ContentTok, Data;
    RunTokens(env, open, lvl, enc, s, st);
    cs := ChunkFrom(enc, s, st.pos, |s|);
    var r := ContentTok(enc, s, st.pos, |s|);
    n := if r.Tok? then r.next else |s|;
    if n < |s| && s[n] != 0x3C && s[n] != 0x26 {
      DataToken(enc, s, st.pos, |s|);
      DataRound(env, open, lvl, enc, s, st, r.tok, r.next);
      var more, m := CharsFrom(env, open, lvl, enc, s, st.(pos := n));
      DataThen(false, s, st.pos, cs, n, more, m, |s|);
      cs, n := cs + more, m;
    }
  }

  /** Characters that begin with `]]>`, in place. */
  lemma CloseHere(s: Text, i: nat, cs: seq<int>)
    requires Utf.XmlChars(cs) && |cs| >= 3 && cs[..3] == CLOSE && At(s, i, Utf.Encode8(cs))
    ensures i + 3 <= i + |Utf.Encode8(cs)| <= |s| && s[i] == 0x5D && s[i + 1] == 0x5D && s[i + 2] == 0x3E
  {
    assert cs[0] == cs[..3][0] && cs[1] == cs[..3][1] && cs[2] == cs[..3][2];
    hide Utf8Encode, Utf.Encode8, Utf.XmlChar, At;
    Peek(s, i, cs);
    Peek(s, i + 1, cs[1..]);
    assert cs[1..][1..] == cs[2..];
    Peek(s, i + 2, cs[2..]);
  }

  lemma CloseFound(s: Text, i: nat, cs: seq<int>, k: nat, end: nat) returns (j: nat)
    requires Utf.XmlChars(cs) && At(s, i, Utf.Encode8(cs)) && HoldsAt(cs, CLOSE, k)
    requires i + |Utf.Encode8(cs)| <= end <= |s|
    ensures i <= j < i + |Utf.Encode8(cs)| && CloseAt(s, j, end)
  {
    hide Utf8Encode, Utf.Encode8, Utf.XmlChar, At;
    CutChars(s, i, cs, k);
    j := i + |Utf.Encode8(cs[..k])|;
    assert cs[k..][..3] == cs[k..k + 3];
    CloseHere(s, j, cs[k..]);
  }

  /** Nothing of it is the end of a CDATA section. */
  lemma DataWithout(raw: bool, s: Text, i: nat, cs: seq<int>, n: nat, end: nat)
    requires Data(raw, s, i, cs, n, end) && n <= end <= |s|
    ensures Without(cs, CLOSE)
  {
    hide Utf8Encode, Utf.Encode8, Utf.XmlChar, CloseAt, HoldsAt;
    forall k: nat ensures !HoldsAt(cs, CLOSE, k) {
      if HoldsAt(cs, CLOSE, k) {
        var j := CloseFound(s, i, cs, k, end);
        assert false;
      }
    }
  }

  // ---------------------------------------------------------- CDATA sections

  lemma {:induction false} CdataTailFrom(enc: Enc, s: Text, i: nat, end: nat) returns (cs: seq<int>)
    requires i <= end <= |s|
    ensures Data(true, s, i, cs, CdataTail(enc, s, i, end), end)
    decreases end - i
  {
    hide CdataTail, TestChar, ByteType, Data, Utf8Encode;
    cs := [];
    DataNothing(true, s, i, end);
    CdataNone(enc, s, end);
    if i < end {
      CdataTailUnfold(enc, s, i, end);
      if CdataTail(enc, s, i, end) != i {
        var c := CharFrom(enc, s, i, end);
        CharView(enc, s, i, c, end);
        AsciiChar(enc, c);
        if c >= 0x80 { HighByte(enc, s[i]); }
        LineBytes(enc, s[i]);
        var rest := CdataTailFrom(enc, s, i + Len(c), end);
        DataCons(true, s, i, c, rest, CdataTail(enc, s, i, end), end);
        cs := [c] + rest;
      }
    }
  }

  lemma CdataNone(enc: Enc, s: Text, end: nat)
    requires end <= |s|
    ensures CdataTail(enc, s, end, end) == end
  {
  }

  /** cdataSectionTok, where it decides. */
  lemma CdataDecides(enc: Enc, s: Text, i: nat, end: nat)
    requires i < end <= |s| && CdataTok(enc, s, i, end).Tok?
    ensures
      var c, t, r := ByteType(enc, s[i]), TestChar(enc, DataChar, s, i, end), CdataTok(enc, s, i, end);
      if c == RSQB then
        && i + 1 < end && (s[i + 1] == 0x5D ==> i + 2 < end)
        && r == if s[i + 1] == 0x5D && s[i + 2] == 0x3E then Tok(CdataClose, i + 3)
                else Tok(DataChars, CdataTail(enc, s, i + 1, end))
      else if c == CR then
        i + 1 < end && r == Tok(DataNewline, if ByteType(enc, s[i + 1]) == LF then i + 2 else i + 1)
      else if c == LF then r == Tok(DataNewline, i + 1)
      else if t.Fits? then r == Tok(DataChars, CdataTail(enc, s, i + t.n, end))
      else t.NotCovered? && r == Tok(DataChars, CdataTail(enc, s, i + 1, end))
  {
    hide TestChar, ByteType, CdataTail;
  }

  lemma CloseStarts(s: Text, j: nat, end: nat)
    ensures j < end <= |s| ==>
      (CloseAt(s, j, end) <==> j + 2 < end && s[j] == 0x5D && s[j + 1] == 0x5D && s[j + 2] == 0x3E)
  {
  }

  /** One or two bytes of a line end. */
  lemma LineOf(s: Text, i: nat, n: nat, end: nat) returns (cs: seq<int>)
    requires i < n <= end <= |s| && n <= i + 2 && forall j :: i <= j < n ==> s[j] == 0xD || s[j] == 0xA
    ensures cs != [] && Data(true, s, i, cs, n, end)
  {
    hide Data;
    DataNothing(true, s, n, end);
    if n == i + 2 {
      DataOne(true, s, i + 1, s[i + 1], [], n, end);
      DataOne(true, s, i, s[i], [s[i + 1] as int] + [], n, end);
      cs := [s[i] as int] + ([s[i + 1] as int] + []);
    } else {
      DataOne(true, s, i, s[i], [], n, end);
      cs := [s[i] as int] + [];
    }
  }

  /** What one token of a section covers. */
  lemma CdataChunkFrom(enc: Enc, s: Text, i: nat, end: nat) returns (cs: seq<int>)
    requires i < end <= |s| && CdataTok(enc, s, i, end).Tok? && CdataTok(enc, s, i, end).tok != CdataClose
    ensures cs != [] && Data(true, s, i, cs, CdataTok(enc, s, i, end).next, end)
    ensures CdataTok(enc, s, i, end).tok == DataChars || CdataTok(enc, s, i, end).tok == DataNewline
  {
    hide ByteType, Data, CdataTok, TestChar, CdataTail, Utf8Encode, At, CloseAt;
    CdataDecides(enc, s, i, end);
    LineBytes(enc, s[i]);
    CloseStarts(s, i, end);
    var n := CdataTok(enc, s, i, end).next;
    if ByteType(enc, s[i]) == CR || ByteType(enc, s[i]) == LF {
      LineBytes(enc, if n == i + 2 then s[i + 1] else s[i]);
      cs := LineOf(s, i, n, end);
    } else if s[i] == 0x5D {
      var rest := CdataTailFrom(enc, s, i + 1, end);
      DataOne(true, s, i, 0x5D, rest, n, end);
      cs := [0x5D] + rest;
    } else {
      var c := CharFrom(enc, s, i, end);
      AsciiChar(enc, c);
      var rest := CdataTailFrom(enc, s, i + Len(c), end);
      DataCons(true, s, i, c, rest, n, end);
      cs := [c] + rest;
    }
  }

  /** In a run that ends well, a section goes on with a token. */
  lemma SectionTokens(env: C.Env, open: set<Text>, lvl: nat, enc: Enc, s: Text, st: C.Parser)
    requires st.mode == C.InCdata && st.pos <= |s| && C.Run(env, open, lvl, enc, s, st, |s|, false).Ok?
    ensures st.pos < |s| && CdataTok(enc, s, st.pos, |s|).Tok?
  {
    hide C.Run, CdataTok;
    C.RunUnfold(env, open, lvl, enc, s, st, |s|, false);
    NoCdata(enc, s, st.pos);
  }

  lemma NoCdata(enc: Enc, s: Text, i: nat)
    requires i <= |s|
    ensures CdataTok(enc, s, i, |s|).Tok? ==> i < |s|
  {
    hide ByteType, TestChar, CdataTail;
  }

  lemma CloseBytes(enc: Enc, s: Text, i: nat, end: nat)
    requires i < end <= |s| && CdataTok(enc, s, i, end).Tok? && CdataTok(enc, s, i, end).tok == CdataClose
    ensures At(s, i, CDATA_END) && CdataTok(enc, s, i, end).next == i + 3
  {
    hide ByteType, CdataTok, TestChar, CdataTail;
    CdataDecides(enc, s, i, end);
    LineBytes(enc, s[i]);
    assert s[i..i + 3] == [s[i], s[i + 1], s[i + 2]];
  }

  /** In a run that ends well: the characters of a section, up to its end. */
  lemma {:induction false} SectionCharsFrom(env: C.Env, open: set<Text>, lvl: nat, enc: Enc, s: Text, st: C.Parser)
      returns (cs: seq<int>, n: nat)
    requires st.mode == C.InCdata && st.pos <= |s| && C.Run(env, open, lvl, enc, s, st, |s|, false).Ok?
    ensures Data(true, s, st.pos, cs, n, |s|) && At(s, n, CDATA_END)
    decreases |s| - st.pos
  {
    hide C.Run, CdataTok, Data, At;
    SectionTokens(env, open, lvl, enc, s, st);
    var r := CdataTok(enc, s, st.pos, |s|);
    if r.tok == CdataClose {
      CloseBytes(enc, s, st.pos, |s|);
      DataNothing(true, s, st.pos, |s|);
      cs, n := [], st.pos;
    } else {
      var some := CdataChunkFrom(enc, s, st.pos, |s|);
      SectionRound(env, open, lvl, enc, s, st, r.tok, r.next);
      var more, m := SectionCharsFrom(env, open, lvl, enc, s, st.(pos := r.next));
      DataThen(true, s, st.pos, some, r.next, more, m, |s|);
      cs, n := some + more, m;
    }
  }

  // -------------------------------------------------------------- the pieces

  /** In a run that ends well: the next piece. */
  lemma PieceFrom(env: C.Env, open: set<Text>, lvl: nat, enc: Enc, s: Text, st: C.Parser) returns (p: Piece)
    requires st.mode == C.InContent && st.pos < |s| && C.Run(env, open, lvl, enc, s, st, |s|, false).Ok?
    ensures PieceOk(enc, p) && At(s, st.pos, PieceText(p)) && |PieceText(p)| >= 1
    ensures p.Chars? <==> s[st.pos] != 0x3C && s[st.pos] != 0x26
    ensures p.Chars? ==> Bounded(s, st.pos + |PieceText(p)|, |s|)
  {
    hide C.Run, ContentTok, Data, PieceOk, PieceText, At;
    if s[st.pos] != 0x3C && s[st.pos] != 0x26 {
      var cs, n := CharsFrom(env, open, lvl, enc, s, st);
      DataWithout(false, s, st.pos, cs, n, |s|);
      CharsOk(enc, s, st.pos, cs, n);
      p := Chars(cs);
    } else {
      RunTokens(env, open, lvl, enc, s, st);
      MarkupDecides(enc, s, st.pos, |s|);
      Begins(enc, s, st.pos, |s|);
      var r := ContentTok(enc, s, st.pos, |s|);
      if r.tok == CdataOpen {
        p := SectionPiece(env, open, lvl, enc, s, st);
      } else {
        NoDeclaration(env, open, lvl, enc, s, st);
        p := MarkupFrom(enc, s, st.pos, |s|);
        NotChars(p, r.tok);
      }
    }
  }

  lemma NotChars(p: Piece, tok: Token)
    requires IsPiece(tok, p)
    ensures !p.Chars?
  {
  }

  lemma CharsOk(enc: Enc, s: Text, i: nat, cs: seq<int>, n: nat)
    requires Data(false, s, i, cs, n, |s|) && cs != [] && Without(cs, CLOSE)
    ensures PieceOk(enc, Chars(cs)) && At(s, i, PieceText(Chars(cs))) && i + |PieceText(Chars(cs))| == n
    ensures |PieceText(Chars(cs))| >= 1
  {
    hide Utf8Encode, Utf.Encode8, Without, Utf.XmlChar, At;
    EncodeFirst(cs);
  }

  /** Markup is never cut short where a run ends well. */
  lemma MarkupDecides(enc: Enc, s: Text, i: nat, end: nat)
    requires i < end <= |s| && (s[i] == 0x3C || s[i] == 0x26)
    ensures !ContentTok(enc, s, i, end).TrailingCr? && !ContentTok(enc, s, i, end).TrailingRsqb?
  {
    hide Scan, TestChar, DataTail;
  }

  /** The XML declaration is refused in content. */
  lemma NoDeclaration(env: C.Env, open: set<Text>, lvl: nat, enc: Enc, s: Text, st: C.Parser)
    requires st.mode == C.InContent && st.pos < |s| && C.Run(env, open, lvl, enc, s, st, |s|, false).Ok?
    requires ContentTok(enc, s, st.pos, |s|).Tok?
    ensures ContentTok(enc, s, st.pos, |s|).tok != XmlDecl
  {
    hide C.Run, ContentTok;
    var r := ContentTok(enc, s, st.pos, |s|);
    if r.tok == XmlDecl {
      ActRun(env, open, lvl, enc, s, st, XmlDecl, r.next);
      assert false;
    }
  }

  lemma SectionPiece(env: C.Env, open: set<Text>, lvl: nat, enc: Enc, s: Text, st: C.Parser) returns (p: Piece)
    requires st.mode == C.InContent && st.pos < |s| && C.Run(env, open, lvl, enc, s, st, |s|, false).Ok?
    requires s[st.pos] == 0x3C && ContentTok(enc, s, st.pos, |s|).Tok?
    requires ContentTok(enc, s, st.pos, |s|).tok == CdataOpen
    ensures p.CdSect? && PieceOk(enc, p) && At(s, st.pos, PieceText(p)) && |PieceText(p)| >= 1
  {
    hide C.Run, ContentTok, Data, Utf.Encode8, Without, PieceOk, At;
    var m := MarkupFrom(enc, s, st.pos, |s|);
    var b := st.pos + 9;
    ActRun(env, open, lvl, enc, s, st, CdataOpen, b);
    var cs, n := SectionCharsFrom(env, open, lvl, enc, s, C.Parser(st.stack, C.InCdata, b));
    AtLength(s, n, CDATA_END);
    DataWithout(true, s, b, cs, n, |s|);
    RawChars(s, b, cs, n);
    p := CdSect(cs);
    AtJoin(s, st.pos, CDATA_START, Utf.Encode8(cs));
    AtJoin(s, st.pos, CDATA_START + Utf.Encode8(cs), CDATA_END);
    SectionOk(enc, cs);
  }

  lemma SectionOk(enc: Enc, cs: seq<int>)
    requires Utf.XmlChars(cs) && Without(cs, CLOSE)
    ensures PieceOk(enc, CdSect(cs))
  {
  }

  lemma RawChars(s: Text, i: nat, cs: seq<int>, n: nat)
    requires Data(true, s, i, cs, n, |s|)
    ensures Utf.XmlChars(cs) && At(s, i, Utf.Encode8(cs)) && i + |Utf.Encode8(cs)| == n
  {
  }

  // ------------------------------------------------------------- the theorem

  /** The pieces are the text from `i` on, as far as the run went, and what they mean is what it did. */
  ghost predicate Is(env: C.Env, bodies: map<Text, seq<Piece>>, open: set<Text>, lvl: nat, enc: Enc, s: Text,
      st: C.Parser, ps: seq<Piece>, r: C.Outcome)
    requires Given(env, bodies)
  {
    var m := All(env, bodies, open, lvl, enc, st.stack, ps);
    && r.Ok? && PiecesOk(enc, ps) && At(s, st.pos, PiecesText(ps)) && r.st.pos == st.pos + |PiecesText(ps)|
    && m.Read? && m.taken == |ps| && m.stack == r.st.stack && m.ended == (r.st.mode == C.InEpilog)
    && C.Merge(r.events) == C.Merge(m.events)
    && (!m.ended ==> r.st.pos == |s|)
  }

  /** No two runs of characters next to each other. */
  lemma PiecesCons(enc: Enc, p: Piece, rest: seq<Piece>)
    requires PieceOk(enc, p) && PiecesOk(enc, rest) && !(p.Chars? && rest != [] && rest[0].Chars?)
    ensures PiecesOk(enc, [p] + rest)
  {
    hide PieceOk;
    var ps := [p] + rest;
    assert forall k :: 1 <= k < |ps| ==> ps[k] == rest[k - 1];
  }

  lemma TextCons(s: Text, i: nat, p: Piece, rest: seq<Piece>)
    requires At(s, i, PieceText(p)) && At(s, i + |PieceText(p)|, PiecesText(rest))
    ensures At(s, i, PiecesText([p] + rest)) && |PiecesText([p] + rest)| == |PieceText(p)| + |PiecesText(rest)|
  {
    hide PieceText, At;
    AtJoin(s, i, PieceText(p), PiecesText(rest));
    TextStep([p] + rest);
    assert ([p] + rest)[1..] == rest;
  }

  lemma AllCons(env: C.Env, bodies: map<Text, seq<Piece>>, open: set<Text>, lvl: nat, enc: Enc, stack: seq<C.Tag>,
      p: Piece, rest: seq<Piece>)
    requires Given(env, bodies)
    ensures
      var r := One(env, bodies, open, lvl, enc, stack, p);
      All(env, bodies, open, lvl, enc, stack, [p] + rest) ==
        if r.Rejected? || r.ended then r else Add(r, All(env, bodies, open, lvl, enc, r.stack, rest))
  {
    hide One, Given;
    AllStep(env, bodies, open, lvl, enc, stack, [p] + rest);
    assert ([p] + rest)[1..] == rest;
  }

  /** A run that goes as its first piece says: where that leads. */
  lemma GoesWhere(env: C.Env, open: set<Text>, lvl: nat, enc: Enc, s: Text, st: C.Parser, m: Reading, next: nat)
      returns (ev: seq<C.Event>)
    requires st.pos <= |s| && next <= |s| && Goes(env, open, lvl, enc, s, st, m, next)
    requires C.Run(env, open, lvl, enc, s, st, |s|, false).Ok?
    ensures m.Read? && C.Merge(ev) == C.Merge(m.events)
    ensures
      var st' := C.Parser(m.stack, if m.ended then C.InEpilog else C.InContent, next);
      && C.Run(env, open, lvl, enc, s, st', |s|, false).Ok?
      && C.Run(env, open, lvl, enc, s, st, |s|, false) == C.Prepend(ev, C.Run(env, open, lvl, enc, s, st', |s|, false))
  {
    hide C.Run, C.Merge;
    ev :| C.Merge(ev) == C.Merge(m.events) && C.Run(env, open, lvl, enc, s, st, |s|, false) ==
      C.Prepend(ev, C.Run(env, open, lvl, enc, s, C.Parser(m.stack, if m.ended then C.InEpilog else C.InContent, next),
                          |s|, false));
  }

  lemma NoPieces(enc: Enc, s: Text, i: nat)
    requires i <= |s|
    ensures PiecesOk(enc, []) && PiecesText([]) == [] && At(s, i, PiecesText([]))
  {
    AtSlice(s, i, i);
  }

  /** Every text that the content loop accepts is of the grammar, and means what was reported. */
  lemma {:induction false} ContentIsGrammar(env: C.Env, bodies: map<Text, seq<Piece>>, open: set<Text>, lvl: nat,
      enc: Enc, s: Text, st: C.Parser) returns (ps: seq<Piece>)
    requires Given(env, bodies) && st.mode == C.InContent && st.pos <= |s|
    requires C.Run(env, open, lvl, enc, s, st, |s|, false).Ok?
    ensures Is(env, bodies, open, lvl, enc, s, st, ps, C.Run(env, open, lvl, enc, s, st, |s|, false))
    ensures ps != [] && ps[0].Chars? ==> st.pos < |s| && s[st.pos] != 0x3C && s[st.pos] != 0x26
    decreases |s| - st.pos
  {
    hide C.Run, One, All, Given, PieceOk, PieceText, PiecesText, Is, Goes, C.Merge;
    if st.pos == |s| {
      ps := [];
      EmptyIs(env, bodies, open, lvl, enc, s, st);
    } else {
      var p := PieceFrom(env, open, lvl, enc, s, st);
      AtLength(s, st.pos, PieceText(p));
      var next := st.pos + |PieceText(p)|;
      PieceMeans(env, bodies, open, lvl, enc, s, st, p);
      var m := One(env, bodies, open, lvl, enc, st.stack, p);
      var ev := GoesWhere(env, open, lvl, enc, s, st, m, next);
      var rest: seq<Piece> := [];
      if !m.ended {
        rest := ContentIsGrammar(env, bodies, open, lvl, enc, s, C.Parser(m.stack, C.InContent, next));
        Follows(p, rest, s, next);
      }
      WholeIs(env, bodies, open, lvl, enc, s, st, p, rest, ev);
      ps := [p] + rest;
    }
  }

  /** After characters there is markup, or nothing. */
  lemma Follows(p: Piece, rest: seq<Piece>, s: Text, next: nat)
    requires p.Chars? ==> Bounded(s, next, |s|)
    requires rest != [] && rest[0].Chars? ==> next < |s| && s[next] != 0x3C && s[next] != 0x26
    ensures !(p.Chars? && rest != [] && rest[0].Chars?)
  {
  }

  lemma EmptyIs(env: C.Env, bodies: map<Text, seq<Piece>>, open: set<Text>, lvl: nat, enc: Enc, s: Text, st: C.Parser)
    requires Given(env, bodies) && st.mode == C.InContent && st.pos == |s|
    requires C.Run(env, open, lvl, enc, s, st, |s|, false).Ok?
    ensures Is(env, bodies, open, lvl, enc, s, st, [], C.Run(env, open, lvl, enc, s, st, |s|, false))
  {
    hide C.Run, Given, One;
    NoPieces(enc, s, st.pos);
    C.RunUnfold(env, open, lvl, enc, s, st, |s|, false);
    assert ContentTok(enc, s, |s|, |s|) == NoTok;
    hide ContentTok, C.Reference, C.Act, C.Merge, PiecesText, PiecesOk;
  }

  lemma WholeIs(env: C.Env, bodies: map<Text, seq<Piece>>, open: set<Text>, lvl: nat, enc: Enc, s: Text, st: C.Parser,
      p: Piece, rest: seq<Piece>, ev: seq<C.Event>)
    requires Given(env, bodies) && PieceOk(enc, p) && At(s, st.pos, PieceText(p)) && st.pos + |PieceText(p)| <= |s|
    requires !(p.Chars? && rest != [] && rest[0].Chars?)
    requires
      var m := One(env, bodies, open, lvl, enc, st.stack, p);
      && m.Read? && C.Merge(ev) == C.Merge(m.events)
      && var st' := C.Parser(m.stack, if m.ended then C.InEpilog else C.InContent, st.pos + |PieceText(p)|);
      var r := C.Run(env, open, lvl, enc, s, st', |s|, false);
      && C.Run(env, open, lvl, enc, s, st, |s|, false) == C.Prepend(ev, r)
      && if m.ended then rest == [] else Is(env, bodies, open, lvl, enc, s, st', rest, r)
    ensures Is(env, bodies, open, lvl, enc, s, st, [p] + rest, C.Run(env, open, lvl, enc, s, st, |s|, false))
  {
    hide C.Run, One, All, Given, PieceOk, PieceText, PiecesText, PiecesOk, C.Merge, At;
    var m := One(env, bodies, open, lvl, enc, st.stack, p);
    OneTakes(env, bodies, open, lvl, enc, st.stack, p);
    AllCons(env, bodies, open, lvl, enc, st.stack, p, rest);
    NoPieces(enc, s, st.pos + |PieceText(p)|);
    TextCons(s, st.pos, p, rest);
    PiecesCons(enc, p, rest);
    var st' := C.Parser(m.stack, if m.ended then C.InEpilog else C.InContent, st.pos + |PieceText(p)|);
    if m.ended {
      Epilog(env, open, lvl, enc, s, st');
      assert ev + [] == ev;
    } else {
      var r, more := C.Run(env, open, lvl, enc, s, st', |s|, false), All(env, bodies, open, lvl, enc, m.stack, rest);
      MergeLeft(ev, m.events, r.events);
      C.MergeCongruence(m.events, r.events, more.events);
    }
  }

  /** The text from `i` on is content of the grammar that has a meaning, to its last piece. */
  ghost predicate WellFormed(env: C.Env, bodies: map<Text, seq<Piece>>, open: set<Text>, lvl: nat, enc: Enc, s: Text,
      st: C.Parser)
    requires Given(env, bodies) && st.pos <= |s|
  {
    exists ps :: PiecesOk(enc, ps) && s[st.pos..] == PiecesText(ps) && Whole(env, bodies, open, lvl, enc, st.stack, ps)
  }

  ghost predicate Whole(env: C.Env, bodies: map<Text, seq<Piece>>, open: set<Text>, lvl: nat, enc: Enc,
      stack: seq<C.Tag>, ps: seq<Piece>)
    requires Given(env, bodies)
  {
    var m := All(env, bodies, open, lvl, enc, stack, ps);
    m.Read? && m.taken == |ps|
  }

  /** The content loop accepts a text, to its end, exactly if it is well-formed. */
  lemma AcceptedIff(env: C.Env, bodies: map<Text, seq<Piece>>, open: set<Text>, lvl: nat, enc: Enc, s: Text,
      st: C.Parser)
    requires Given(env, bodies) && st.mode == C.InContent && st.pos <= |s|
    ensures
      var r := C.Run(env, open, lvl, enc, s, st, |s|, false);
      r.Ok? && r.st.pos == |s| <==> WellFormed(env, bodies, open, lvl, enc, s, st)
  {
    hide C.Run, Given, All, PiecesOk, PiecesText, C.Merge;
    var r := C.Run(env, open, lvl, enc, s, st, |s|, false);
    if r.Ok? && r.st.pos == |s| {
      var ps := ContentIsGrammar(env, bodies, open, lvl, enc, s, st);
      assert s[st.pos..|s|] == s[st.pos..];
    }
    if WellFormed(env, bodies, open, lvl, enc, s, st) {
      var ps :| PiecesOk(enc, ps) && s[st.pos..] == PiecesText(ps) && Whole(env, bodies, open, lvl, enc, st.stack, ps);
      ContentMeans(env, bodies, open, lvl, enc, s, st, ps);
      NothingLeft(s, r, ps, All(env, bodies, open, lvl, enc, st.stack, ps));
    }
  }

  lemma NothingLeft(s: Text, r: C.Outcome, ps: seq<Piece>, m: Reading)
    requires m.Read? && m.taken == |ps| && Means(s, r, ps, m)
    ensures r.Ok? && r.st.pos == |s|
  {
    hide C.Merge;
    TextStep(ps[m.taken..]);
    assert ps[m.taken..] == [];
    assert |s[r.st.pos..]| == 0;
  }
}
