/**
  Section 2.11 of XML 1.0 on whole runs: a document parsed with the line ends it has, and
  parsed after every line end was made a line feed, gives the application the same.

  `Here` relates a place in a text to the place in its normalised form; tokens lead from
  such places to such places. The scanners never look at line ends except as blanks, so
  only the newline tokens and the blanks of attribute values had to be told about CR LF.
*/
module LineEnds {
  import opened Scanner
  import opened Tokenizer
  import opened Tokens
  import opened Lines
  import opened TagNames
  import opened References
  import C = Content
  import A = AttributeValue
  import T = StartTag
  import X = Attributes

  // ------------------------------------------------------------------ places

  ghost predicate Here(s: Text, i: nat, s': Text, i': nat)
  {
    i <= |s| && i' <= |s'| && s'[i'..] == Normalised(s[i..])
  }

  lemma HereEnd(s: Text, i: nat, s': Text, i': nat)
    requires Here(s, i, s', i')
    ensures i == |s| <==> i' == |s'|
  {
    if i < |s| {
      NormalStep(s[i..]);
    }
  }

  /** A character that is no carriage return stands in both texts. */
  lemma HereChar(s: Text, i: nat, s': Text, i': nat)
    requires Here(s, i, s', i') && i < |s| && s[i] != CR_CHAR
    ensures i' < |s'| && s'[i'] == s[i] && Here(s, i + 1, s', i' + 1)
  {
    hide Normalised;
    NormalStep(s[i..]);
    Tail(s, i, 1);
    assert s'[i'..][0] == s[i] && s'[i'..][1..] == s'[i' + 1..];
  }

  /** A line end that begins with a carriage return stands as a line feed. */
  lemma HereCr(s: Text, i: nat, s': Text, i': nat)
    requires Here(s, i, s', i') && i < |s| && s[i] == CR_CHAR
    ensures i' < |s'| && s'[i'] == LF_CHAR
    ensures
      var k := if i + 1 < |s| && s[i + 1] == LF_CHAR then 2 else 1;
      Here(s, i + k, s', i' + 1)
  {
    hide Normalised;
    NormalStep(s[i..]);
    Tail(s, i, After(s[i..]));
    assert s'[i'..][0] == LF_CHAR && s'[i'..][1..] == s'[i' + 1..];
  }

  /** A stretch without carriage returns stands in both texts. */
  lemma {:induction false} HereRun(s: Text, i: nat, s': Text, i': nat, n: nat)
    requires Here(s, i, s', i') && i + n <= |s| && CR_CHAR !in s[i..i + n]
    ensures i' + n <= |s'| && s'[i'..i' + n] == s[i..i + n] && Here(s, i + n, s', i' + n)
    decreases n
  {
    hide Here;
    HereRange(s, i, s', i');
    if n > 0 {
      assert s[i..i + n][0] == s[i] && s[i] in s[i..i + n];
      HereChar(s, i, s', i');
      assert s[i..i + n] == [s[i]] + s[i + 1..i + n];
      HereRun(s, i + 1, s', i' + 1, n - 1);
      assert s'[i'..i' + n] == [s'[i']] + s'[i' + 1..i' + n];
    }
  }

  lemma HereRange(s: Text, i: nat, s': Text, i': nat)
    requires Here(s, i, s', i')
    ensures i <= |s| && i' <= |s'|
  {
  }

  /** And a stretch of the normalised text without line feeds came from the same. */
  lemma {:induction false} HereBack(s: Text, i: nat, s': Text, i': nat, n: nat)
    requires Here(s, i, s', i') && i' + n <= |s'| && LF_CHAR !in s'[i'..i' + n]
    ensures i + n <= |s| && s[i..i + n] == s'[i'..i' + n]
    decreases n
  {
    hide Here;
    HereRange(s, i, s', i');
    if n > 0 {
      HereEnd(s, i, s', i');
      assert s'[i'..i' + n][0] == s'[i'] && s'[i'] in s'[i'..i' + n];
      if s[i] == CR_CHAR {
        HereCr(s, i, s', i');
        assert false;
      }
      HereChar(s, i, s', i');
      assert s'[i'..i' + n] == [s'[i']] + s'[i' + 1..i' + n];
      HereBack(s, i + 1, s', i' + 1, n - 1);
      assert s[i..i + n] == [s[i]] + s[i + 1..i + n];
    }
  }

  /** What stands between two such places is normalised as it stands. */
  lemma Between(s: Text, i: nat, n: nat, s': Text, i': nat, n': nat)
    requires i <= n && Here(s, i, s', i') && Here(s, n, s', n') && Apart(s[i..n], s[n..])
    ensures i' <= n' <= |s'| && s'[i'..n'] == Normalised(s[i..n])
  {
    hide Normalised;
    assert s[i..] == s[i..n] + s[n..];
    NormalConcat(s[i..n], s[n..]);
    var a := Normalised(s[i..n]);
    assert s'[i'..] == a + s'[n'..];
    assert |s'| - i' == |a| + (|s'| - n');
    assert s'[i'..n'] == s'[i'..][..|a|] == a;
  }

  // -------------------------------------------------------------- one character

  /** The test lets a character in on both sides or on neither. */
  predicate SameTest(t: CharTest, t': CharTest)
  {
    (t.Fits? || t'.Fits? ==> t' == t) && (t.NotCovered? <==> t'.NotCovered?)
  }

  /** The bytes of a character that a test lets in hold no line end after the first. */
  lemma FitsWhole(enc: Enc, kind: CharKind, s: Text, i: nat)
    requires i < |s| && Steady(enc, s)
    ensures
      var t := TestChar(enc, kind, s, i, |s|);
      t.Fits? ==> forall k :: i < k < i + t.n ==> s[k] != CR_CHAR && s[k] != LF_CHAR
  {
    hide ByteType, InvalidChar, Stops;
    var t := TestChar(enc, kind, s, i, |s|);
    if t.Fits? && t.n > 1 {
      if kind == DataChar {
        ValidTrails(s, i, t.n);
      } else {
        assert IsChar(enc, s[i..i + t.n]);
        forall k | i < k < i + t.n ensures s[k] != CR_CHAR && s[k] != LF_CHAR {
          LineEndsStop(s[k]);
        }
      }
    }
  }

  lemma LineEndsStop(b: Byte)
    ensures b == CR_CHAR || b == LF_CHAR ==> Stops(b)
  {
  }

  /** What a test says of a character depends on its bytes. */
  lemma TestOfBytes(enc: Enc, kind: CharKind, s: Text, i: nat, s': Text, i': nat, n: nat)
    requires i + n <= |s| && i' + n <= |s'| && n >= 1 && s[i..i + n] == s'[i'..i' + n]
    requires TestChar(enc, kind, s, i, |s|) == Fits(n)
    ensures TestChar(enc, kind, s', i', |s'|) == Fits(n)
  {
    hide ByteType, InvalidChar;
    assert s[i..i + n][0] == s[i] && s'[i'..i' + n][0] == s'[i'];
    InvalidOfBytes(s, i, s', i', n);
  }

  lemma InvalidOfBytes(s: Text, i: nat, s': Text, i': nat, n: nat)
    requires i + n <= |s| && i' + n <= |s'| && s[i..i + n] == s'[i'..i' + n]
    ensures 2 <= n <= 4 ==> InvalidChar(s, i, n) == InvalidChar(s', i', n)
  {
    hide Invalid2, Invalid3, Invalid4;
    var a, b := s[i..i + n], s'[i'..i' + n];
    assert n >= 2 ==> a[0] == s[i] && a[1] == s[i + 1] && b[0] == s'[i'] && b[1] == s'[i' + 1];
    assert n >= 3 ==> a[2] == s[i + 2] && b[2] == s'[i' + 2];
    assert n >= 4 ==> a[3] == s[i + 3] && b[3] == s'[i' + 3];
  }

  lemma Covered(enc: Enc, kind: CharKind, s: Text, i: nat, s': Text, i': nat)
    requires i < |s| && i' < |s'| && s[i] == s'[i']
    ensures TestChar(enc, kind, s, i, |s|).NotCovered? <==> TestChar(enc, kind, s', i', |s'|).NotCovered?
  {
    hide ByteType, InvalidChar;
  }

  lemma TestSame(enc: Enc, kind: CharKind, s: Text, i: nat, s': Text, i': nat)
    requires Here(s, i, s', i') && i < |s| && s[i] != CR_CHAR && Steady(enc, s) && Steady(enc, s')
    ensures i' < |s'| && s'[i'] == s[i]
    ensures
      var t := TestChar(enc, kind, s, i, |s|);
      && SameTest(t, TestChar(enc, kind, s', i', |s'|))
      && (t.Fits? ==> i' + t.n <= |s'| && s'[i'..i' + t.n] == s[i..i + t.n] && Here(s, i + t.n, s', i' + t.n)
                      && CR_CHAR !in s[i..i + t.n])
  {
    hide TestChar, Here, Steady;
    HereChar(s, i, s', i');
    HereRange(s, i, s', i');
    Covered(enc, kind, s, i, s', i');
    FitsWhole(enc, kind, s, i);
    FitsWhole(enc, kind, s', i');
    var t, t' := TestChar(enc, kind, s, i, |s|), TestChar(enc, kind, s', i', |s'|);
    if t.Fits? {
      HereRun(s, i, s', i', t.n);
      TestOfBytes(enc, kind, s, i, s', i', t.n);
    } else if t'.Fits? {
      NotLf(enc, kind, s', i');
      HereBack(s, i, s', i', t'.n);
      TestOfBytes(enc, kind, s', i', s, i, t'.n);
    }
  }

  lemma NotLf(enc: Enc, kind: CharKind, s: Text, i: nat)
    requires i < |s| && TestChar(enc, kind, s, i, |s|).Fits?
    ensures s[i] != LF_CHAR && s[i] != CR_CHAR
  {
  }

  // ------------------------------------------------------------------ one step

  predicate SameView(v: View, v': View)
  {
    && v.c == v'.c && v.b == v'.b
    && SameTest(v.nmstrt, v'.nmstrt) && SameTest(v.name, v'.name) && SameTest(v.data, v'.data)
    && (v.nmstrt.Fits? || v.name.Fits? ==> v.raw == v'.raw)
  }

  /** The same step, or a scan that ends without a token on both sides. */
  predicate SameMove(m: Move, m': Move)
  {
    if m.Go? || m.Accept? then m' == m else !m'.Go? && !m'.Accept?
  }

  lemma StepSame(st: State, v: View, v': View)
    requires SameView(v, v')
    ensures SameMove(CharStep(st, v), CharStep(st, v'))
  {
    hide CheckPiTarget;
    match st
    case InAtt(p) =>
    case InTag(p) =>
    case InPi(p) =>
    case InRef(p, ctx) =>
    case _ =>
  }

  lemma LookSame(enc: Enc, s: Text, i: nat, s': Text, i': nat)
    requires Here(s, i, s', i') && i < |s| && s[i] != CR_CHAR && Steady(enc, s) && Steady(enc, s')
    ensures i' < |s'| && SameView(Look(enc, s, i, |s|), Look(enc, s', i', |s'|))
  {
    hide TestChar, Here, Steady, ByteType;
    TestSame(enc, NmstrtChar, s, i, s', i');
    TestSame(enc, NameChar, s, i, s', i');
    TestSame(enc, DataChar, s, i, s', i');
    RawIs(enc, s, i);
    RawIs(enc, s', i');
  }

  lemma RawIs(enc: Enc, s: Text, i: nat)
    requires i < |s|
    ensures
      var v := Look(enc, s, i, |s|);
      && (v.nmstrt.Fits? ==> v.raw == s[i..i + v.nmstrt.n])
      && (v.name.Fits? ==> v.raw == s[i..i + v.name.n])
  {
    hide ByteType;
  }

  /** A line end, or another blank, as the scan functions see it. */
  predicate BlankView(v: View)
  {
    IsSpace(v.c) && Blank(v.b) && v.nmstrt == v.name == v.data == NotCovered
  }

  lemma LookBlank(enc: Enc, s: Text, i: nat)
    requires i < |s| && Blank(s[i])
    ensures BlankView(Look(enc, s, i, |s|))
  {
  }

  /** Values are quoted. */
  predicate Quoted(st: State)
  {
    && (st.InAtt? && st.att.AttValue? ==> st.att.open == QUOT || st.att.open == APOS)
    && (st.InRef? && st.ctx.Quote? ==> st.ctx.q == QUOT || st.ctx.q == APOS)
  }

  lemma QuotedStep(st: State, v: View)
    requires Quoted(st)
    ensures CharStep(st, v).Go? ==> Quoted(CharStep(st, v).st)
  {
    hide CheckPiTarget;
    match st
    case InAtt(p) =>
    case InTag(p) =>
    case InPi(p) =>
    case InRef(p, ctx) =>
    case _ =>
  }

  /** All blanks are alike to a scan, and two of them are as good as one. */
  lemma BlankStep(st: State, v: View, w: View)
    requires BlankView(v) && BlankView(w) && Quoted(st) && !st.Cdata?
    ensures
      var m := CharStep(st, v);
      && CharStep(st, w) == m && !m.Accept?
      && (m.Go? ==> m.n == 1 && !m.st.Cdata? && CharStep(m.st, w) == m)
  {
    hide CheckPiTarget;
    match st
    case InAtt(p) =>
    case InTag(p) =>
    case InPi(p) =>
    case InRef(p, ctx) =>
    case _ =>
  }

  lemma AcceptOne(st: State, v: View)
    ensures CharStep(st, v).Accept? ==> CharStep(st, v).an == 1
  {
    hide CheckPiTarget;
    match st
    case InAtt(p) =>
    case InTag(p) =>
    case InPi(p) =>
    case InRef(p, ctx) =>
    case _ =>
  }

  lemma {:induction false} MatchIs(s: Text, i: nat, k: nat)
    requires k <= 6 && i + 6 <= |s|
    ensures CdataMatch(s, i, k) == 6 <==> s[i + k..i + 6] == CDATA_LSQB[k..]
    decreases 6 - k
  {
    if k < 6 {
      MatchIs(s, i, k + 1);
      assert s[i + k..i + 6] == [s[i + k]] + s[i + k + 1..i + 6];
      assert CDATA_LSQB[k..] == [CDATA_LSQB[k]] + CDATA_LSQB[k + 1..];
    }
  }

  lemma CdataSame(s: Text, i: nat, s': Text, i': nat)
    requires Here(s, i, s', i') && i < |s| && i' < |s'|
    ensures
      var m, m' := CdataStep(s, i, |s|), CdataStep(s', i', |s'|);
      && SameMove(m, m') && !m.Go?
      && (m.Accept? ==> m.an == 6 && i + 6 <= |s| && s[i + 5] != CR_CHAR && Here(s, i + 6, s', i' + 6))
  {
    hide Here, CdataMatch;
    HereRange(s, i, s', i');
    assert CDATA_LSQB[0..] == CDATA_LSQB;
    if i + 6 <= |s| {
      MatchIs(s, i, 0);
      if s[i..i + 6] == CDATA_LSQB {
        assert s[i + 5] == s[i..i + 6][5];
        HereRun(s, i, s', i', 6);
      }
    }
    if i' + 6 <= |s'| {
      MatchIs(s', i', 0);
      if s'[i'..i' + 6] == CDATA_LSQB {
        HereBack(s, i, s', i', 6);
      }
    }
  }

  // ------------------------------------------------------------------ whole scans

  /** The same token, from here to here, or none. */
  ghost predicate SameScan(s: Text, i: nat, r: Result, s': Text, i': nat, r': Result)
  {
    if r.Tok? then
      && r'.Tok? && r'.tok == r.tok && i < r.next <= |s| && s[r.next - 1] != CR_CHAR && i' < r'.next
      && Here(s, r.next, s', r'.next)
    else !r'.Tok?
  }

  lemma {:induction false} ScanSame(enc: Enc, st: State, s: Text, i: nat, s': Text, i': nat)
    requires Here(s, i, s', i') && Steady(enc, s) && Steady(enc, s') && Quoted(st)
    ensures SameScan(s, i, Scan(enc, st, s, i, |s|), s', i', Scan(enc, st, s', i', |s'|))
    decreases |s| - i, 1
  {
    hide Here, Scan, CharStep, Look, Steady, CdataStep, Quoted, SameView;
    HereRange(s, i, s', i');
    HereEnd(s, i, s', i');
    ScanEmpty(enc, st, s, |s|);
    ScanEmpty(enc, st, s', |s'|);
    if i < |s| {
      if st.Cdata? {
        CdataSame(s, i, s', i');
        ScanUnfold(enc, st, s, i, |s|);
        ScanUnfold(enc, st, s', i', |s'|);
      } else if s[i] == CR_CHAR {
        ScanCr(enc, st, s, i, s', i');
      } else {
        ScanPlain(enc, st, s, i, s', i');
      }
    }
  }

  /** A character that is no carriage return. */
  lemma {:induction false} ScanPlain(enc: Enc, st: State, s: Text, i: nat, s': Text, i': nat)
    requires Here(s, i, s', i') && Steady(enc, s) && Steady(enc, s') && Quoted(st)
    requires i < |s| && !st.Cdata? && s[i] != CR_CHAR
    ensures SameScan(s, i, Scan(enc, st, s, i, |s|), s', i', Scan(enc, st, s', i', |s'|))
    decreases |s| - i, 0
  {
    hide Here, Scan, CharStep, Look, Steady, Quoted, SameView;
    HereChar(s, i, s', i');
    LookSame(enc, s, i, s', i');
    StepSame(st, Look(enc, s, i, |s|), Look(enc, s', i', |s'|));
    QuotedStep(st, Look(enc, s, i, |s|));
    AcceptOne(st, Look(enc, s, i, |s|));
    ScanMove(enc, st, s, i, |s|);
    ScanMove(enc, st, s', i', |s'|);
    var m := CharStep(st, Look(enc, s, i, |s|));
    if m.Go? {
      GoHere(enc, st, s, i, s', i');
      ScanSame(enc, m.st, s, i + m.n, s', i' + m.n);
    }
  }

  /** A step over a character that is no carriage return leads from here to here. */
  lemma GoHere(enc: Enc, st: State, s: Text, i: nat, s': Text, i': nat)
    requires Here(s, i, s', i') && Steady(enc, s) && Steady(enc, s') && i < |s| && !st.Cdata? && s[i] != CR_CHAR
    ensures
      var m := CharStep(st, Look(enc, s, i, |s|));
      m.Go? ==> i + m.n <= |s| && Here(s, i + m.n, s', i' + m.n)
  {
    hide Here, Steady, ByteType, TestChar, CharStep;
    HereRange(s, i, s', i');
    HereChar(s, i, s', i');
    HereRange(s, i + 1, s', i' + 1);
    TestSame(enc, NmstrtChar, s, i, s', i');
    TestSame(enc, NameChar, s, i, s', i');
    TestSame(enc, DataChar, s, i, s', i');
    GoLength(st, Look(enc, s, i, |s|));
  }

  /** A step goes on by one byte or by the character that it tested. */
  lemma GoLength(st: State, v: View)
    ensures
      var m := CharStep(st, v);
      m.Go? ==> m.n == 1 || Fits(m.n) in {v.nmstrt, v.name, v.data}
  {
    hide CheckPiTarget;
    match st
    case InAtt(p) =>
    case InTag(p) =>
    case InPi(p) =>
    case InRef(p, ctx) =>
    case _ =>
  }

  /** A line end that begins with a carriage return, one step or two. */
  lemma {:induction false} ScanCr(enc: Enc, st: State, s: Text, i: nat, s': Text, i': nat)
    requires Here(s, i, s', i') && Steady(enc, s) && Steady(enc, s') && Quoted(st)
    requires i < |s| && !st.Cdata? && s[i] == CR_CHAR
    ensures SameScan(s, i, Scan(enc, st, s, i, |s|), s', i', Scan(enc, st, s', i', |s'|))
    decreases |s| - i, 0
  {
    hide Here, Scan, CharStep, Look, Steady, Quoted;
    HereCr(s, i, s', i');
    LookBlank(enc, s, i);
    LookBlank(enc, s', i');
    BlankStep(st, Look(enc, s, i, |s|), Look(enc, s', i', |s'|));
    QuotedStep(st, Look(enc, s, i, |s|));
    ScanMove(enc, st, s, i, |s|);
    ScanMove(enc, st, s', i', |s'|);
    var m := CharStep(st, Look(enc, s, i, |s|));
    if m.Go? {
      if i + 1 < |s| && s[i + 1] == LF_CHAR {
        LookBlank(enc, s, i + 1);
        BlankStep(st, Look(enc, s, i, |s|), Look(enc, s, i + 1, |s|));
        ScanMove(enc, m.st, s, i + 1, |s|);
        ScanSame(enc, m.st, s, i + 2, s', i' + 1);
      } else {
        ScanSame(enc, m.st, s, i + 1, s', i' + 1);
      }
    }
  }

  // --------------------------------------------------------------- newline tokens

  lemma LineClass(enc: Enc, b: Byte)
    requires !enc.internal
    ensures (ByteType(enc, b) == CR <==> b == CR_CHAR) && (ByteType(enc, b) == LF <==> b == LF_CHAR)
    ensures ByteType(enc, b) == S <==> b == 0x20 || b == 0x9
  {
  }

  /** What a newline token of document text covers, before `end`. */
  predicate LineEnd(s: Text, i: nat, next: nat, end: nat)
    requires end <= |s|
  {
    && i < end
    && (|| (s[i] == LF_CHAR && next == i + 1)
        || (s[i] == CR_CHAR && i + 1 < end && next == if s[i + 1] == LF_CHAR then i + 2 else i + 1))
  }

  lemma NewlineIs(enc: Enc, s: Text, i: nat, next: nat, end: nat)
    requires i <= end <= |s| && !enc.internal
    ensures ContentTok(enc, s, i, end) == Tok(DataNewline, next) <==> LineEnd(s, i, next, end)
    ensures CdataTok(enc, s, i, end) == Tok(DataNewline, next) <==> LineEnd(s, i, next, end)
  {
    hide Scan, DataTail, CdataTail, TestChar, ByteType;
    if i < end {
      LineClass(enc, s[i]);
      if i + 1 < end {
        LineClass(enc, s[i + 1]);
      }
      ScanKind(enc, Lt, s, i + 1, end);
      ScanKind(enc, InRef(RefStart, NoQuote), s, i + 1, end);
      LineEndPlain(enc, s, i, end);
    }
  }

  lemma LineEndPlain(enc: Enc, s: Text, i: nat, end: nat)
    requires i < end <= |s|
    ensures TestChar(enc, DataChar, s, i, end).Fits? ==> s[i] != CR_CHAR && s[i] != LF_CHAR
  {
  }

  /** A blank of an attribute value is a space, a tab or a whole line end. */
  lemma BlankIs(enc: Enc, s: Text, i: nat, next: nat, end: nat)
    requires i <= end <= |s| && !enc.internal
    ensures A.ValueTokAt(enc, s, i, end) == A.BlankTo(next) <==>
      && i < end && Blank(s[i])
      && next == if s[i] == CR_CHAR && i + 1 < end && s[i + 1] == LF_CHAR then i + 2 else i + 1
  {
    hide Scan, A.PlainEnd, ByteType;
    if i < end {
      LineClass(enc, s[i]);
      if i + 1 < end {
        LineClass(enc, s[i + 1]);
      }
    }
  }

  // ---------------------------------------------------------------- content tokens

  /** Character data from here to here, the same bytes. */
  ghost predicate SameData(s: Text, i: nat, n: nat, s': Text, i': nat, n': nat)
  {
    && i <= n <= |s| && i' <= n' <= |s'| && n' - i' == n - i && s'[i'..n'] == s[i..n] && Here(s, n, s', n')
    && CR_CHAR !in s[i..n]
  }

  lemma DataFrom(s: Text, i: nat, k: nat, n: nat, s': Text, i': nat, k': nat, n': nat)
    requires SameData(s, i, k, s', i', k') && SameData(s, k, n, s', k', n')
    ensures SameData(s, i, n, s', i', n')
  {
    hide Here;
    assert s[i..n] == s[i..k] + s[k..n] && s'[i'..n'] == s'[i'..k'] + s'[k'..n'];
  }

  lemma DataChar1(s: Text, i: nat, s': Text, i': nat)
    requires Here(s, i, s', i') && i < |s| && s[i] != CR_CHAR
    ensures SameData(s, i, i + 1, s', i', i' + 1)
  {
    hide Here;
    HereChar(s, i, s', i');
    HereRange(s, i + 1, s', i' + 1);
  }

  lemma DataNone(s: Text, i: nat, s': Text, i': nat)
    requires Here(s, i, s', i')
    ensures SameData(s, i, i, s', i', i')
  {
    hide Normalised;
  }

  ghost predicate SameTail(s: Text, i: nat, r: Result, s': Text, i': nat, r': Result)
  {
    if r.Tok? then r'.Tok? && SameData(s, i, r.next, s', i', r'.next) else !r'.Tok?
  }

  /** The next two bytes are a bracket and `>`, as far as they are there. */
  lemma NextBytes(s: Text, i: nat, s': Text, i': nat)
    requires Here(s, i, s', i') && i < |s| && s[i] != CR_CHAR
    ensures i' < |s'| && s'[i'] == s[i] && (i + 1 == |s| <==> i' + 1 == |s'|)
    ensures i + 1 < |s| ==> (s[i + 1] == RSQB_CHAR <==> s'[i' + 1] == RSQB_CHAR)
    ensures i + 1 < |s| && s[i + 1] == RSQB_CHAR ==>
      && (i + 2 == |s| <==> i' + 2 == |s'|)
      && (i + 2 < |s| ==> (s[i + 2] == GT_CHAR <==> s'[i' + 2] == GT_CHAR))
  {
    hide Here;
    HereChar(s, i, s', i');
    HereEnd(s, i + 1, s', i' + 1);
    if i + 1 < |s| {
      ByteSame(s, i + 1, s', i' + 1, RSQB_CHAR);
      if s[i + 1] == RSQB_CHAR {
        HereChar(s, i + 1, s', i' + 1);
        HereEnd(s, i + 2, s', i' + 2);
        if i + 2 < |s| {
          ByteSame(s, i + 2, s', i' + 2, GT_CHAR);
        }
      }
    }
  }

  lemma ByteSame(s: Text, i: nat, s': Text, i': nat, b: Byte)
    requires Here(s, i, s', i') && i < |s| && b != CR_CHAR && b != LF_CHAR
    ensures i' < |s'| && (s[i] == b <==> s'[i'] == b)
  {
    hide Here;
    if s[i] == CR_CHAR {
      HereCr(s, i, s', i');
    } else {
      HereChar(s, i, s', i');
    }
  }

  lemma DataStops(enc: Enc, s: Text, i: nat)
    requires i < |s| && !enc.internal && (s[i] == CR_CHAR || s[i] == LF_CHAR)
    ensures DataTail(enc, s, i, |s|) == Tok(DataChars, i) && CdataTail(enc, s, i, |s|) == i
  {
  }

  lemma DataFits(enc: Enc, s: Text, i: nat)
    requires i < |s| && TestChar(enc, DataChar, s, i, |s|).Fits?
    ensures
      var n := TestChar(enc, DataChar, s, i, |s|).n;
      && DataTail(enc, s, i, |s|) == DataTail(enc, s, i + n, |s|)
      && CdataTail(enc, s, i, |s|) == CdataTail(enc, s, i + n, |s|)
  {
    hide TestChar, ByteType;
  }

  /** At a byte that is no part of a longer character. */
  lemma DataByte(enc: Enc, s: Text, i: nat)
    requires i < |s| && !TestChar(enc, DataChar, s, i, |s|).Fits?
    ensures
      var c, covered := ByteType(enc, s[i]), !TestChar(enc, DataChar, s, i, |s|).NotCovered?;
      var square := i + 1 < |s| && s[i + 1] == RSQB_CHAR;
      DataTail(enc, s, i, |s|) ==
        if covered || c in {AMP, LT, CR, LF} then Tok(DataChars, i)
        else if c == RSQB && (i + 1 == |s| || (square && i + 2 == |s|)) then Tok(DataChars, i)
        else if c == RSQB && square && s[i + 2] == GT_CHAR then Invalid(i + 2)
        else DataTail(enc, s, i + 1, |s|)
  {
    hide TestChar, ByteType;
  }

  lemma {:induction false} DataTailSame(enc: Enc, s: Text, i: nat, s': Text, i': nat)
    requires Here(s, i, s', i') && Steady(enc, s) && Steady(enc, s') && !enc.internal
    ensures SameTail(s, i, DataTail(enc, s, i, |s|), s', i', DataTail(enc, s', i', |s'|))
    decreases |s| - i, 1
  {
    hide Here, Steady, DataTail, TestChar, ByteType, SameData;
    HereRange(s, i, s', i');
    HereEnd(s, i, s', i');
    DataNone(s, i, s', i');
    if i == |s| {
      TailAtEnd(enc, s, |s|);
      TailAtEnd(enc, s', |s'|);
    } else if s[i] == CR_CHAR {
      HereCr(s, i, s', i');
      DataStops(enc, s, i);
      DataStops(enc, s', i');
    } else {
      TestSame(enc, DataChar, s, i, s', i');
      var t := TestChar(enc, DataChar, s, i, |s|);
      if t.Fits? {
        DataFits(enc, s, i);
        DataFits(enc, s', i');
        DataTailSame(enc, s, i + t.n, s', i' + t.n);
        DataOver(s, i, t.n, s', i');
        var r := DataTail(enc, s, i, |s|);
        if r.Tok? {
          DataFrom(s, i, i + t.n, r.next, s', i', i' + t.n, DataTail(enc, s', i', |s'|).next);
        }
      } else {
        DataByteSame(enc, s, i, s', i');
      }
    }
  }

  lemma DataOver(s: Text, i: nat, n: nat, s': Text, i': nat)
    requires Here(s, i, s', i') && i + n <= |s| && i' + n <= |s'|
    requires s'[i'..i' + n] == s[i..i + n] && Here(s, i + n, s', i' + n) && CR_CHAR !in s[i..i + n]
    ensures SameData(s, i, i + n, s', i', i' + n)
  {
    hide Here;
  }

  lemma {:induction false} DataByteSame(enc: Enc, s: Text, i: nat, s': Text, i': nat)
    requires Here(s, i, s', i') && Steady(enc, s) && Steady(enc, s') && !enc.internal && i < |s| && s[i] != CR_CHAR
    requires !TestChar(enc, DataChar, s, i, |s|).Fits?
    ensures SameTail(s, i, DataTail(enc, s, i, |s|), s', i', DataTail(enc, s', i', |s'|))
    decreases |s| - i, 0
  {
    hide Here, Steady, DataTail, TestChar, ByteType, SameData;
    TestSame(enc, DataChar, s, i, s', i');
    NextBytes(s, i, s', i');
    HereChar(s, i, s', i');
    DataNone(s, i, s', i');
    DataByte(enc, s, i);
    DataByte(enc, s', i');
    DataTailSame(enc, s, i + 1, s', i' + 1);
    DataChar1(s, i, s', i');
    var r := DataTail(enc, s, i + 1, |s|);
    if r.Tok? {
      DataFrom(s, i, i + 1, r.next, s', i', i' + 1, DataTail(enc, s', i' + 1, |s'|).next);
    }
  }

  /** No token, and none to come without more text. */
  predicate Undecided(r: Result) { r.Invalid? || r.Partial? || r.PartialChar? }

  ghost predicate SameTok(s: Text, i: nat, r: Result, s': Text, i': nat, r': Result)
  {
    match r
    case Tok(tok, next) =>
      && r'.Tok? && r'.tok == tok && i < next <= |s| && i' < r'.next <= |s'| && Here(s, next, s', r'.next)
      && (tok == DataChars ==> SameData(s, i, next, s', i', r'.next))
      && (tok != DataChars && tok != DataNewline ==> s[next - 1] != CR_CHAR)
    case TrailingCr => r' == Tok(DataNewline, |s'|) && i + 1 == |s|
    case TrailingRsqb => r'.TrailingRsqb? && SameData(s, i, |s|, s', i', |s'|)
    case NoTok => r'.NoTok?
    case _ => Undecided(r')
  }

  /** A token that begins with its own first byte. */
  lemma ContentTokSame(enc: Enc, s: Text, i: nat, s': Text, i': nat)
    requires Here(s, i, s', i') && Steady(enc, s) && Steady(enc, s') && !enc.internal
    ensures SameTok(s, i, ContentTok(enc, s, i, |s|), s', i', ContentTok(enc, s', i', |s'|))
  {
    hide Here, Steady, DataTail, TestChar, ByteType, SameData, Scan;
    HereRange(s, i, s', i');
    HereEnd(s, i, s', i');
    if i < |s| {
      if s[i] == CR_CHAR {
        ContentCr(enc, s, i, s', i');
      } else {
        ContentPlain(enc, s, i, s', i');
      }
    }
  }

  lemma ContentCr(enc: Enc, s: Text, i: nat, s': Text, i': nat)
    requires Here(s, i, s', i') && i < |s| && s[i] == CR_CHAR && !enc.internal
    ensures SameTok(s, i, ContentTok(enc, s, i, |s|), s', i', ContentTok(enc, s', i', |s'|))
  {
    hide Here, DataTail, TestChar, ByteType, SameData, Scan;
    HereCr(s, i, s', i');
    LineClass(enc, s[i]);
    LineClass(enc, s'[i']);
    if i + 1 < |s| {
      LineClass(enc, s[i + 1]);
      HereRange(s, if s[i + 1] == LF_CHAR then i + 2 else i + 1, s', i' + 1);
    } else {
      HereEnd(s, i + 1, s', i' + 1);
    }
  }

  lemma ContentPlain(enc: Enc, s: Text, i: nat, s': Text, i': nat)
    requires Here(s, i, s', i') && Steady(enc, s) && Steady(enc, s') && !enc.internal && i < |s| && s[i] != CR_CHAR
    ensures SameTok(s, i, ContentTok(enc, s, i, |s|), s', i', ContentTok(enc, s', i', |s'|))
  {
    hide Here, Steady, DataTail, TestChar, ByteType, SameData, Scan;
    HereChar(s, i, s', i');
    HereRange(s, i + 1, s', i' + 1);
    LineClass(enc, s[i]);
    var c := ByteType(enc, s[i]);
    if c == LT {
      ScanSame(enc, Lt, s, i + 1, s', i' + 1);
      ScanKind(enc, Lt, s, i + 1, |s|);
      NoData(Lt, Scan(enc, Lt, s, i + 1, |s|));
    } else if c == AMP {
      ScanSame(enc, InRef(RefStart, NoQuote), s, i + 1, s', i' + 1);
      ScanKind(enc, InRef(RefStart, NoQuote), s, i + 1, |s|);
      NoData(InRef(RefStart, NoQuote), Scan(enc, InRef(RefStart, NoQuote), s, i + 1, |s|));
    } else if c != LF {
      ContentData(enc, s, i, s', i');
    }
  }

  lemma NoData(st: State, r: Result)
    requires st == Lt || st == InRef(RefStart, NoQuote)
    ensures r.Tok? && Open(st, r.tok) ==> r.tok != DataChars && r.tok != DataNewline
  {
  }

  /** Character data: its first character, and on through the tail. */
  lemma ContentData(enc: Enc, s: Text, i: nat, s': Text, i': nat)
    requires Here(s, i, s', i') && Steady(enc, s) && Steady(enc, s') && !enc.internal && i < |s| && s[i] != CR_CHAR
    requires ByteType(enc, s[i]) !in {LT, AMP, CR, LF}
    ensures SameTok(s, i, ContentTok(enc, s, i, |s|), s', i', ContentTok(enc, s', i', |s'|))
  {
    hide Here, Steady, DataTail, TestChar, ByteType, SameData;
    TestSame(enc, DataChar, s, i, s', i');
    NextBytes(s, i, s', i');
    HereChar(s, i, s', i');
    DataChar1(s, i, s', i');
    DataTailSame(enc, s, i + 1, s', i' + 1);
    TailData(enc, s, i, i + 1, s', i', i' + 1);
    var t := TestChar(enc, DataChar, s, i, |s|);
    if t.Fits? {
      FitsClass(enc, s, i);
      FitsClass(enc, s', i');
      DataOver(s, i, t.n, s', i');
      DataTailSame(enc, s, i + t.n, s', i' + t.n);
      TailData(enc, s, i, i + t.n, s', i', i' + t.n);
    } else if ByteType(enc, s[i]) == RSQB && i + 2 == |s| && s[i + 1] == RSQB_CHAR {
      HereChar(s, i + 1, s', i' + 1);
      DataChar1(s, i + 1, s', i' + 1);
      DataFrom(s, i, i + 1, i + 2, s', i', i' + 1, i' + 2);
    }
  }

  lemma FitsClass(enc: Enc, s: Text, i: nat)
    requires i < |s| && TestChar(enc, DataChar, s, i, |s|).Fits?
    ensures ByteType(enc, s[i]) != RSQB
  {
  }

  lemma TailData(enc: Enc, s: Text, i: nat, k: nat, s': Text, i': nat, k': nat)
    requires SameData(s, i, k, s', i', k') && i < k
    requires SameTail(s, k, DataTail(enc, s, k, |s|), s', k', DataTail(enc, s', k', |s'|))
    ensures SameTok(s, i, DataTail(enc, s, k, |s|), s', i', DataTail(enc, s', k', |s'|))
  {
    hide DataTail;
    var r, r' := DataTail(enc, s, k, |s|), DataTail(enc, s', k', |s'|);
    if r.Tok? {
      DataFrom(s, i, k, r.next, s', i', k', r'.next);
    }
  }

  // ------------------------------------------------------------------ CDATA tokens

  lemma {:induction false} CdataTailSame(enc: Enc, s: Text, i: nat, s': Text, i': nat)
    requires Here(s, i, s', i') && Steady(enc, s) && Steady(enc, s') && !enc.internal
    ensures SameData(s, i, CdataTail(enc, s, i, |s|), s', i', CdataTail(enc, s', i', |s'|))
    decreases |s| - i
  {
    hide Here, Steady, CdataTail, TestChar, ByteType, SameData;
    HereRange(s, i, s', i');
    HereEnd(s, i, s', i');
    DataNone(s, i, s', i');
    if i == |s| {
      CdataTailEnd(enc, s);
      CdataTailEnd(enc, s');
    } else if s[i] == CR_CHAR {
      HereCr(s, i, s', i');
      DataStops(enc, s, i);
      DataStops(enc, s', i');
    } else {
      TestSame(enc, DataChar, s, i, s', i');
      var t := TestChar(enc, DataChar, s, i, |s|);
      if t.Fits? {
        DataFits(enc, s, i);
        DataFits(enc, s', i');
        CdataTailSame(enc, s, i + t.n, s', i' + t.n);
        DataOver(s, i, t.n, s', i');
        DataFrom(s, i, i + t.n, CdataTail(enc, s, i, |s|), s', i', i' + t.n, CdataTail(enc, s', i', |s'|));
      } else {
        CdataByte(enc, s, i);
        CdataByte(enc, s', i');
        HereChar(s, i, s', i');
        CdataTailSame(enc, s, i + 1, s', i' + 1);
        DataChar1(s, i, s', i');
        DataFrom(s, i, i + 1, CdataTail(enc, s, i + 1, |s|), s', i', i' + 1, CdataTail(enc, s', i' + 1, |s'|));
      }
    }
  }

  lemma CdataTailEnd(enc: Enc, s: Text)
    ensures CdataTail(enc, s, |s|, |s|) == |s|
  {
  }

  lemma CdataByte(enc: Enc, s: Text, i: nat)
    requires i < |s| && !TestChar(enc, DataChar, s, i, |s|).Fits?
    ensures CdataTail(enc, s, i, |s|) ==
      if !TestChar(enc, DataChar, s, i, |s|).NotCovered? || ByteType(enc, s[i]) in {CR, LF, RSQB} then i
      else CdataTail(enc, s, i + 1, |s|)
  {
    hide TestChar, ByteType;
  }

  /** In a CDATA section a carriage return at the end waits for more. */
  ghost predicate SameCdata(s: Text, i: nat, r: Result, s': Text, i': nat, r': Result)
  {
    if i < |s| && i + 1 == |s| && s[i] == CR_CHAR then r.Partial? && r' == Tok(DataNewline, |s'|)
    else SameTok(s, i, r, s', i', r')
  }

  lemma CdataTokSame(enc: Enc, s: Text, i: nat, s': Text, i': nat)
    requires Here(s, i, s', i') && Steady(enc, s) && Steady(enc, s') && !enc.internal
    ensures SameCdata(s, i, CdataTok(enc, s, i, |s|), s', i', CdataTok(enc, s', i', |s'|))
  {
    hide Here, Steady, CdataTail, TestChar, ByteType, SameData;
    HereRange(s, i, s', i');
    HereEnd(s, i, s', i');
    if i < |s| {
      if s[i] == CR_CHAR {
        CdataCr(enc, s, i, s', i');
      } else {
        CdataPlain(enc, s, i, s', i');
      }
    }
  }

  lemma CdataCr(enc: Enc, s: Text, i: nat, s': Text, i': nat)
    requires Here(s, i, s', i') && i < |s| && s[i] == CR_CHAR && !enc.internal
    ensures SameCdata(s, i, CdataTok(enc, s, i, |s|), s', i', CdataTok(enc, s', i', |s'|))
  {
    hide Here, CdataTail, TestChar, ByteType, SameData;
    HereCr(s, i, s', i');
    LineClass(enc, s[i]);
    LineClass(enc, s'[i']);
    if i + 1 < |s| {
      LineClass(enc, s[i + 1]);
      HereRange(s, if s[i + 1] == LF_CHAR then i + 2 else i + 1, s', i' + 1);
    } else {
      HereEnd(s, i + 1, s', i' + 1);
    }
  }

  lemma CdataPlain(enc: Enc, s: Text, i: nat, s': Text, i': nat)
    requires Here(s, i, s', i') && Steady(enc, s) && Steady(enc, s') && !enc.internal && i < |s| && s[i] != CR_CHAR
    ensures SameTok(s, i, CdataTok(enc, s, i, |s|), s', i', CdataTok(enc, s', i', |s'|))
  {
    hide Here, Steady, CdataTail, TestChar, ByteType, SameData;
    LineClass(enc, s[i]);
    TestSame(enc, DataChar, s, i, s', i');
    NextBytes(s, i, s', i');
    HereChar(s, i, s', i');
    HereRange(s, i + 1, s', i' + 1);
    DataChar1(s, i, s', i');
    CdataTailSame(enc, s, i + 1, s', i' + 1);
    CdataData(enc, s, i, i + 1, s', i', i' + 1);
    var t := TestChar(enc, DataChar, s, i, |s|);
    if t.Fits? {
      FitsClass(enc, s, i);
      FitsClass(enc, s', i');
      DataOver(s, i, t.n, s', i');
      CdataTailSame(enc, s, i + t.n, s', i' + t.n);
      CdataData(enc, s, i, i + t.n, s', i', i' + t.n);
    } else if ByteType(enc, s[i]) == RSQB && i + 2 < |s| && s[i + 1] == RSQB_CHAR && s[i + 2] == GT_CHAR {
      CdataCloseSame(s, i, s', i');
    }
  }

  lemma CdataCloseSame(s: Text, i: nat, s': Text, i': nat)
    requires Here(s, i, s', i') && i + 2 < |s| && s[i] != CR_CHAR && s[i + 1] == RSQB_CHAR && s[i + 2] == GT_CHAR
    ensures i' + 3 <= |s'| && Here(s, i + 3, s', i' + 3)
  {
    hide Here;
    HereChar(s, i, s', i');
    HereChar(s, i + 1, s', i' + 1);
    HereChar(s, i + 2, s', i' + 2);
  }

  lemma CdataData(enc: Enc, s: Text, i: nat, k: nat, s': Text, i': nat, k': nat)
    requires SameData(s, i, k, s', i', k') && i < k
    requires SameData(s, k, CdataTail(enc, s, k, |s|), s', k', CdataTail(enc, s', k', |s'|))
    ensures SameTok(s, i, Tok(DataChars, CdataTail(enc, s, k, |s|)), s', i',
      Tok(DataChars, CdataTail(enc, s', k', |s'|)))
  {
    hide CdataTail;
    DataFrom(s, i, k, CdataTail(enc, s, k, |s|), s', i', k', CdataTail(enc, s', k', |s'|));
  }

  // ------------------------------------------------------------------ names and ends

  /** No byte of a name. */
  predicate NonName(enc: Enc, b: Byte)
  {
    var c := ByteType(enc, b);
    LeadLen(c) == 0 && c !in {NMSTRT, COLON, HEX, DIGIT, NAME, MINUS}
  }

  lemma NonNames(enc: Enc, b: Byte)
    ensures Stops(b) || b == QUESTION ==> NonName(enc, b)
    ensures IsSpace(ByteType(enc, b)) <==> Blank(b)
  {
  }

  lemma NameEndNow(enc: Enc, s: Text, a: nat, next: nat)
    requires a < next <= |s| && NonName(enc, s[a])
    ensures C.NameEnd(enc, s, a, next) == a
  {
    hide ByteType;
  }

  predicate NameClass(c: ByteClass) { LeadLen(c) > 0 || c in {NMSTRT, COLON, HEX, DIGIT, NAME, MINUS} }

  lemma NameEndAhead(enc: Enc, s: Text, a: nat, next: nat)
    requires a < next <= |s| && C.NameEnd(enc, s, a, next) != a
    ensures
      var c := ByteType(enc, s[a]);
      var k := if LeadLen(c) > 0 then LeadLen(c) else 1;
      && NameClass(c) && a + k <= C.NameEnd(enc, s, a, next)
      && C.NameEnd(enc, s, a, next) == C.NameEnd(enc, s, a + k, next)
  {
    hide ByteType;
  }

  lemma NameEndBack(enc: Enc, s: Text, a: nat, next: nat, c: ByteClass)
    requires a < next <= |s| && ByteType(enc, s[a]) == c && NameClass(c)
    requires a + (if LeadLen(c) > 0 then LeadLen(c) else 1) <= next
    ensures C.NameEnd(enc, s, a, next) == C.NameEnd(enc, s, a + (if LeadLen(c) > 0 then LeadLen(c) else 1), next)
  {
    hide ByteType;
  }

  lemma {:induction false} NameEndOfBytes(enc: Enc, s: Text, a: nat, next: nat, s': Text, a': nat, next': nat)
    requires a <= next <= |s| && a' <= next' <= |s'|
    requires
      var n := C.NameEnd(enc, s, a, next);
      && n < next && a' + (n - a) < next' && s'[a'..a' + (n - a)] == s[a..n]
      && NonName(enc, s[n]) && NonName(enc, s'[a' + (n - a)])
    ensures C.NameEnd(enc, s', a', next') == a' + (C.NameEnd(enc, s, a, next) - a)
    decreases next - a
  {
    hide ByteType, C.NameEnd, LeadLen;
    var n := C.NameEnd(enc, s, a, next);
    if n == a {
      NameEndNow(enc, s', a', next');
    } else {
      var c := ByteType(enc, s[a]);
      var k := if LeadLen(c) > 0 then LeadLen(c) else 1;
      assert s[a..n][0] == s[a] && s'[a'..a' + (n - a)][0] == s'[a'];
      NameEndAhead(enc, s, a, next);
      NameEndBack(enc, s', a', next', c);
      InnerSlice(s, a, n, k, n - a);
      InnerSlice(s', a', a' + (n - a), k, n - a);
      NameEndOfBytes(enc, s, a + k, next, s', a' + k, next');
    }
  }

  /** A name without line ends stands in both texts, and ends in both. */
  lemma NameHere(enc: Enc, s: Text, a: nat, n: nat, next: nat, s': Text, a': nat, next': nat)
    requires Here(s, a, s', a') && a <= n < next <= |s| && a' <= next' <= |s'| && Here(s, next, s', next')
    requires C.NameEnd(enc, s, a, next) == n && CR_CHAR !in s[a..n] && NonName(enc, s[n]) && s[next - 1] != CR_CHAR
    ensures
      var n' := a' + (n - a);
      && n' < next' && s'[a'..n'] == s[a..n] && C.NameEnd(enc, s', a', next') == n' && Here(s, n, s', n')
  {
    hide Here, ByteType, C.NameEnd, NonName;
    HereRun(s, a, s', a', n - a);
    var n' := a' + (n - a);
    Later(s, n, next, s', n', next');
    LfNonName(enc);
    if s[n] == CR_CHAR {
      HereCr(s, n, s', n');
    } else {
      HereChar(s, n, s', n');
    }
    NameEndOfBytes(enc, s, a, next, s', a', next');
  }

  lemma LfNonName(enc: Enc)
    ensures NonName(enc, LF_CHAR)
  {
  }

  /** Places keep their order. */
  lemma Later(s: Text, n: nat, next: nat, s': Text, n': nat, next': nat)
    requires Here(s, n, s', n') && Here(s, next, s', next') && n < next && s[next - 1] != CR_CHAR
    ensures n' < next'
  {
    hide Here, Normalised;
    HereRange(s, next, s', next');
    assert s[n..next][next - n - 1] == s[next - 1];
    Between(s, n, next, s', n', next');
    NormalStep(s[n..next]);
  }

  // ------------------------------------------------------------------------ tags

  /** The text of a token that does not end with a carriage return. */
  lemma TextHere(s: Text, i: nat, next: nat, s': Text, i': nat, next': nat)
    requires Here(s, i, s', i') && i < next && Here(s, next, s', next') && s[next - 1] != CR_CHAR
    ensures i' < next' <= |s'| && s'[i'..next'] == Normalised(s[i..next])
  {
    hide Here, Normalised;
    HereRange(s, next, s', next');
    Later(s, i, next, s', i', next');
    assert s[i..next][next - i - 1] == s[next - 1];
    Between(s, i, next, s', i', next');
  }

  lemma SteadySlice(enc: Enc, s: Text, a: nat, b: nat)
    requires a <= b <= |s| && Steady(enc, s)
    ensures Steady(enc, s[a..b])
  {
    hide IsChar, Stops;
    var t := s[a..b];
    forall i: nat, j: nat | i <= j <= |t| && IsChar(enc, t[i..j]) ensures forall k :: i < k < j ==> !Stops(t[k]) {
      InnerSlice(s, a, b, i, j);
      assert IsChar(enc, s[a + i..a + j]);
      forall k | i < k < j ensures !Stops(t[k]) {
        assert t[k] == s[a + k];
      }
    }
  }

  lemma PlainNoCr(s: Text, a: nat, n: nat)
    requires Plain(s, a, n) && a <= n
    ensures CR_CHAR !in s[a..n]
  {
    assert Stops(CR_CHAR);
  }

  /** storeAtts does not see the line ends of a tag. */
  ghost predicate Blind(env: C.Env, enc: Enc)
  {
    forall open: set<Text>, stack: seq<C.Tag>, text: Text ::
      X.IsTag(enc, text) && Steady(enc, text) && Steady(enc, Normalised(text)) ==>
      env.storeAtts(enc, open, stack, Normalised(text)) == env.storeAtts(enc, open, stack, text)
  }

  /** The same work, from here to here. */
  ghost predicate SameStep(s: Text, m: C.Step, s': Text, m': C.Step)
  {
    match m
    case Fail(e) => m'.Fail?
    case Move(st, events) => m'.Move? && m'.events == events && SameState(s, st, s', m'.st)
    case Stop(st, events) => m'.Stop? && m'.events == events && SameState(s, st, s', m'.st)
  }

  ghost predicate SameState(s: Text, st: C.Parser, s': Text, st': C.Parser)
  {
    st'.stack == st.stack && st'.mode == st.mode && Here(s, st.pos, s', st'.pos)
  }

  /** Two texts, the second the first with its line ends normalised, and where a token begins in them. */
  ghost predicate Two(enc: Enc, s: Text, st: C.Parser, s': Text, st': C.Parser)
  {
    Steady(enc, s) && Steady(enc, s') && !enc.internal && SameState(s, st, s', st')
  }

  lemma OpenSame(env: C.Env, open: set<Text>, enc: Enc, s: Text, st: C.Parser, s': Text, st': C.Parser, empty: bool)
    requires Two(enc, s, st, s', st') && Blind(env, enc) && st.pos < |s| && T.IsTag(ContentTok(enc, s, st.pos, |s|))
    requires SameTok(s, st.pos, ContentTok(enc, s, st.pos, |s|), s', st'.pos, ContentTok(enc, s', st'.pos, |s'|))
    ensures SameStep(s, C.OpenTag(env, open, enc, s, st, ContentTok(enc, s, st.pos, |s|).next, empty),
                     s', C.OpenTag(env, open, enc, s', st', ContentTok(enc, s', st'.pos, |s'|).next, empty))
  {
    hide Here, Steady, ContentTok, C.NameEnd, Normalised, ByteType, Blind, X.IsTag, NonName, Named, Plain;
    var r, r' := ContentTok(enc, s, st.pos, |s|), ContentTok(enc, s', st'.pos, |s'|);
    HereRange(s, st.pos, s', st'.pos);
    var n := StartTagName(enc, s, st.pos, |s|);
    HereChar(s, st.pos, s', st'.pos);
    NamedRange(s, st.pos + 1, n, r.next);
    PlainNoCr(s, st.pos + 1, n);
    NonNames(enc, s[n]);
    NameHere(enc, s, st.pos + 1, n, r.next, s', st'.pos + 1, r'.next);
    TextHere(s, st.pos, r.next, s', st'.pos, r'.next);
    WholeTag(enc, s, st.pos);
    SteadySlice(enc, s, st.pos, r.next);
    SteadySlice(enc, s', st'.pos, r'.next);
    BlindTo(env, enc, open, st.stack, s[st.pos..r.next]);
  }

  lemma NamedRange(s: Text, i: nat, n: nat, next: nat)
    requires Named(s, i, n, next)
    ensures i < n < next <= |s| && Stops(s[n])
  {
  }

  lemma WholeTag(enc: Enc, s: Text, i: nat)
    requires i < |s| && T.IsTag(ContentTok(enc, s, i, |s|))
    ensures X.IsTag(enc, s[i..ContentTok(enc, s, i, |s|).next])
  {
    hide ContentTok, X.IsTag, ByteType;
    Begins(enc, s, i, |s|);
    LastClass(enc, s[i]);
    X.TagSlice(enc, s, i, |s|);
  }

  lemma BlindTo(env: C.Env, enc: Enc, open: set<Text>, stack: seq<C.Tag>, text: Text)
    requires Blind(env, enc) && X.IsTag(enc, text) && Steady(enc, text) && Steady(enc, Normalised(text))
    ensures env.storeAtts(enc, open, stack, Normalised(text)) == env.storeAtts(enc, open, stack, text)
  {
  }

  lemma CloseSame(env: C.Env, lvl: nat, enc: Enc, s: Text, st: C.Parser, s': Text, st': C.Parser)
    requires Two(enc, s, st, s', st') && st.pos < |s|
    requires ContentTok(enc, s, st.pos, |s|).Tok? && ContentTok(enc, s, st.pos, |s|).tok == EndTag
    requires SameTok(s, st.pos, ContentTok(enc, s, st.pos, |s|), s', st'.pos, ContentTok(enc, s', st'.pos, |s'|))
    ensures st.pos + 1 < ContentTok(enc, s, st.pos, |s|).next && st'.pos + 1 < ContentTok(enc, s', st'.pos, |s'|).next
    ensures SameStep(s, C.CloseTag(env, lvl, enc, s, st, ContentTok(enc, s, st.pos, |s|).next),
                     s', C.CloseTag(env, lvl, enc, s', st', ContentTok(enc, s', st'.pos, |s'|).next))
  {
    hide Here, Steady, ContentTok, C.NameEnd, ByteType, NonName, Named, Plain;
    var r, r' := ContentTok(enc, s, st.pos, |s|), ContentTok(enc, s', st'.pos, |s'|);
    HereRange(s, st.pos, s', st'.pos);
    var n := EndTagName(enc, s, st.pos, |s|);
    HereChar(s, st.pos, s', st'.pos);
    HereChar(s, st.pos + 1, s', st'.pos + 1);
    NamedRange(s, st.pos + 2, n, r.next);
    PlainNoCr(s, st.pos + 2, n);
    NonNames(enc, s[n]);
    Later(s, st.pos + 2, r.next, s', st'.pos + 2, r'.next);
    NameHere(enc, s, st.pos + 2, n, r.next, s', st'.pos + 2, r'.next);
  }

  // ------------------------------------------------------------------- references

  lemma RefChar(enc: Enc, p: RefPlace, s: Text, i: nat)
    requires i < |s|
    ensures
      var m := CharStep(InRef(p, NoQuote), Look(enc, s, i, |s|));
      && (m.Go? ==> s[i] != CR_CHAR && m.st.InRef? && m.st.ctx.NoQuote? && m.n >= 1)
      && (m.Accept? ==> s[i] != CR_CHAR)
  {
    hide InvalidChar;
  }

  /** No line end stands in a reference. */
  lemma {:induction false} RefNoCr(enc: Enc, p: RefPlace, s: Text, i: nat)
    requires i <= |s| && Steady(enc, s) && Scan(enc, InRef(p, NoQuote), s, i, |s|).Tok?
    ensures CR_CHAR !in s[i..Scan(enc, InRef(p, NoQuote), s, i, |s|).next]
    decreases |s| - i
  {
    hide Scan, CharStep, Look, Steady, TestChar;
    ScanEmpty(enc, InRef(p, NoQuote), s, |s|);
    ScanMove(enc, InRef(p, NoQuote), s, i, |s|);
    RefChar(enc, p, s, i);
    var r, v := Scan(enc, InRef(p, NoQuote), s, i, |s|), Look(enc, s, i, |s|);
    var m := CharStep(InRef(p, NoQuote), v);
    if m.Go? {
      GoLength(InRef(p, NoQuote), v);
      FitsWhole(enc, NmstrtChar, s, i);
      FitsWhole(enc, NameChar, s, i);
      FitsWhole(enc, DataChar, s, i);
      LookTests(enc, s, i);
      RefNoCr(enc, m.st.ref, s, i + m.n);
      assert s[i..r.next] == s[i..i + m.n] + s[i + m.n..r.next];
    } else {
      AcceptOne(InRef(p, NoQuote), v);
    }
  }

  lemma LookTests(enc: Enc, s: Text, i: nat)
    requires i < |s|
    ensures
      var v := Look(enc, s, i, |s|);
      && v.nmstrt == TestChar(enc, NmstrtChar, s, i, |s|) && v.name == TestChar(enc, NameChar, s, i, |s|)
      && v.data == TestChar(enc, DataChar, s, i, |s|)
  {
  }

  /** A reference stands in both texts, byte for byte. */
  lemma RefSame(enc: Enc, s: Text, i: nat, s': Text, i': nat)
    requires Here(s, i, s', i') && Steady(enc, s) && Steady(enc, s') && i < |s|
    requires ContentTok(enc, s, i, |s|).Tok? && ContentTok(enc, s, i, |s|).tok in {EntityRef, CharRef}
    requires SameTok(s, i, ContentTok(enc, s, i, |s|), s', i', ContentTok(enc, s', i', |s'|))
    ensures s'[i'..ContentTok(enc, s', i', |s'|).next] == s[i..ContentTok(enc, s, i, |s|).next]
  {
    hide Here, Steady, ContentTok, Scan, Normalised;
    var r := ContentTok(enc, s, i, |s|);
    Begins(enc, s, i, |s|);
    RefNoCr(enc, RefStart, s, i + 1);
    assert s[i..r.next] == [s[i]] + s[i + 1..r.next];
    NormalIs(s[i..r.next]);
    TextHere(s, i, r.next, s', i', ContentTok(enc, s', i', |s'|).next);
  }

  lemma {:induction false} DigitsOfBytes(s: Text, i: nat, semi: nat, s': Text, i': nat, semi': nat, radix: nat,
      acc: nat)
    requires i <= semi <= |s| && i' <= semi' <= |s'| && s[i..semi] == s'[i'..semi']
    ensures Digits(s, i, semi, radix, acc) == Digits(s', i', semi', radix, acc)
    decreases semi - i
  {
    hide HexDigit;
    assert |s[i..semi]| == |s'[i'..semi']|;
    if i < semi {
      assert s[i..semi][0] == s[i] && s'[i'..semi'][0] == s'[i'];
      InnerSlice(s, i, semi, 1, semi - i);
      InnerSlice(s', i', semi', 1, semi' - i');
      DigitsOfBytes(s, i + 1, semi, s', i' + 1, semi', radix, acc * radix + HexDigit(s[i]));
    }
  }

  lemma CharRefOfBytes(s: Text, i: nat, next: nat, s': Text, i': nat, next': nat)
    requires i + 4 <= next <= |s| && i' <= next' <= |s'| && s[i..next] == s'[i'..next']
    ensures i' + 4 <= next' && CharRefNumber(s, i, next) == CharRefNumber(s', i', next')
  {
    hide Digits, CheckCharRef;
    assert |s[i..next]| == |s'[i'..next']|;
    assert s[i..next][2] == s[i + 2] && s'[i'..next'][2] == s'[i' + 2];
    InnerSlice(s, i, next, 2, next - i - 1);
    InnerSlice(s', i', next', 2, next - i - 1);
    InnerSlice(s, i, next, 3, next - i - 1);
    InnerSlice(s', i', next', 3, next - i - 1);
    DigitsOfBytes(s, i + 2, next - 1, s', i' + 2, next' - 1, 10, 0);
    DigitsOfBytes(s, i + 3, next - 1, s', i' + 3, next' - 1, 16, 0);
  }

  // ------------------------------------------------------------------ reports

  /** The place before the last bytes of a token that ends with the same bytes in both texts. */
  lemma HereBefore(s: Text, k: nat, next: nat, s': Text, k': nat, next': nat)
    requires k <= next <= |s| && k' <= next' && Here(s, next, s', next') && s[k..next] == s'[k'..next']
    requires CR_CHAR !in s[k..next]
    ensures Here(s, k, s', k')
  {
    hide Normalised;
    assert s[k..] == s[k..next] + s[next..] && s'[k'..] == s'[k'..next'] + s'[next'..];
    NormalIs(s[k..next]);
    NormalConcat(s[k..next], s[next..]);
  }

  lemma CommentSame(enc: Enc, s: Text, i: nat, s': Text, i': nat)
    requires Here(s, i, s', i') && i < |s|
    requires ContentTok(enc, s, i, |s|).Tok? && ContentTok(enc, s, i, |s|).tok == Comment
    requires SameTok(s, i, ContentTok(enc, s, i, |s|), s', i', ContentTok(enc, s', i', |s'|))
    ensures C.CommentReport(s', i', ContentTok(enc, s', i', |s'|).next) ==
      C.CommentReport(s, i, ContentTok(enc, s, i, |s|).next)
  {
    hide Here, ContentTok, Normalised, NoDouble;
    var r, r' := ContentTok(enc, s, i, |s|), ContentTok(enc, s', i', |s'|);
    HereRange(s, i, s', i');
    CommentShape(enc, s, i, |s|);
    CommentShape(enc, s', i', |s'|);
    HereRun(s, i, s', i', 4);
    HereBefore(s, r.next - 3, r.next, s', r'.next - 3, r'.next);
    assert s[r.next - 3..r.next][0] == s[r.next - 3];
    Between(s, i + 4, r.next - 3, s', i' + 4, r'.next - 3);
    Idempotent(s[i + 4..r.next - 3]);
  }

  lemma BlankStop(enc: Enc, s: Text, i: nat, end: nat)
    requires i < end <= |s|
    ensures C.SkipBlanks(enc, s, i, end) == if Blank(s[i]) then C.SkipBlanks(enc, s, i + 1, end) else i
  {
    hide ByteType;
    NonNames(enc, s[i]);
  }

  /** The first place that is no blank, before the one at `z`. */
  lemma {:induction false} BlanksSame(enc: Enc, s: Text, a: nat, z: nat, next: nat, s': Text, a': nat, next': nat)
    requires Here(s, a, s', a') && a <= z < next <= |s| && !Blank(s[z]) && Here(s, next, s', next')
    requires s[next - 1] != CR_CHAR
    ensures a' <= next' <= |s'| && C.SkipBlanks(enc, s, a, next) <= z
    ensures Here(s, C.SkipBlanks(enc, s, a, next), s', C.SkipBlanks(enc, s', a', next'))
    decreases z - a
  {
    hide Here, C.SkipBlanks, ByteType;
    HereRange(s, next, s', next');
    Later(s, a, next, s', a', next');
    BlankStop(enc, s, a, next);
    BlankStop(enc, s', a', next');
    if s[a] == CR_CHAR {
      HereCr(s, a, s', a');
      if s[a + 1] == LF_CHAR {
        BlankStop(enc, s, a + 1, next);
        BlanksSame(enc, s, a + 2, z, next, s', a' + 1, next');
      } else {
        BlanksSame(enc, s, a + 1, z, next, s', a' + 1, next');
      }
    } else {
      HereChar(s, a, s', a');
      if Blank(s[a]) {
        BlanksSame(enc, s, a + 1, z, next, s', a' + 1, next');
      }
    }
  }

  lemma PiParts(enc: Enc, target: Text, s: Text, n: nat, r: Result)
    requires PiEnds(enc, target, s, n, r)
    ensures n + 2 <= r.next <= |s| && s[r.next - 2] == QUESTION && s[r.next - 1] == 0x3E && NonName(enc, s[n])
    ensures s[r.next - 2..r.next] == [QUESTION, 0x3E]
  {
    hide NonName;
    NonNames(enc, s[n]);
  }

  lemma PiSame(enc: Enc, s: Text, i: nat, s': Text, i': nat)
    requires Here(s, i, s', i') && Steady(enc, s) && Steady(enc, s') && i < |s|
    requires ContentTok(enc, s, i, |s|).Tok? && ContentTok(enc, s, i, |s|).tok == Pi
    requires SameTok(s, i, ContentTok(enc, s, i, |s|), s', i', ContentTok(enc, s', i', |s'|))
    ensures C.PiReport(enc, s', i', ContentTok(enc, s', i', |s'|).next) ==
      C.PiReport(enc, s, i, ContentTok(enc, s, i, |s|).next)
  {
    hide Here, ContentTok, Normalised, ByteType, C.NameEnd, C.SkipBlanks, Plain, NonName, PiEnds, Steady, C.PiReport;
    var r, r' := ContentTok(enc, s, i, |s|), ContentTok(enc, s', i', |s'|);
    HereRange(s, i, s', i');
    var n := PiShape(enc, s, i, |s|);
    var m := PiShape(enc, s', i', |s'|);
    PiParts(enc, s[i + 2..n], s, n, r);
    PiParts(enc, s'[i' + 2..m], s', m, r');
    HereRun(s, i, s', i', 2);
    PlainNoCr(s, i + 2, n);
    NameHere(enc, s, i + 2, n, r.next, s', i' + 2, r'.next);
    NoBlankQuest();
    BlanksSame(enc, s, n, r.next - 2, r.next, s', m, r'.next);
    var f, f' := C.SkipBlanks(enc, s, n, r.next), C.SkipBlanks(enc, s', m, r'.next);
    HereBefore(s, r.next - 2, r.next, s', r'.next - 2, r'.next);
    Between(s, f, r.next - 2, s', f', r'.next - 2);
    Idempotent(s[f..r.next - 2]);
    PiReported(enc, s, i, r.next, n, f);
    PiReported(enc, s', i', r'.next, m, f');
  }

  /** An instruction is reported by its target and what follows the blanks. */
  lemma PiReported(enc: Enc, s: Text, i: nat, next: nat, n: nat, f: nat)
    requires i + 4 <= next <= |s| && C.NameEnd(enc, s, i + 2, next) == n && C.SkipBlanks(enc, s, n, next) == f
    requires f <= next - 2
    ensures C.PiReport(enc, s, i, next) == C.PiEvent(s[i + 2..n], Normalised(s[f..next - 2]))
  {
    hide C.NameEnd, C.SkipBlanks, Normalised;
  }

  lemma NoBlankQuest()
    ensures !Blank(QUESTION)
  {
  }

  // ---------------------------------------------------------------- one token's work

  /** The content switch does the same for the same token. */
  lemma ActSame(env: C.Env, open: set<Text>, lvl: nat, enc: Enc, s: Text, st: C.Parser, s': Text, st': C.Parser)
    requires Two(enc, s, st, s', st') && Blind(env, enc) && st.pos < |s|
    requires ContentTok(enc, s, st.pos, |s|).Tok? && ContentTok(enc, s, st.pos, |s|).tok != EntityRef
    requires SameTok(s, st.pos, ContentTok(enc, s, st.pos, |s|), s', st'.pos, ContentTok(enc, s', st'.pos, |s'|))
    ensures
      var r, r' := ContentTok(enc, s, st.pos, |s|), ContentTok(enc, s', st'.pos, |s'|);
      SameStep(s, C.Act(env, open, lvl, enc, s, st, r.tok, r.next), s',
        C.Act(env, open, lvl, enc, s', st', r'.tok, r'.next))
  {
    hide Here, Steady, ContentTok, C.OpenTag, C.CloseTag, C.PiReport, C.CommentReport, CharRefNumber, Utf8Encode, Blind;
    var r, r' := ContentTok(enc, s, st.pos, |s|), ContentTok(enc, s', st'.pos, |s'|);
    match r.tok
    case StartTag(_) => OpenSame(env, open, enc, s, st, s', st', false);
    case EmptyElement(_) => OpenSame(env, open, enc, s, st, s', st', true);
    case EndTag => CloseSame(env, lvl, enc, s, st, s', st');
    case CharRef =>
      RefSame(enc, s, st.pos, s', st'.pos);
      assert |s[st.pos..r.next]| == |s'[st'.pos..r'.next]|;
      if st.pos + 4 <= r.next {
        CharRefOfBytes(s, st.pos, r.next, s', st'.pos, r'.next);
      }
    case Pi => PiSame(enc, s, st.pos, s', st'.pos);
    case Comment => CommentSame(enc, s, st.pos, s', st'.pos);
    case _ =>
  }

  /** What an entity does depends on its name and on the open tags. */
  lemma IncludedSame(env: C.Env, open: set<Text>, name: Text, s: Text, st: C.Parser, go: C.Parser, s': Text,
      st': C.Parser, go': C.Parser)
    requires name in env.entities && st'.stack == st.stack && SameState(s, go, s', go')
    ensures SameStep(s, C.Included(env, open, name, st, go), s', C.Included(env, open, name, st', go'))
  {
    hide Here, C.Run;
  }

  lemma ReferenceSame(env: C.Env, open: set<Text>, enc: Enc, s: Text, st: C.Parser, s': Text, st': C.Parser)
    requires Two(enc, s, st, s', st') && st.pos < |s|
    requires ContentTok(enc, s, st.pos, |s|).Tok? && ContentTok(enc, s, st.pos, |s|).tok == EntityRef
    requires SameTok(s, st.pos, ContentTok(enc, s, st.pos, |s|), s', st'.pos, ContentTok(enc, s', st'.pos, |s'|))
    ensures SameStep(s, C.Reference(env, open, s, st, ContentTok(enc, s, st.pos, |s|).next),
                     s', C.Reference(env, open, s', st', ContentTok(enc, s', st'.pos, |s'|).next))
  {
    hide Here, Steady, ContentTok, C.Reference, C.RefName, SameStep, SameData;
    var n, n' := ContentTok(enc, s, st.pos, |s|).next, ContentTok(enc, s', st'.pos, |s'|).next;
    RefSame(enc, s, st.pos, s', st'.pos);
    NameOfBytes(s, st.pos, n, s', st'.pos, n');
    ByName(env, open, s, st, n, s', st', n');
  }

  lemma NameOfBytes(s: Text, i: nat, n: nat, s': Text, i': nat, n': nat)
    requires i < n <= |s| && i' < n' <= |s'| && s[i..n] == s'[i'..n']
    ensures C.RefName(s, i, n) == C.RefName(s', i', n')
  {
    assert |s[i..n]| == |s'[i'..n']|;
    if i + 1 <= n - 1 {
      InnerSlice(s, i, n, 1, n - i - 1);
      InnerSlice(s', i', n', 1, n - i - 1);
    }
  }

  lemma ByName(env: C.Env, open: set<Text>, s: Text, st: C.Parser, n: nat, s': Text, st': C.Parser, n': nat)
    requires st.pos < n <= |s| && st'.pos < n' <= |s'| && st'.stack == st.stack && Here(s, n, s', n')
    requires C.RefName(s, st.pos, n) == C.RefName(s', st'.pos, n')
    ensures SameStep(s, C.Reference(env, open, s, st, n), s', C.Reference(env, open, s', st', n'))
  {
    hide Here, C.Included, Predefined, C.RefName;
    var name := C.RefName(s, st.pos, n);
    if name in env.entities {
      var go, go' := C.Parser(st.stack, C.InContent, n), C.Parser(st'.stack, C.InContent, n');
      IncludedSame(env, open, name, s, st, go, s', st', go');
    }
  }

  // ------------------------------------------------------------------- whole runs

  ghost predicate SameOutcome(s: Text, r: C.Outcome, s': Text, r': C.Outcome)
  {
    match r
    case Err(_) => r'.Err?
    case Ok(st, events) => r'.Ok? && r'.events == events && SameState(s, st, s', r'.st)
  }

  /** A token that is a carriage return at the very end. */
  predicate LastCr(s: Text, st: C.Parser) { st.mode != C.InEpilog && st.pos < |s| && st.pos + 1 == |s| &&
      s[st.pos] == CR_CHAR }

  /** Nothing decided, on both sides: the end, or a refusal. */
  lemma UndecidedSame(env: C.Env, lvl: nat, enc: Enc, s: Text, st: C.Parser, r: Result, s': Text, st': C.Parser,
      r': Result)
    requires SameState(s, st, s', st') && st.pos <= |s| && st'.pos <= |s'| && !r.Tok? && !r.TrailingCr?
    requires SameTok(s, st.pos, r, s', st'.pos, r')
    ensures !r'.Tok?
    ensures SameStep(s, C.Undecided(env, lvl, s, st, r, |s|, false), s',
      C.Undecided(env, lvl, s', st', r', |s'|, false))
  {
    hide Here;
    HereLast(s, s');
  }

  lemma ContentRoundSame(env: C.Env, open: set<Text>, lvl: nat, enc: Enc, s: Text, st: C.Parser, s': Text,
      st': C.Parser)
    requires Two(enc, s, st, s', st') && Blind(env, enc) && !LastCr(s, st) && st.mode == C.InContent
    requires st.pos <= |s| && st'.pos <= |s'|
    ensures SameStep(s, C.Round(env, open, lvl, enc, s, st, |s|, false), s',
      C.Round(env, open, lvl, enc, s', st', |s'|, false))
  {
    hide Here, Steady, ContentTok, CdataTok, C.Act, C.Reference, Blind, SameData, C.Undecided, SameStep;
    ContentTokSame(enc, s, st.pos, s', st'.pos);
    NoTrailingCr(enc, s, st.pos);
    var r := ContentTok(enc, s, st.pos, |s|);
    if r.Tok? && r.tok == EntityRef {
      ReferenceSame(env, open, enc, s, st, s', st');
    } else if r.Tok? {
      ActSame(env, open, lvl, enc, s, st, s', st');
    } else {
      UndecidedSame(env, lvl, enc, s, st, r, s', st', ContentTok(enc, s', st'.pos, |s'|));
    }
  }

  lemma CdataRoundSame(env: C.Env, open: set<Text>, lvl: nat, enc: Enc, s: Text, st: C.Parser, s': Text, st': C.Parser)
    requires Two(enc, s, st, s', st') && !LastCr(s, st) && st.mode == C.InCdata
    requires st.pos <= |s| && st'.pos <= |s'|
    ensures SameStep(s, C.Round(env, open, lvl, enc, s, st, |s|, false), s',
      C.Round(env, open, lvl, enc, s', st', |s'|, false))
  {
    hide Here, Steady, ContentTok, CdataTok, C.CdataAct, SameData, C.Undecided, SameStep;
    CdataTokSame(enc, s, st.pos, s', st'.pos);
    var r := CdataTok(enc, s, st.pos, |s|);
    if r.Tok? {
      CdataActSame(enc, s, st, s', st');
    } else {
      UndecidedSame(env, lvl, enc, s, st, r, s', st', CdataTok(enc, s', st'.pos, |s'|));
    }
  }

  lemma RoundSame(env: C.Env, open: set<Text>, lvl: nat, enc: Enc, s: Text, st: C.Parser, s': Text, st': C.Parser)
    requires Two(enc, s, st, s', st') && Blind(env, enc) && !LastCr(s, st)
    requires st.pos <= |s| && st'.pos <= |s'|
    ensures SameStep(s, C.Round(env, open, lvl, enc, s, st, |s|, false), s',
      C.Round(env, open, lvl, enc, s', st', |s'|, false))
  {
    if st.mode == C.InContent {
      ContentRoundSame(env, open, lvl, enc, s, st, s', st');
    } else if st.mode == C.InCdata {
      CdataRoundSame(env, open, lvl, enc, s, st, s', st');
    } else {
      hide Here, Steady, ContentTok, CdataTok;
    }
  }

  lemma NoTrailingCr(enc: Enc, s: Text, i: nat)
    requires i <= |s| && !enc.internal && (i + 1 == |s| ==> s[i] != CR_CHAR)
    ensures !ContentTok(enc, s, i, |s|).TrailingCr?
  {
    hide ByteType, Scan, DataTail, TestChar;
    if i < |s| {
      LineClass(enc, s[i]);
    }
  }

  lemma HereLast(s: Text, s': Text)
    ensures Here(s, |s|, s', |s'|)
  {
  }

  lemma CdataActSame(enc: Enc, s: Text, st: C.Parser, s': Text, st': C.Parser)
    requires Two(enc, s, st, s', st') && st.pos <= |s| && st'.pos <= |s'|
    requires SameTok(s, st.pos, CdataTok(enc, s, st.pos, |s|), s', st'.pos, CdataTok(enc, s', st'.pos, |s'|))
    ensures
      var r, r' := CdataTok(enc, s, st.pos, |s|), CdataTok(enc, s', st'.pos, |s'|);
      r.Tok? ==> r'.Tok? && SameStep(s, C.CdataAct(s, st, r.tok, r.next), s', C.CdataAct(s', st', r'.tok, r'.next))
  {
    hide Here, Steady, CdataTok;
  }

  /** Parsing a text and parsing its normalised form, from a place in them on. */
  lemma {:induction false} RunSame(env: C.Env, open: set<Text>, lvl: nat, enc: Enc, s: Text, st: C.Parser, s': Text,
      st': C.Parser)
    requires Two(enc, s, st, s', st') && Blind(env, enc) && st.pos <= |s| && st'.pos <= |s'|
    ensures SameOutcome(s, C.Run(env, open, lvl, enc, s, st, |s|, false), s',
      C.Run(env, open, lvl, enc, s', st', |s'|, false))
    decreases |s| - st.pos
  {
    hide C.Run, C.Round, Here, Steady, Blind;
    if LastCr(s, st) {
      LastCrSame(env, open, lvl, enc, s, st, s', st');
    } else {
      RoundSame(env, open, lvl, enc, s, st, s', st');
      C.RunUnfold(env, open, lvl, enc, s, st, |s|, false);
      C.RunUnfold(env, open, lvl, enc, s', st', |s'|, false);
      var m, m' := C.Round(env, open, lvl, enc, s, st, |s|, false), C.Round(env, open, lvl, enc, s', st', |s'|, false);
      if m.Move? {
        RunSame(env, open, lvl, enc, s, m.st, s', m'.st);
      }
    }
  }

  lemma LastCrTokens(enc: Enc, s: Text, i: nat, s': Text, i': nat)
    requires Here(s, i, s', i') && i + 1 == |s| && s[i] == CR_CHAR && !enc.internal
    ensures i' + 1 == |s'| && ContentTok(enc, s, i, |s|) == TrailingCr && CdataTok(enc, s, i, |s|) == Partial
    ensures ContentTok(enc, s', i', |s'|) == CdataTok(enc, s', i', |s'|) == Tok(DataNewline, |s'|)
    ensures ContentTok(enc, s', |s'|, |s'|) == CdataTok(enc, s', |s'|, |s'|) == NoTok
  {
    hide Here, ByteType, DataTail, Scan, CdataTail, TestChar;
    HereCr(s, i, s', i');
    HereEnd(s, i + 1, s', i' + 1);
    LineClass(enc, s[i]);
    LineClass(enc, s'[i']);
  }

  /** A carriage return that nothing follows: a line feed, and then the end. */
  lemma LastCrSame(env: C.Env, open: set<Text>, lvl: nat, enc: Enc, s: Text, st: C.Parser, s': Text, st': C.Parser)
    requires Two(enc, s, st, s', st') && LastCr(s, st) && st'.pos <= |s'|
    ensures SameOutcome(s, C.Run(env, open, lvl, enc, s, st, |s|, false), s',
      C.Run(env, open, lvl, enc, s', st', |s'|, false))
  {
    hide C.Run, Here, Steady, ContentTok, CdataTok, C.Reference;
    LastCrTokens(enc, s, st.pos, s', st'.pos);
    HereLast(s, s');
    C.RunUnfold(env, open, lvl, enc, s, st, |s|, false);
    C.RunUnfold(env, open, lvl, enc, s', st', |s'|, false);
    C.RunUnfold(env, open, lvl, enc, s', st'.(pos := |s'|), |s'|, false);
  }

  /**
    Section 2.11 of XML 1.0: a text and the same text with every line end made a line feed
    are accepted alike, and then report the same, and leave the same elements open.
  */
  lemma LineEndsDoNotMatter(env: C.Env, open: set<Text>, lvl: nat, enc: Enc, s: Text, stack: seq<C.Tag>, mode: C.Mode)
    requires !enc.internal && Steady(enc, s) && Steady(enc, Normalised(s)) && Blind(env, enc)
    ensures
      var s' := Normalised(s);
      var r := C.Run(env, open, lvl, enc, s, C.Parser(stack, mode, 0), |s|, false);
      var r' := C.Run(env, open, lvl, enc, s', C.Parser(stack, mode, 0), |s'|, false);
      && (r.Ok? <==> r'.Ok?)
      && (r.Ok? ==> r'.events == r.events && r'.st.stack == r.st.stack && r'.st.mode == r.st.mode)
  {
    hide C.Run, Normalised, Steady, Blind;
    var s' := Normalised(s);
    assert s[0..] == s && s'[0..] == s';
    RunSame(env, open, lvl, enc, s, C.Parser(stack, mode, 0), s', C.Parser(stack, mode, 0));
  }
}
