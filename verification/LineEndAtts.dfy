/**
  storeAtts does not see the line ends of a tag: the same names, the same values, the same
  declarations come of a tag and of its normalised form. With this, LineEnds speaks of the
  parser itself.
*/
module LineEndAtts {
  import opened Scanner
  import opened Tokenizer
  import opened Tokens
  import opened Lines
  import opened TagNames
  import opened References
  import opened LineEnds
  import C = Content
  import A = AttributeValue
  import T = StartTag
  import X = Attributes
  import Utf

  // ------------------------------------------------------------ well-formed text

  /** In well-formed text every lead byte is followed by its trail bytes. */
  lemma {:induction false} LeadsFollowed(enc: Enc, s: Text, p: nat)
    requires p <= |s| && Utf.Walks(enc, s, p)
    ensures forall k, j :: p <= k < j < |s| && j < k + LeadLen(ByteType(enc, s[k])) ==> s[j] >= 0x80
    decreases |s| - p
  {
    hide Utf.Walks, ByteType;
    if p < |s| {
      A.WalkChar(enc, s, p);
      var n := CharLen(enc, s[p]);
      LeadsFollowed(enc, s, p + n);
      forall k, j | p <= k < j < |s| && j < k + LeadLen(ByteType(enc, s[k])) ensures s[j] >= 0x80 {
        if p < k < p + n {
          TrailNoLead(enc, s[k]);
        }
      }
    }
  }

  lemma TrailNoLead(enc: Enc, b: Byte)
    ensures 0x80 <= b < 0xC0 ==> LeadLen(ByteType(enc, b)) == 0
  {
  }

  /** So the tests of names may be what they are. */
  lemma WalksSteady(enc: Enc, s: Text)
    requires Utf.Walks(enc, s, 0)
    ensures Steady(enc, s)
  {
    hide Utf.Walks, ByteType, Stops;
    LeadsFollowed(enc, s, 0);
    forall i: nat, j: nat | i <= j <= |s| && IsChar(enc, s[i..j]) ensures forall k :: i < k < j ==> !Stops(s[k]) {
      assert s[i..j][0] == s[i];
      forall k | i < k < j ensures !Stops(s[k]) {
        HighPlain(s[k]);
      }
    }
  }

  lemma HighPlain(b: Byte)
    requires b >= 0x80
    ensures !Stops(b)
  {
  }

  lemma WalkStep(enc: Enc, s: Text, i: nat)
    requires i < |s|
    ensures Utf.Walks(enc, s, i) <==> Utf.CharAt(enc, s, i) > 0 && Utf.Walks(enc, s, i + Utf.CharAt(enc, s, i))
  {
    hide Utf.CharAt;
  }

  lemma WalkBytes(enc: Enc, s: Text, i: nat, s': Text, i': nat)
    requires i < |s| && Utf.CharAt(enc, s, i) > 0 && s[i] != CR_CHAR && Here(s, i, s', i')
    ensures
      var n := Utf.CharAt(enc, s, i);
      i' + n <= |s'| && Here(s, i + n, s', i' + n) && Utf.CharAt(enc, s', i') == n
  {
    hide Here, TestChar;
    var n := Utf.CharAt(enc, s, i);
    HereRange(s, i, s', i');
    WalkTrails(enc, s, i);
    HereRun(s, i, s', i', n);
    assert s[i..i + n][0] == s[i] && s'[i'..i' + n][0] == s'[i'];
    Covered(enc, DataChar, s, i, s', i');
    if TestChar(enc, DataChar, s, i, |s|).Fits? {
      TestOfBytes(enc, DataChar, s, i, s', i', n);
    }
  }

  lemma WalkTrails(enc: Enc, s: Text, i: nat)
    requires i < |s| && Utf.CharAt(enc, s, i) > 0 && s[i] != CR_CHAR
    ensures CR_CHAR !in s[i..i + Utf.CharAt(enc, s, i)]
  {
    var n := Utf.CharAt(enc, s, i);
    if TestChar(enc, DataChar, s, i, |s|).Fits? {
      CharTrails(enc, s, i, |s|);
    }
    hide TestChar;
  }

  lemma WalkBlank(enc: Enc, s: Text, i: nat)
    requires i < |s| && Blank(s[i])
    ensures Utf.CharAt(enc, s, i) == 1
  {
  }

  /** Well-formed text stays well-formed. */
  lemma {:induction false} WalksNormal(enc: Enc, s: Text, i: nat, s': Text, i': nat)
    requires Here(s, i, s', i') && Utf.Walks(enc, s, i)
    ensures Utf.Walks(enc, s', i')
    decreases |s| - i
  {
    hide Here, Utf.CharAt, Utf.Walks;
    HereRange(s, i, s', i');
    HereEnd(s, i, s', i');
    if i == |s| {
      WalksEnd(enc, s');
    } else {
      WalkStep(enc, s, i);
      if s[i] == CR_CHAR {
        HereCr(s, i, s', i');
        WalkBlank(enc, s, i);
        WalkBlank(enc, s', i');
        WalkStep(enc, s', i');
        if i + 1 < |s| && s[i + 1] == LF_CHAR {
          WalkStep(enc, s, i + 1);
          WalkBlank(enc, s, i + 1);
          WalksNormal(enc, s, i + 2, s', i' + 1);
        } else {
          WalksNormal(enc, s, i + 1, s', i' + 1);
        }
      } else {
        WalkBytes(enc, s, i, s', i');
        WalkStep(enc, s', i');
        WalksNormal(enc, s, i + Utf.CharAt(enc, s, i), s', i' + Utf.CharAt(enc, s, i));
      }
    }
  }

  lemma WalksEnd(enc: Enc, s: Text)
    ensures Utf.Walks(enc, s, |s|)
  {
  }

  /** Everything asked of a text holds of well-formed UTF-8, whatever the tests. */
  lemma WellFormedSteady(enc: Enc, s: Text)
    requires Utf.Walks(enc, s, 0)
    ensures Steady(enc, s) && Steady(enc, Normalised(s))
  {
    hide Utf.Walks, Steady, Normalised;
    WalksSteady(enc, s);
    assert s[0..] == s && Normalised(s)[0..] == Normalised(s);
    WalksNormal(enc, s, 0, Normalised(s), 0);
    WalksSteady(enc, Normalised(s));
  }

  // ------------------------------------------------------------------- locality

  lemma {:induction false} PlainLocal(enc: Enc, s: Text, s': Text, i: nat, end: nat)
    requires Alike(s, s', end) && i <= end
    ensures A.PlainEnd(enc, s, i, end) == A.PlainEnd(enc, s', i, end)
    decreases end - i
  {
    hide ByteType;
    if i < end {
      AlikeAt(s, s', end);
      var c := ByteType(enc, s[i]);
      PlainLocal(enc, s, s', if LeadLen(c) == 0 then i + 1 else if end - i < LeadLen(c) then end
        else i + LeadLen(c), end);
    }
  }

  lemma ValueTokLocal(enc: Enc, s: Text, s': Text, i: nat, end: nat)
    requires Alike(s, s', end) && i <= end
    ensures A.ValueTokAt(enc, s, i, end) == A.ValueTokAt(enc, s', i, end)
  {
    hide ByteType, Scan, A.PlainEnd;
    if i < end {
      AlikeHere(s, s', i, end);
      PlainLocal(enc, s, s', i, end);
      ScanLocal(enc, InRef(RefStart, NoQuote), s, s', i + 1, end);
    }
  }

  lemma ReferencedLocal(env: A.Env, open: set<Text>, s: Text, i: nat, next: nat, s': Text, i': nat, next': nat)
    requires i < next <= |s| && i' < next' <= |s'| && s[i..next] == s'[i'..next']
    ensures A.Referenced(env, open, s, i, next) == A.Referenced(env, open, s', i', next')
  {
    hide A.Replace, Predefined;
    NameOfBytes(s, i, next, s', i', next');
  }

  /** The replacement of a value depends on no byte after it. */
  lemma {:induction false} ReplaceLocal(env: A.Env, open: set<Text>, enc: Enc, s: Text, s': Text, i: nat, end: nat)
    requires Alike(s, s', end) && i <= end
    ensures A.Replace(env, open, enc, s, i, end) == A.Replace(env, open, enc, s', i, end)
    decreases end - i
  {
    hide A.ValueTokAt, A.Referenced, CharRefNumber, Utf8Encode;
    ValueTokLocal(enc, s, s', i, end);
    var t := A.ValueTokAt(enc, s, i, end);
    if !t.Nothing? && !t.Malformed? && !t.Unexpected? {
      AlikeAt(s, s', end);
      ReplaceLocal(env, open, enc, s, s', t.next, end);
      if t.CharRefTo? && i + 4 <= t.next {
        CharRefOfBytes(s, i, t.next, s', i, t.next);
      }
      ReferencedLocal(env, open, s, i, t.next, s', i, t.next);
    }
  }

  // ---------------------------------------------------------------------- values

  /** A run of plain characters ends here. */
  predicate PlainStops(enc: Enc, s: Text, n: nat)
  {
    n == |s| || (n < |s| && (ByteType(enc, s[n]) == AMP || IsSpace(ByteType(enc, s[n]))))
  }

  lemma PlainGoesTo(enc: Enc, s: Text, i: nat)
    requires i <= |s|
    ensures
      var n := A.PlainEnd(enc, s, i, |s|);
      n != -1 ==> PlainStops(enc, s, n)
    decreases |s| - i
  {
    hide ByteType;
    if i < |s| {
      var c := ByteType(enc, s[i]);
      PlainGoesTo(enc, s, if LeadLen(c) == 0 then i + 1 else if |s| - i < LeadLen(c) then |s| else i + LeadLen(c));
    }
  }

  lemma {:induction false} PlainOfBytes(enc: Enc, s: Text, i: nat, n: nat, s': Text, i': nat)
    requires i <= n <= |s| && A.PlainEnd(enc, s, i, |s|) == n && i' + (n - i) <= |s'|
    requires s'[i'..i' + (n - i)] == s[i..n] && PlainStops(enc, s', i' + (n - i)) && (n == |s| ==> i' + (n - i) == |s'|)
    ensures A.PlainEnd(enc, s', i', |s'|) == i' + (n - i)
    decreases |s| - i
  {
    hide ByteType, A.PlainEnd, LeadLen;
    PlainHere(enc, s', i');
    if i < n {
      assert s[i..n][0] == s[i] && s'[i'..i' + (n - i)][0] == s'[i'];
      var c := ByteType(enc, s[i]);
      var k := if LeadLen(c) == 0 then 1 else if |s| - i < LeadLen(c) then |s| - i else LeadLen(c);
      PlainAhead(enc, s, i, k);
      PlainBack(enc, s', i', c, k);
      InnerSlice(s, i, n, k, n - i);
      InnerSlice(s', i', i' + (n - i), k, n - i);
      PlainOfBytes(enc, s, i + k, n, s', i' + k);
    }
  }

  lemma PlainHere(enc: Enc, s: Text, i: nat)
    requires i <= |s|
    ensures PlainStops(enc, s, i) ==> A.PlainEnd(enc, s, i, |s|) == i
  {
    hide ByteType;
  }

  /** What one step ahead leads to. */
  lemma PlainBack(enc: Enc, s: Text, i: nat, c: ByteClass, k: nat)
    requires i < |s| && ByteType(enc, s[i]) == c && c != LT && (LeadLen(c) > 0 || (c != AMP && !IsSpace(c)))
    requires LeadLen(c) == 0 ==> k == 1
    requires LeadLen(c) > 0 ==> k <= LeadLen(c) && i + k <= |s| && (k < LeadLen(c) ==> i + k == |s|)
    ensures i + k <= |s| && A.PlainEnd(enc, s, i, |s|) == A.PlainEnd(enc, s, i + k, |s|)
  {
    hide ByteType;
  }

  lemma PlainAhead(enc: Enc, s: Text, i: nat, k: nat)
    requires i < |s| && A.PlainEnd(enc, s, i, |s|) > i
    requires
      var c := ByteType(enc, s[i]);
      k == if LeadLen(c) == 0 then 1 else if |s| - i < LeadLen(c) then |s| - i else LeadLen(c)
    ensures A.PlainEnd(enc, s, i, |s|) == A.PlainEnd(enc, s, i + k, |s|) && i + k <= |s| && 1 <= k
    ensures
      var c := ByteType(enc, s[i]);
      c != LT && (LeadLen(c) > 0 || (c != AMP && !IsSpace(c))) && i + k <= A.PlainEnd(enc, s, i, |s|)
  {
    hide ByteType;
  }

  lemma DataIs(enc: Enc, s: Text, i: nat, n: nat)
    requires i <= |s|
    ensures A.ValueTokAt(enc, s, i, |s|) == A.DataTo(n) <==>
      && i < |s| && ByteType(enc, s[i]) != AMP && !IsSpace(ByteType(enc, s[i]))
      && n == A.PlainEnd(enc, s, i, |s|)
    ensures A.ValueTokAt(enc, s, i, |s|) == A.DataTo(n) ==> n > i
  {
    hide ByteType, Scan;
  }

  lemma StopsSame(enc: Enc, s: Text, n: nat, s': Text, n': nat)
    requires Here(s, n, s', n') && PlainStops(enc, s, n)
    ensures PlainStops(enc, s', n')
  {
    hide Here, ByteType;
    HereRange(s, n, s', n');
    HereEnd(s, n, s', n');
    if n < |s| {
      NonNames(enc, s[n]);
      if s[n] == CR_CHAR {
        HereCr(s, n, s', n');
        NonNames(enc, s'[n']);
      } else {
        HereChar(s, n, s', n');
      }
    }
  }

  lemma DataSameValue(enc: Enc, s: Text, i: nat, s': Text, i': nat, n: nat)
    requires Here(s, i, s', i') && A.ValueTokAt(enc, s, i, |s|) == A.DataTo(n) && T.Unblank(s, i, n)
    ensures
      var n' := i' + (n - i);
      i < n && n' <= |s'| && s'[i'..n'] == s[i..n] && Here(s, n, s', n') &&
        A.ValueTokAt(enc, s', i', |s'|) == A.DataTo(n')
  {
    hide Here, ByteType, A.ValueTokAt, A.PlainEnd;
    HereRange(s, i, s', i');
    DataIs(enc, s, i, n);
    PlainGoesTo(enc, s, i);
    HereRun(s, i, s', i', n - i);
    var n' := i' + (n - i);
    StopsSame(enc, s, n, s', n');
    HereEnd(s, n, s', n');
    PlainOfBytes(enc, s, i, n, s', i');
    assert s[i..n][0] == s[i] && s'[i'..n'][0] == s'[i'];
    DataIs(enc, s', i', n');
  }

  lemma BlankSameValue(enc: Enc, s: Text, i: nat, s': Text, i': nat, n: nat)
    requires Here(s, i, s', i') && A.ValueTokAt(enc, s, i, |s|) == A.BlankTo(n) && !enc.internal
    ensures i < n <= |s| && i' < |s'| && Here(s, n, s', i' + 1) && A.ValueTokAt(enc, s', i', |s'|) == A.BlankTo(i' + 1)
  {
    hide Here, A.ValueTokAt;
    HereRange(s, i, s', i');
    BlankIs(enc, s, i, n, |s|);
    if s[i] == CR_CHAR {
      HereCr(s, i, s', i');
    } else {
      HereChar(s, i, s', i');
    }
    HereRange(s, n, s', i' + 1);
    BlankIs(enc, s', i', i' + 1, |s'|);
  }

  lemma RefSameValue(enc: Enc, s: Text, i: nat, s': Text, i': nat)
    requires Here(s, i, s', i') && Steady(enc, s) && Steady(enc, s') && i <= |s|
    requires A.ValueTokAt(enc, s, i, |s|).CharRefTo? || A.ValueTokAt(enc, s, i, |s|).EntityRefTo?
    ensures
      var t, t' := A.ValueTokAt(enc, s, i, |s|), A.ValueTokAt(enc, s', i', |s'|);
      && (t.CharRefTo? ==> t'.CharRefTo?) && (t.EntityRefTo? ==> t'.EntityRefTo?)
      && i < t.next <= |s| && i' < t'.next <= |s'| && s'[i'..t'.next] == s[i..t.next] && Here(s, t.next, s', t'.next)
  {
    hide Here, Steady, Scan, A.PlainEnd, Normalised, ByteType;
    HereRange(s, i, s', i');
    NumClassAmp(enc, s[i]);
    HereChar(s, i, s', i');
    NumClassAmp(enc, s'[i']);
    ScanSame(enc, InRef(RefStart, NoQuote), s, i + 1, s', i' + 1);
    RefNoCr(enc, RefStart, s, i + 1);
    var r, r' := Scan(enc, InRef(RefStart, NoQuote), s, i + 1, |s|),
      Scan(enc, InRef(RefStart, NoQuote), s', i' + 1, |s'|);
    assert s[i..r.next] == [s[i]] + s[i + 1..r.next];
    NormalIs(s[i..r.next]);
    TextHere(s, i, r.next, s', i', r'.next);
  }

  lemma NumClassAmp(enc: Enc, b: Byte)
    ensures ByteType(enc, b) == AMP <==> b == 0x26
  {
  }

  /** A value that attributeValueTok finds no fault with is replaced by the same. */
  lemma {:induction false} ReplaceSame(env: A.Env, open: set<Text>, enc: Enc, s: Text, i: nat, s': Text, i': nat)
    requires Here(s, i, s', i') && i <= |s| && i' <= |s'| && Steady(enc, s) && Steady(enc, s') && !enc.internal
    requires T.Proper(enc, s, i, |s|)
    ensures A.Replace(env, open, enc, s, i, |s|) == A.Replace(env, open, enc, s', i', |s'|)
    decreases |s| - i
  {
    hide Here, Steady, A.ValueTokAt, A.Referenced, CharRefNumber, Utf8Encode, T.Unblank;
    match A.ValueTokAt(enc, s, i, |s|)
    case Nothing =>
      NothingIs(enc, s, i);
      HereEnd(s, i, s', i');
      NothingIs(enc, s', i');
    case DataTo(n) =>
      DataSameValue(enc, s, i, s', i', n);
      ReplaceSame(env, open, enc, s, n, s', i' + (n - i));
    case BlankTo(n) =>
      BlankSameValue(enc, s, i, s', i', n);
      ReplaceSame(env, open, enc, s, n, s', i' + 1);
    case CharRefTo(n) =>
      RefSameValue(enc, s, i, s', i');
      var n' := A.ValueTokAt(enc, s', i', |s'|).next;
      assert |s[i..n]| == |s'[i'..n']|;
      if i + 4 <= n {
        CharRefOfBytes(s, i, n, s', i', n');
      }
      ReplaceSame(env, open, enc, s, n, s', n');
    case EntityRefTo(n) =>
      RefSameValue(enc, s, i, s', i');
      var n' := A.ValueTokAt(enc, s', i', |s'|).next;
      ReferencedLocal(env, open, s, i, n, s', i', n');
      ReplaceSame(env, open, enc, s, n, s', n');
    case _ =>
  }

  lemma NothingIs(enc: Enc, s: Text, i: nat)
    requires i <= |s|
    ensures A.ValueTokAt(enc, s, i, |s|).Nothing? <==> i == |s|
  {
    hide A.PlainEnd, Scan;
  }

  // ----------------------------------------------------------------------- spans

  ghost predicate SpanHere(s: Text, sp: T.Span, s': Text, sp': T.Span)
  {
    Here(s, sp.name, s', sp'.name) && Here(s, sp.value, s', sp'.value) && Here(s, sp.valueEnd, s', sp'.valueEnd)
  }

  ghost predicate SpansHere(s: Text, a: seq<T.Span>, s': Text, b: seq<T.Span>)
  {
    |a| == |b| && forall k :: 0 <= k < |a| ==> SpanHere(s, a[k], s', b[k])
  }

  lemma SpansMore(s: Text, a: seq<T.Span>, more: seq<T.Span>, s': Text, b: seq<T.Span>, more': seq<T.Span>)
    requires SpansHere(s, a, s', b) && SpansHere(s, more, s', more')
    ensures SpansHere(s, a + more, s', b + more')
  {
    hide SpanHere;
    forall k | 0 <= k < |a + more| ensures SpanHere(s, (a + more)[k], s', (b + more')[k]) {
      if k >= |a| {
        assert (a + more)[k] == more[k - |a|] && (b + more')[k] == more'[k - |a|];
      }
    }
  }

  /** Blanks begin nothing and end nothing. */
  lemma BlankSpans(st: State, v: View)
    requires BlankView(v) && Quoted(st) && T.TagState(st)
    ensures
      var m := CharStep(st, v);
      m.Go? ==> m.st != InAtt(AttEnd) && !T.NameBegins(st, m.st) && !T.ValueBegins(st, m.st)
  {
  }

  lemma TagIsQuoted(st: State)
    requires T.TagState(st)
    ensures Quoted(st) && !st.Cdata?
  {
  }

  lemma {:induction false} SpansSame(enc: Enc, st: State, s: Text, i: nat, s': Text, i': nat, name: nat, name': nat,
      value: nat, value': nat)
    requires Here(s, i, s', i') && i <= |s| && i' <= |s'| && Steady(enc, s) && Steady(enc, s') && T.TagState(st)
    requires Here(s, name, s', name') && Here(s, value, s', value') && Scan(enc, st, s, i, |s|).Tok?
    ensures SpansHere(s, T.Spans(enc, st, s, i, |s|, name, value), s', T.Spans(enc, st, s', i', |s'|, name', value'))
    decreases |s| - i
  {
    hide Here, Scan, CharStep, Look, Steady, Quoted, SameView, T.Spans, T.TagState, SpanHere, T.StepsOn;
    TagIsQuoted(st);
    ScanEmpty(enc, st, s, |s|);
    if s[i] == CR_CHAR {
      SpansCr(enc, st, s, i, s', i', name, name', value, value');
    } else {
      SpansChar(enc, st, s, i, s', i', name, name', value, value');
    }
  }

  lemma {:induction false} SpansChar(enc: Enc, st: State, s: Text, i: nat, s': Text, i': nat, name: nat, name': nat,
      value: nat, value': nat)
    requires Here(s, i, s', i') && i < |s| && i' <= |s'| && Steady(enc, s) && Steady(enc, s') && T.TagState(st)
    requires Here(s, name, s', name') && Here(s, value, s', value') && Scan(enc, st, s, i, |s|).Tok? && s[i] != CR_CHAR
    ensures SpansHere(s, T.Spans(enc, st, s, i, |s|, name, value), s', T.Spans(enc, st, s', i', |s'|, name', value'))
    decreases |s| - i, 0
  {
    hide Here, Scan, CharStep, Look, Steady, Quoted, SameView, T.Spans, T.TagState, SpanHere, T.StepsOn;
    TagIsQuoted(st);
    HereChar(s, i, s', i');
    LookSame(enc, s, i, s', i');
    StepSame(st, Look(enc, s, i, |s|), Look(enc, s', i', |s'|));
    T.TagStateStep(enc, st, s, i, |s|);
    ScanMove(enc, st, s, i, |s|);
    T.SpansUnfold(enc, st, s, i, |s|, name, value);
    T.SpansUnfold(enc, st, s', i', |s'|, name', value');
    var m := CharStep(st, Look(enc, s, i, |s|));
    if m.Go? {
      StepsOnTo(st, m);
      GoHere(enc, st, s, i, s', i');
      var n, v := if T.NameBegins(st, m.st) then i else name, if T.ValueBegins(st, m.st) then i + m.n else value;
      var n', v' := if T.NameBegins(st, m.st) then i' else name', if T.ValueBegins(st, m.st) then i' + m.n else value';
      HereRange(s, i + m.n, s', i' + m.n);
      SpansSame(enc, m.st, s, i + m.n, s', i' + m.n, n, n', v, v');
      if m.st == InAtt(AttEnd) {
        OneSpan(s, T.Span(name, value, i), s', T.Span(name', value', i'));
        SpansMore(s, [T.Span(name, value, i)], T.Spans(enc, m.st, s, i + m.n, |s|, n, v),
                  s', [T.Span(name', value', i')], T.Spans(enc, m.st, s', i' + m.n, |s'|, n', v'));
      } else {
        SpansMore(s, [], T.Spans(enc, m.st, s, i + m.n, |s|, n, v), s', [],
          T.Spans(enc, m.st, s', i' + m.n, |s'|, n', v'));
      }
    }
  }

  lemma StepsOnTo(st: State, m: Move)
    requires T.StepsOn(st, m) && m.Go?
    ensures T.TagState(m.st)
  {
  }

  lemma OneSpan(s: Text, sp: T.Span, s': Text, sp': T.Span)
    requires SpanHere(s, sp, s', sp') || (Here(s, sp.name, s', sp'.name) && Here(s, sp.value, s', sp'.value)
                                          && Here(s, sp.valueEnd, s', sp'.valueEnd))
    ensures SpansHere(s, [sp], s', [sp'])
  {
  }

  lemma {:induction false} SpansCr(enc: Enc, st: State, s: Text, i: nat, s': Text, i': nat, name: nat, name': nat,
      value: nat, value': nat)
    requires Here(s, i, s', i') && i < |s| && i' <= |s'| && Steady(enc, s) && Steady(enc, s') && T.TagState(st)
    requires Here(s, name, s', name') && Here(s, value, s', value') && Scan(enc, st, s, i, |s|).Tok? && s[i] == CR_CHAR
    ensures SpansHere(s, T.Spans(enc, st, s, i, |s|, name, value), s', T.Spans(enc, st, s', i', |s'|, name', value'))
    decreases |s| - i, 0
  {
    hide Here, Scan, CharStep, Look, Steady, Quoted, T.Spans, T.TagState, SpanHere, T.StepsOn, BlankView;
    TagIsQuoted(st);
    HereCr(s, i, s', i');
    LookBlank(enc, s, i);
    LookBlank(enc, s', i');
    BlankStep(st, Look(enc, s, i, |s|), Look(enc, s', i', |s'|));
    BlankSpans(st, Look(enc, s, i, |s|));
    T.TagStateStep(enc, st, s, i, |s|);
    ScanMove(enc, st, s, i, |s|);
    T.SpansUnfold(enc, st, s, i, |s|, name, value);
    T.SpansUnfold(enc, st, s', i', |s'|, name', value');
    var m := CharStep(st, Look(enc, s, i, |s|));
    if m.Go? {
      StepsOnTo(st, m);
      TagIsQuoted(m.st);
      if i + 1 < |s| && s[i + 1] == LF_CHAR {
        LookBlank(enc, s, i + 1);
        BlankStep(st, Look(enc, s, i, |s|), Look(enc, s, i + 1, |s|));
        BlankSpans(m.st, Look(enc, s, i + 1, |s|));
        ScanMove(enc, m.st, s, i + 1, |s|);
        T.SpansUnfold(enc, m.st, s, i + 1, |s|, name, value);
        SpansSame(enc, m.st, s, i + 2, s', i' + 1, name, name', value, value');
      } else {
        SpansSame(enc, m.st, s, i + 1, s', i' + 1, name, name', value, value');
      }
    }
  }

  // ------------------------------------------------------------------ one tag

  /** A tag and its normalised form. */
  ghost predicate Pair(enc: Enc, s: Text, s': Text)
  {
    X.IsTag(enc, s) && s' == Normalised(s) && Steady(enc, s) && Steady(enc, s') && !enc.internal
  }

  lemma PairHere(s: Text, s': Text)
    requires s' == Normalised(s)
    ensures Here(s, 0, s', 0) && Here(s, |s|, s', |s'|)
  {
    hide Normalised;
    assert s[0..] == s && s'[0..] == s';
    NormalNone();
    assert s[|s|..] == [] && s'[|s'|..] == [];
  }

  lemma TagNormal(enc: Enc, s: Text, s': Text)
    requires Pair(enc, s, s')
    ensures s != [] && s' != [] && ByteType(enc, s[0]) == LT && X.IsTag(enc, s')
    ensures ContentTok(enc, s, 0, |s|) == Scan(enc, Lt, s, 1, |s|) && T.IsTag(ContentTok(enc, s, 0, |s|))
    ensures ContentTok(enc, s', 0, |s'|) == Scan(enc, Lt, s', 1, |s'|) && T.IsTag(ContentTok(enc, s', 0, |s'|))
    ensures ContentTok(enc, s, 0, |s|).next == |s| && ContentTok(enc, s', 0, |s'|).next == |s'|
    ensures s[|s| - 1] != CR_CHAR && s[0] == 0x3C && s'[0] == 0x3C && Here(s, 1, s', 1)
  {
    hide Here, Steady, ContentTok, Normalised, ByteType, Scan, SameData;
    PairHere(s, s');
    ContentTokSame(enc, s, 0, s', 0);
    LastClass(enc, s[0]);
    HereEnd(s, 0, s', 0);
    HereChar(s, 0, s', 0);
    LastClass(enc, s'[0]);
    Begins(enc, s, 0, |s|);
    Begins(enc, s', 0, |s'|);
    HereEnd(s, |s|, s', ContentTok(enc, s', 0, |s'|).next);
  }

  lemma ElementSame(enc: Enc, s: Text, s': Text) returns (n: nat)
    requires Pair(enc, s, s')
    ensures X.NameAt(enc, s', 1) == X.NameAt(enc, s, 1)
    ensures 1 < n < |s| && CR_CHAR !in s[1..n] && 1 + CharLen(enc, s[1]) <= n && T.NameStarter(ByteType(enc, s[1]))
  {
    hide Here, Steady, ContentTok, Normalised, ByteType, Scan, C.NameEnd, NonName, Plain, X.IsTag, T.Spans, Named;
    TagNormal(enc, s, s');
    PairHere(s, s');
    n := StartTagName(enc, s, 0, |s|);
    NamedRange(s, 1, n, |s|);
    PlainNoCr(s, 1, n);
    NonNames(enc, s[n]);
    NameHere(enc, s, 1, n, |s|, s', 1, |s'|);
    T.FirstChar(enc, s, 1, |s|, 0, 0);
    FirstFits(enc, s, n);
  }

  lemma FirstFits(enc: Enc, s: Text, n: nat)
    requires 1 < n < |s| && C.NameEnd(enc, s, 1, |s|) == n && T.NameStarter(ByteType(enc, s[1]))
    ensures 1 + CharLen(enc, s[1]) <= n
  {
    hide ByteType;
    NameGoes(enc, s, 1, |s|);
  }

  lemma NameGoes(enc: Enc, s: Text, i: nat, end: nat)
    requires i < end <= |s| && C.NameEnd(enc, s, i, end) > i && T.NameStarter(ByteType(enc, s[i]))
    ensures i + CharLen(enc, s[i]) <= C.NameEnd(enc, s, i, end)
  {
    hide ByteType;
  }

  lemma SpansOfSame(enc: Enc, s: Text, s': Text)
    requires Pair(enc, s, s') && s != [] && s' != []
    ensures SpansHere(s, X.SpansOf(enc, s), s', X.SpansOf(enc, s'))
  {
    hide Here, Steady, ContentTok, Normalised, ByteType, Scan, T.Spans, X.IsTag, SpansHere, CharLen;
    TagNormal(enc, s, s');
    PairHere(s, s');
    var n := ElementSame(enc, s, s');
    T.FirstChar(enc, s, 1, |s|, 0, 0);
    T.FirstChar(enc, s', 1, |s'|, 0, 0);
    var w := CharLen(enc, s[1]);
    assert s[1..n][0] == s[1];
    assert CR_CHAR !in s[1..1 + w] by { assert s[1..1 + w] == s[1..n][..w]; }
    HereRun(s, 1, s', 1, w);
    HereChar(s, 1, s', 1);
    SpansSame(enc, InTag(TagName(false)), s, 1 + w, s', 1 + w, 0, 0, 0, 0);
  }

  lemma AttNameEnd(enc: Enc, s: Text, a: nat) returns (n: nat)
    requires AttNamed(enc, s, a, |s|)
    ensures Named(s, a, n, |s|) && C.NameEnd(enc, s, a, |s|) == n && (Blank(s[n]) || s[n] == EQUAL)
    ensures Steady(enc, s) ==> Plain(s, a, n)
  {
    hide Steady, ByteType, C.NameEnd, Plain;
    n :| Named(s, a, n, |s|) && C.NameEnd(enc, s, a, |s|) == n && (Blank(s[n]) || s[n] == EQUAL)
         && (Steady(enc, s) ==> Plain(s, a, n));
  }

  /** The name of an attribute. */
  lemma AttNameSame(enc: Enc, s: Text, s': Text, a: nat, a': nat)
    requires Pair(enc, s, s') && AttNamed(enc, s, a, |s|) && Here(s, a, s', a') && a' <= |s'|
    ensures X.NameAt(enc, s', a') == X.NameAt(enc, s, a)
  {
    hide Here, Steady, ContentTok, Normalised, ByteType, C.NameEnd, NonName, Plain, X.IsTag, Named, AttNamed, Scan;
    TagNormal(enc, s, s');
    PairHere(s, s');
    var n := AttNameEnd(enc, s, a);
    NamedRange(s, a, n, |s|);
    PlainNoCr(s, a, n);
    NonNames(enc, s[n]);
    NameHere(enc, s, a, n, |s|, s', a', |s'|);
  }

  lemma {:induction false} ProperLocal(enc: Enc, s: Text, s': Text, i: nat, end: nat)
    requires Alike(s, s', end) && i <= end && T.Proper(enc, s, i, end)
    ensures T.Proper(enc, s', i, end)
    decreases end - i
  {
    hide A.ValueTokAt;
    ValueTokLocal(enc, s, s', i, end);
    AlikeAt(s, s', end);
    var t := A.ValueTokAt(enc, s, i, end);
    if !t.Nothing? {
      ProperLocal(enc, s, s', t.next, end);
    }
  }

  /** The value of an attribute. */
  lemma AttValueSame(env: A.Env, open: set<Text>, enc: Enc, s: Text, s': Text, sp: T.Span, sp': T.Span)
    requires Pair(enc, s, s') && T.Sound(enc, s, |s|, sp) && SpanHere(s, sp, s', sp')
    ensures sp'.value <= sp'.valueEnd <= |s'|
    ensures A.Replace(env, open, enc, s', sp'.value, sp'.valueEnd) ==
      A.Replace(env, open, enc, s, sp.value, sp.valueEnd)
  {
    hide Steady, Normalised, X.IsTag, A.Replace, T.Proper;
    QuoteNoLf(enc, s[sp.valueEnd]);
    var a, b, a', b' := sp.value, sp.valueEnd, sp'.value, sp'.valueEnd;
    assert s[b..][0] == s[b];
    Between(s, a, b, s', a', b');
    var cut, cut' := s[..b], s'[..b'];
    assert cut[a..] == s[a..b] && cut'[a'..] == s'[a'..b'];
    SteadySlice(enc, s, 0, b);
    SteadySlice(enc, s', 0, b');
    assert s[0..b] == cut && s'[0..b'] == cut';
    assert cut[..b] == s[..b] && cut'[..b'] == s'[..b'];
    ProperLocal(enc, s, cut, a, b);
    ReplaceLocal(env, open, enc, s, cut, a, b);
    ReplaceLocal(env, open, enc, s', cut', a', b');
    ReplaceSame(env, open, enc, cut, a, cut', a');
  }

  lemma QuoteNoLf(enc: Enc, b: Byte)
    requires ByteType(enc, b) == QUOT || ByteType(enc, b) == APOS
    ensures b != LF_CHAR
  {
  }

  // ----------------------------------------------------------------- all attributes

  lemma {:induction false} SpecifiedSame(dtd: X.Dtd, open: set<Text>, enc: Enc, s: Text, s': Text,
      defaults: seq<X.Default>, spans: seq<T.Span>, spans': seq<T.Span>)
    requires Pair(enc, s, s') && SpansHere(s, spans, s', spans')
    requires forall k :: 0 <= k < |spans| ==> T.Sound(enc, s, |s|, spans[k]) && AttNamed(enc, s, spans[k].name, |s|)
    requires forall k :: 0 <= k < |spans| ==> X.InText(s, spans[k])
    requires forall k :: 0 <= k < |spans'| ==> X.InText(s', spans'[k])
    ensures X.Specified(dtd, open, enc, s', defaults, spans') == X.Specified(dtd, open, enc, s, defaults, spans)
  {
    hide T.Sound, AttNamed, SpanHere, X.AddItem, X.NameAt, A.Replace, A.Tokenised, Pair;
    if spans != [] {
      var n := |spans| - 1;
      SpecifiedSame(dtd, open, enc, s, s', defaults, spans[..n], spans'[..n]);
      SpanNameSame(enc, s, s', spans[n], spans'[n]);
      AttValueSame(dtd.values, open, enc, s, s', spans[n], spans'[n]);
    }
  }

  lemma SpanNameSame(enc: Enc, s: Text, s': Text, sp: T.Span, sp': T.Span)
    requires Pair(enc, s, s') && SpanHere(s, sp, s', sp') && AttNamed(enc, s, sp.name, |s|)
    ensures X.NameAt(enc, s', sp'.name) == X.NameAt(enc, s, sp.name)
  {
    hide X.NameAt, AttNamed, Pair, Normalised;
    AttNameSame(enc, s, s', sp.name, sp'.name);
  }

  /** The attributes of a tag are sound and named. */
  lemma SpansProper(enc: Enc, s: Text)
    requires X.IsTag(enc, s)
    ensures s != [] && forall k :: 0 <= k < |X.SpansOf(enc, s)| ==>
      T.Sound(enc, s, |s|, X.SpansOf(enc, s)[k]) && AttNamed(enc, s, X.SpansOf(enc, s)[k].name, |s|)
  {
    hide T.Sound, AttNamed, ContentTok, ByteType, Scan, T.Spans;
    forall k | 0 <= k < |X.SpansOf(enc, s)|
      ensures T.Sound(enc, s, |s|, X.SpansOf(enc, s)[k]) && AttNamed(enc, s, X.SpansOf(enc, s)[k].name, |s|)
    {
      T.TagSoundAt(enc, s, 0, |s|, k);
      AttNames(enc, s, 0, |s|, k);
    }
  }

  lemma PairTags(enc: Enc, s: Text, s': Text)
    requires Pair(enc, s, s')
    ensures X.IsTag(enc, s) && s != []
  {
    hide ContentTok, ByteType, Steady, Normalised;
  }

  /** What comes of a tag does not depend on its line ends. */
  lemma AttributedSame(dtd: X.Dtd, enc: Enc, open: set<Text>, stack: seq<C.Tag>, s: Text, s': Text)
    requires Pair(enc, s, s')
    ensures X.Attributed(dtd, enc, open, stack, s') == X.Attributed(dtd, enc, open, stack, s)
  {
    hide X.IsTag, X.NameAt, X.Specified, X.Finish, X.Defaulted, T.Sound, AttNamed;
    hide SpansHere, X.InText, X.Bindings, Pair, X.SpansOf, X.DefaultsOf;
    PairTags(enc, s, s');
    TagNormal(enc, s, s');
    var n := ElementSame(enc, s, s');
    SpansOfSame(enc, s, s');
    X.SpansIn(enc, s);
    X.SpansIn(enc, s');
    SpansProper(enc, s);
    SpecifiedSame(dtd, open, enc, s, s', X.DefaultsOf(dtd, X.NameAt(enc, s, 1)), X.SpansOf(enc, s), X.SpansOf(enc, s'));
  }

  /** The parser itself is blind to line ends. */
  lemma ParserBlind(env: C.Env, dtd: X.Dtd, enc: Enc)
    requires !enc.internal
    ensures Blind(X.ParserEnv(env, dtd), enc)
  {
    hide X.IsTag, Steady, Normalised, X.Attributed;
    forall open: set<Text>, stack: seq<C.Tag>, text: Text |
      X.IsTag(enc, text) && Steady(enc, text) && Steady(enc, Normalised(text))
      ensures X.Attributed(dtd, enc, open, stack, Normalised(text)) == X.Attributed(dtd, enc, open, stack, text)
    {
      AttributedSame(dtd, enc, open, stack, text, Normalised(text));
    }
  }

  /**
    Section 2.11 of XML 1.0 for the parser and every well-formed UTF-8 text: it is accepted
    or refused like its normalised form, and the application is told exactly the same.
  */
  lemma LineEndsNormalised(env: C.Env, dtd: X.Dtd, open: set<Text>, lvl: nat, enc: Enc, s: Text, stack: seq<C.Tag>,
      mode: C.Mode)
    requires !enc.internal && Utf.Walks(enc, s, 0)
    ensures
      var e, s' := X.ParserEnv(env, dtd), Normalised(s);
      var r := C.Run(e, open, lvl, enc, s, C.Parser(stack, mode, 0), |s|, false);
      var r' := C.Run(e, open, lvl, enc, s', C.Parser(stack, mode, 0), |s'|, false);
      && (r.Ok? <==> r'.Ok?)
      && (r.Ok? ==> r'.events == r.events && r'.st.stack == r.st.stack && r'.st.mode == r.st.mode)
  {
    hide C.Run, Normalised, Steady, Blind, Utf.Walks, X.ParserEnv;
    WellFormedSteady(enc, s);
    ParserBlind(env, dtd, enc);
    LineEndsDoNotMatter(X.ParserEnv(env, dtd), open, lvl, enc, s, stack, mode);
  }
}
