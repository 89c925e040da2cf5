/**
  What the grammar allows is accepted: every tag, reference, comment, instruction and CDATA
  section is one token of its kind, whatever follows it; and the attributes that the
  automaton finds in a tag are the ones written there.
*/
module Accepted {
  import opened Scanner
  import opened Tokenizer
  import opened References
  import opened CharRefs
  import opened TagNames
  import opened Tokens
  import opened Grammar
  import Utf
  import T = StartTag

  // ------------------------------------------------------------------ texts in place

  /** The text stands at `i`. */
  predicate At(s: Text, i: nat, t: Text) { i + |t| <= |s| && s[i..i + |t|] == t }

  lemma AtByte(s: Text, i: nat, t: Text, k: nat)
    requires At(s, i, t) && k < |t|
    ensures i + k < |s| && s[i + k] == t[k]
  {
    assert s[i..i + |t|][k] == s[i + k];
  }

  lemma AtLength(s: Text, i: nat, t: Text)
    requires At(s, i, t)
    ensures i + |t| <= |s|
  {
  }

  lemma AtIs(s: Text, i: nat, t: Text)
    requires At(s, i, t)
    ensures i + |t| <= |s| && s[i..i + |t|] == t
  {
  }

  lemma AtNothing(s: Text, i: nat)
    requires i <= |s|
    ensures At(s, i, [])
  {
  }

  lemma AtFrom(s: Text, i: nat, t: Text, k: nat)
    requires At(s, i, t) && k <= |t|
    ensures At(s, i, t[..k]) && At(s, i + k, t[k..])
  {
    assert s[i..i + k] == s[i..i + |t|][..k];
    assert s[i + k..i + |t|] == s[i..i + |t|][k..];
  }

  lemma AtParts(s: Text, i: nat, a: Text, b: Text)
    requires At(s, i, a + b)
    ensures At(s, i, a) && At(s, i + |a|, b)
  {
    AtFrom(s, i, a + b, |a|);
    assert (a + b)[..|a|] == a && (a + b)[|a|..] == b;
  }

  lemma AtJoin(s: Text, i: nat, a: Text, b: Text)
    requires At(s, i, a) && At(s, i + |a|, b)
    ensures At(s, i, a + b)
  {
    var n := i + |a|;
    assert s[i..n + |b|] == s[i..n] + s[n..n + |b|];
  }

  lemma AtOne(s: Text, i: nat, b: Byte)
    requires i < |s| && s[i] == b
    ensures At(s, i, [b])
  {
  }

  lemma AtSlice(s: Text, i: nat, n: nat)
    requires i <= n <= |s|
    ensures At(s, i, s[i..n])
  {
  }

  lemma AtThree(s: Text, i: nat, a: Text, b: Text, c: Text)
    requires At(s, i, a + b + c)
    ensures At(s, i, a) && At(s, i + |a|, b) && At(s, i + |a| + |b|, c)
  {
    hide At;
    AtParts(s, i, a + b, c);
    AtParts(s, i, a, b);
  }

  lemma AtFive(s: Text, i: nat, a: Text, b: Text, c: Text, d: Text, e: Text)
    requires At(s, i, a + b + c + d + e)
    ensures At(s, i, a) && At(s, i + |a|, b) && At(s, i + |a| + |b|, c) && At(s, i + |a| + |b| + |c|, d)
    ensures At(s, i + |a| + |b| + |c| + |d|, e)
  {
    hide At;
    AtThree(s, i, a + b + c, d, e);
    AtThree(s, i, a, b, c);
  }

  // ---------------------------------------------------------------- the automaton on its way

  /** A move that begins no attribute, no value, and ends none. */
  predicate Quiet(st: State, next: State)
  {
    next != InAtt(AttEnd) && !T.NameBegins(st, next) && !T.ValueBegins(st, next)
  }

  /** From `st` at `i` the automaton gets to `st'` at `n`, quietly. */
  ghost predicate Leads(enc: Enc, st: State, s: Text, i: nat, st': State, n: nat, end: nat)
    requires end <= |s|
    decreases n - i
  {
    if i >= n then i == n && st == st'
    else
      && i < end && !st.Cdata?
      && var m := CharStep(st, Look(enc, s, i, end));
      m.Go? && m.n >= 1 && Quiet(st, m.st) && Leads(enc, m.st, s, i + m.n, st', n, end)
  }

  lemma LeadsNow(enc: Enc, st: State, s: Text, i: nat, end: nat)
    requires end <= |s|
    ensures Leads(enc, st, s, i, st, i, end)
  {
  }

  lemma LeadsStep(enc: Enc, st: State, s: Text, i: nat, st': State, n: nat, end: nat)
    requires i < end <= |s| && !st.Cdata? && CharStep(st, Look(enc, s, i, end)).Go?
    requires
      var m := CharStep(st, Look(enc, s, i, end));
      m.n >= 1 && Quiet(st, m.st) && Leads(enc, m.st, s, i + m.n, st', n, end)
    ensures Leads(enc, st, s, i, st', n, end)
  {
    hide CharStep, Look;
    LeadsOrder(enc, CharStep(st, Look(enc, s, i, end)).st, s, i + CharStep(st, Look(enc, s, i, end)).n, st', n, end);
  }

  lemma {:induction false} LeadsOrder(enc: Enc, st: State, s: Text, i: nat, st': State, n: nat, end: nat)
    requires end <= |s| && Leads(enc, st, s, i, st', n, end)
    ensures i <= n && (i < n ==> i < end)
  {
    hide CharStep, Look;
  }

  lemma LeadsOne(enc: Enc, st: State, s: Text, i: nat, st': State, n: nat, end: nat)
    requires i < end <= |s| && !st.Cdata? && i < n && CharStep(st, Look(enc, s, i, end)) == Go(st', n - i)
    requires Quiet(st, st')
    ensures Leads(enc, st, s, i, st', n, end)
  {
    hide CharStep, Look;
  }

  lemma {:induction false} LeadsThen(enc: Enc, a: State, s: Text, i: nat, b: State, j: nat, c: State, n: nat, end: nat)
    requires end <= |s| && Leads(enc, a, s, i, b, j, end) && Leads(enc, b, s, j, c, n, end)
    ensures Leads(enc, a, s, i, c, n, end)
    decreases j - i
  {
    hide CharStep, Look;
    if i < j {
      var m := CharStep(a, Look(enc, s, i, end));
      LeadsOrder(enc, m.st, s, i + m.n, b, j, end);
      LeadsThen(enc, m.st, s, i + m.n, b, j, c, n, end);
      LeadsStep(enc, a, s, i, c, n, end);
    }
  }

  /** What that means for the scan, and for the attributes found on the way: none. */
  lemma {:induction false} LeadsScan(enc: Enc, st: State, s: Text, i: nat, st': State, n: nat, end: nat)
    requires i <= n <= end <= |s| && Leads(enc, st, s, i, st', n, end)
    ensures Scan(enc, st, s, i, end) == Scan(enc, st', s, n, end)
    ensures forall name: nat, value: nat ::
      T.Spans(enc, st, s, i, end, name, value) == T.Spans(enc, st', s, n, end, name, value)
    decreases n - i
  {
    hide CharStep, Look, Scan, T.Spans;
    if i < n {
      ScanMove(enc, st, s, i, end);
      var m := CharStep(st, Look(enc, s, i, end));
      LeadsOrder(enc, m.st, s, i + m.n, st', n, end);
      LeadsScan(enc, m.st, s, i + m.n, st', n, end);
      forall name: nat, value: nat
        ensures T.Spans(enc, st, s, i, end, name, value) == T.Spans(enc, st', s, n, end, name, value)
      {
        T.SpansUnfold(enc, st, s, i, end, name, value);
      }
    }
  }

  // ------------------------------------------------------------------- names

  /** The states inside a name. */
  predicate Naming(st: State)
  {
    match st
    case InTag(TagName(_)) => true
    case InAtt(AttName(_)) => true
    case InEnd(EndName) => true
    case InPi(PiName(_)) => true
    case InRef(RefName, _) => true
    case _ => false
  }

  /** The state after more of the name has been read. */
  function Grown(st: State, t: Text): State
  {
    if st.InPi? && st.pi.PiName? then InPi(PiName(st.pi.target + t)) else st
  }

  lemma AsciiClass(enc: Enc, b: Byte)
    ensures NameAscii(b) <==> b < 0x80 && ByteType(enc, b) in {NMSTRT, HEX, DIGIT, NAME, MINUS}
    ensures Letter(b) || b == 0x5F <==> ByteType(enc, b) in {NMSTRT, HEX}
    ensures NameAscii(b) ==> Width(b) == 1 && LeadLen(ByteType(enc, b)) == 0
    ensures 0xC0 <= b < 0xF0 ==> LeadLen(ByteType(enc, b)) == Width(b) && 2 <= Width(b) <= 3
  {
  }

  /** A character of a name, as the scan functions see it. */
  lemma NameView(enc: Enc, s: Text, i: nat, t: Text, end: nat)
    requires t != [] && (NameAscii(t[0]) || Beyond(enc.name, t)) && Width(t[0]) <= |t|
    requires At(s, i, t) && i + |t| <= end <= |s|
    ensures
      var v := Look(enc, s, i, end);
      && v.name == Fits(Width(t[0])) && v.raw == t[..Width(t[0])]
      && v.c !in {COLON, SOL, GT, EQUALS, QUEST, SEMI, S, CR, LF, NUM, EXCL}
  {
    hide ByteType, At;
    AtByte(s, i, t, 0);
    AsciiClass(enc, s[i]);
    AtFrom(s, i, t, Width(t[0]));
    assert s[i..i + Width(t[0])] == t[..Width(t[0])];
    LeadNames(ByteType(enc, s[i]));
    hide InvalidChar;
  }

  lemma LeadNames(c: ByteClass)
    ensures LeadLen(c) > 0 ==> c !in {COLON, SOL, GT, EQUALS, QUEST, SEMI, S, CR, LF, NUM, EXCL}
    ensures c in {NMSTRT, HEX, DIGIT, NAME, MINUS} ==> c !in {COLON, SOL, GT, EQUALS, QUEST, SEMI, S, CR, LF, NUM, EXCL}
  {
  }

  /** And a character that a name begins with. */
  lemma StartView(enc: Enc, s: Text, i: nat, t: Text, end: nat)
    requires Starts(enc, t) && At(s, i, t) && i + |t| <= end <= |s|
    ensures
      var v := Look(enc, s, i, end);
      && v.nmstrt == Fits(Width(t[0])) && v.raw == t[..Width(t[0])]
      && v.c !in {COLON, SOL, GT, EQUALS, QUEST, SEMI, S, CR, LF, NUM, EXCL}
  {
    hide ByteType, At;
    AtByte(s, i, t, 0);
    AsciiClass(enc, s[i]);
    AtFrom(s, i, t, Width(t[0]));
    assert s[i..i + Width(t[0])] == t[..Width(t[0])];
    LeadNames(ByteType(enc, s[i]));
    hide InvalidChar;
  }

  lemma NameGoesOn(st: State, v: View, n: nat)
    requires Naming(st) && v.name == Fits(n) && v.c !in {COLON, SOL, GT, EQUALS, QUEST, SEMI, S, CR, LF, NUM, EXCL}
    ensures CharStep(st, v) == Go(Grown(st, v.raw), n) && Quiet(st, Grown(st, v.raw)) && Naming(Grown(st, v.raw))
  {
    hide CheckPiTarget;
  }

  lemma GrownMore(st: State, a: Text, b: Text)
    ensures Grown(Grown(st, a), b) == Grown(st, a + b)
    ensures Grown(st, []) == st
  {
    if st.InPi? && st.pi.PiName? {
      assert st.pi.target + a + b == st.pi.target + (a + b) && st.pi.target + [] == st.pi.target;
    }
  }

  lemma {:induction false} NameLeads(enc: Enc, st: State, s: Text, i: nat, t: Text, end: nat)
    requires Naming(st) && NameRest(enc, t) && At(s, i, t) && i + |t| <= end <= |s|
    ensures Leads(enc, st, s, i, Grown(st, t), i + |t|, end) && Naming(Grown(st, t))
    decreases |t|
  {
    hide CharStep, Look, Leads, At;
    GrownMore(st, [], []);
    if t == [] {
      LeadsNow(enc, st, s, i, end);
    } else {
      var w := Width(t[0]);
      NameView(enc, s, i, t, end);
      NameGoesOn(st, Look(enc, s, i, end), w);
      AtFrom(s, i, t, w);
      NameLeads(enc, Grown(st, t[..w]), s, i + w, t[w..], end);
      GrownMore(st, t[..w], t[w..]);
      assert t[..w] + t[w..] == t;
      LeadsStep(enc, st, s, i, Grown(st, t), i + |t|, end);
    }
  }

  /** The states in which a name may begin, and where its first character leads. */
  predicate Starting(st: State)
  {
    match st
    case Lt => true
    case InEnd(EndStart) => true
    case InTag(TagSpace) => true
    case InTag(TagColon) => true
    case InAtt(AttBetween) => true
    case InAtt(AttColon) => true
    case InPi(PiStart) => true
    case InRef(RefStart, _) => true
    case _ => false
  }

  function Started(st: State, raw: Text): State
    requires Starting(st)
  {
    match st
    case Lt => InTag(TagName(false))
    case InEnd(_) => InEnd(EndName)
    case InTag(TagColon) => InTag(TagName(true))
    case InTag(_) => InAtt(AttName(false))
    case InAtt(AttColon) => InAtt(AttName(true))
    case InAtt(_) => InAtt(AttName(false))
    case InPi(_) => InPi(PiName(raw))
    case InRef(_, ctx) => InRef(Scanner.RefName, ctx)
  }

  lemma NameStarts(st: State, v: View, n: nat)
    requires Starting(st) && v.nmstrt == Fits(n)
    requires v.c !in {COLON, SOL, GT, EQUALS, QUEST, SEMI, S, CR, LF, NUM, EXCL}
    ensures CharStep(st, v) == Go(Started(st, v.raw), n) && Naming(Started(st, v.raw))
    ensures Quiet(st, Started(st, v.raw)) <==> st != InTag(TagSpace) && st != InAtt(AttBetween)
  {
  }

  lemma WidthPositive(b: Byte)
    ensures 1 <= Width(b) <= 4
  {
  }

  /** A whole name without a colon: its first step, and the way to its end. */
  lemma NcNameLeads(enc: Enc, st: State, s: Text, i: nat, t: Text, end: nat)
    requires Starting(st) && NcName(enc, t) && At(s, i, t) && i + |t| <= end <= |s|
    ensures
      var w := Width(t[0]);
      && 1 <= w <= |t| && CharStep(st, Look(enc, s, i, end)) == Go(Started(st, t[..w]), w) && !st.Cdata?
      && Leads(enc, Started(st, t[..w]), s, i + w, Grown(Started(st, t[..w]), t[w..]), i + |t|, end)
      && Naming(Grown(Started(st, t[..w]), t[w..]))
      && (Quiet(st, Started(st, t[..w])) <==> st != InTag(TagSpace) && st != InAtt(AttBetween))
  {
    hide Leads, Look, CharStep, Beyond, Quiet, Started, Grown, NameRest, Naming, Letter, Written, At;
    WidthPositive(t[0]);
    var w := Width(t[0]);
    StartView(enc, s, i, t, end);
    NameStarts(st, Look(enc, s, i, end), w);
    AtFrom(s, i, t, w);
    NameLeads(enc, Started(st, t[..w]), s, i + w, t[w..], end);
  }

  // ------------------------------------------------------------------ blanks

  lemma LookIs(enc: Enc, s: Text, i: nat, end: nat)
    requires i < end <= |s|
    ensures Look(enc, s, i, end).c == ByteType(enc, s[i]) && Look(enc, s, i, end).b == s[i]
  {
  }

  /** The states that a blank leaves or keeps. */
  predicate Spacing(st: State)
  {
    match st
    case InTag(TagName(_)) => true
    case InTag(TagSpace) => true
    case InAtt(p) => !p.AttColon? && !p.AttValue?
    case InEnd(p) => !p.EndStart?
    case _ => false
  }

  function Spaced(st: State): State
    requires Spacing(st)
  {
    match st
    case InTag(_) => InTag(TagSpace)
    case InAtt(AttName(_)) => InAtt(AttSpace)
    case InAtt(AttEnd) => InAtt(AttBetween)
    case InAtt(_) => st
    case InEnd(_) => InEnd(EndSpace)
  }

  lemma BlankGoes(st: State, v: View)
    requires Spacing(st) && IsSpace(v.c)
    ensures CharStep(st, v) == Go(Spaced(st), 1) && Spacing(Spaced(st)) && Spaced(Spaced(st)) == Spaced(st)
    ensures Quiet(st, Spaced(st))
  {
  }

  lemma SpacingPlace(st: State)
    requires Spacing(st)
    ensures !st.Cdata?
  {
  }

  function AfterBlanks(st: State, t: Text): State
    requires Spacing(st)
  {
    if t == [] then st else Spaced(st)
  }

  lemma {:induction false} BlanksLead(enc: Enc, st: State, s: Text, i: nat, t: Text, end: nat)
    requires Spacing(st) && Blanks(t) && At(s, i, t) && i + |t| <= end <= |s|
    ensures Leads(enc, st, s, i, AfterBlanks(st, t), i + |t|, end)
    decreases |t|
  {
    hide CharStep, ByteType, Leads, At, Look, Spaced, Spacing, Quiet, Blank;
    SpacingPlace(st);
    if t == [] {
      LeadsNow(enc, st, s, i, end);
    } else {
      AtByte(s, i, t, 0);
      AtFrom(s, i, t, 1);
      ClassBytes(enc, s[i]);
      LookIs(enc, s, i, end);
      BlankGoes(st, Look(enc, s, i, end));
      BlanksLead(enc, Spaced(st), s, i + 1, t[1..], end);
      LeadsStep(enc, st, s, i, AfterBlanks(st, t), i + |t|, end);
    }
  }

  // -------------------------------------------------------------- characters

  /** How many bytes a character has, and the first of them. */
  function Len(c: int): nat { |Utf8Encode(c)| }

  lemma AsciiChar(enc: Enc, c: int)
    requires Utf.XmlChar(c)
    ensures 1 <= Len(c) <= 4 && (Len(c) == 1 <==> c < 0x80) && (c < 0x80 ==> Utf8Encode(c) == [c])
    ensures c < 0x80 ==> ByteType(enc, c) !in {NONXML, MALFORM, TRAIL} && LeadLen(ByteType(enc, c)) == 0
    ensures c < 0x80 ==> (ByteType(enc, c) == QUOT <==> c == 0x22) && (ByteType(enc, c) == APOS <==> c == 0x27)
    ensures c < 0x80 ==> (ByteType(enc, c) == AMP <==> c == 0x26) && (ByteType(enc, c) == LT <==> c == 0x3C)
    ensures c < 0x80 ==> (ByteType(enc, c) == MINUS <==> c == 0x2D) && (ByteType(enc, c) == QUEST <==> c == 0x3F)
    ensures c < 0x80 ==> (ByteType(enc, c) == RSQB <==> c == 0x5D)
    ensures c < 0x80 ==> (ByteType(enc, c) == LF <==> c == 0xA)
    ensures c < 0x80 ==> (ByteType(enc, c) == CR <==> c == 0xD && !enc.internal)
    ensures c < 0x80 ==> (IsSpace(ByteType(enc, c)) <==> Blank(c))
  {
  }

  lemma LongChar(enc: Enc, c: int)
    requires Utf.XmlChar(c) && Len(c) > 1
    ensures
      var t := Utf8Encode(c);
      t[0] >= 0xC0 && LeadLen(ByteType(enc, t[0])) == |t| && !InvalidChar(t, 0, |t|)
  {
    hide Invalid2, Invalid3, Invalid4;
    Utf.Complete2(c);
    Utf.Complete3(c);
    Utf.Complete4(c);
  }

  lemma InvalidAt(s: Text, i: nat, t: Text)
    requires At(s, i, t) && 2 <= |t| <= 4
    ensures InvalidChar(s, i, |t|) == InvalidChar(t, 0, |t|)
  {
    hide Invalid2, Invalid3, Invalid4, At;
    AtByte(s, i, t, 0);
    AtByte(s, i, t, 1);
    if |t| > 2 { AtByte(s, i, t, 2); }
    if |t| > 3 { AtByte(s, i, t, 3); }
  }

  /** A character as the scan functions see it. */
  lemma CharView(enc: Enc, s: Text, i: nat, c: int, end: nat)
    requires Utf.XmlChar(c) && At(s, i, Utf8Encode(c)) && i + Len(c) <= end <= |s|
    ensures i < end && 1 <= Len(c) && s[i] == Utf8Encode(c)[0]
    ensures
      var t := TestChar(enc, DataChar, s, i, end);
      && Look(enc, s, i, end).data == t && Look(enc, s, i, end).c == ByteType(enc, s[i]) &&
        Look(enc, s, i, end).b == s[i]
      && (if c < 0x80 then t == NotCovered && s[i] == c else t == Fits(Len(c)) && LeadLen(ByteType(enc, s[i])) > 0)
  {
    hide ByteType, InvalidChar, At;
    AsciiChar(enc, c);
    AtByte(s, i, Utf8Encode(c), 0);
    if c >= 0x80 {
      LongChar(enc, c);
      InvalidAt(s, i, Utf8Encode(c));
    }
  }

  // ------------------------------------------------------------- references

  lemma DigitView(enc: Enc, s: Text, i: nat, d: nat, end: nat)
    requires i < end <= |s| && Writes(s[i], d)
    ensures Look(enc, s, i, end).c in {DIGIT, HEX} && (d < 10 ==> Look(enc, s, i, end).c == DIGIT)
    ensures Look(enc, s, i, end).b == s[i] && s[i] != X_CHAR
  {
    ClassOf(enc, s[i], d);
    NoX(s[i], d);
  }

  function DigitState(hex: bool, ctx: Quote): State { InRef(if hex then CharRefHex else CharRefDec, ctx) }

  lemma {:induction false} DigitsLead(enc: Enc, hex: bool, ctx: Quote, s: Text, i: nat, t: Text, ds: seq<nat>, end: nat)
    requires At(s, i, t) && Written(t, ds, Radix(hex)) && i + |t| <= end <= |s|
    ensures Leads(enc, DigitState(hex, ctx), s, i, DigitState(hex, ctx), i + |t|, end)
    decreases |t|
  {
    hide Look, Leads, Writes, At;
    var st := DigitState(hex, ctx);
    if t == [] {
      LeadsNow(enc, st, s, i, end);
    } else {
      AtByte(s, i, t, 0);
      AtFrom(s, i, t, 1);
      DigitView(enc, s, i, ds[0], end);
      DigitsLead(enc, hex, ctx, s, i + 1, t[1..], ds[1..], end);
      LeadsStep(enc, st, s, i, st, i + |t|, end);
    }
  }

  /** The state before the semicolon of a reference. */
  function BeforeSemi(item: Item, ctx: Quote): State
  {
    if item.ByNumber? then DigitState(item.hex, ctx) else InRef(Scanner.RefName, ctx)
  }

  function RefToken(item: Item): Token { if item.ByNumber? then CharRef else EntityRef }

  /** The digits, from the state in which the first is wanted. */
  lemma NumeralLeads(enc: Enc, hex: bool, ctx: Quote, s: Text, i: nat, t: Text, ds: seq<nat>, end: nat)
    requires At(s, i, t) && ds != [] && Written(t, ds, Radix(hex)) && i + |t| <= end <= |s|
    ensures Leads(enc, InRef(if hex then CharRefHex0 else CharRefStart, ctx), s, i, DigitState(hex, ctx), i + |t|, end)
  {
    hide Look, Leads, Writes, Written, At;
    FirstDigit(t, ds, Radix(hex));
    AtByte(s, i, t, 0);
    AtFrom(s, i, t, 1);
    DigitView(enc, s, i, ds[0], end);
    DigitsLead(enc, hex, ctx, s, i + 1, t[1..], ds[1..], end);
    LeadsStep(enc, InRef(if hex then CharRefHex0 else CharRefStart, ctx), s, i, DigitState(hex, ctx), i + |t|, end);
  }

  lemma NumberLeads(enc: Enc, ctx: Quote, s: Text, i: nat, item: Item, end: nat)
    requires item.ByNumber? && RefOk(enc, item) && At(s, i, ItemText(item)) && i + |ItemText(item)| <= end <= |s|
    ensures |ItemText(item)| >= 2
    ensures Leads(enc, InRef(RefStart, ctx), s, i + 1, BeforeSemi(item, ctx), i + |ItemText(item)| - 1, end)
  {
    hide Look, Leads, Writes, Written, At;
    var head: Text := if item.hex then [0x26, 0x23, 0x78] else [0x26, 0x23];
    AtThree(s, i, head, item.digits, [0x3B]);
    var n, last := i + |head|, i + |head| + |item.digits|;
    NumeralLeads(enc, item.hex, ctx, s, n, item.digits, item.ds, end);
    AtByte(s, i, head, 1);
    if item.hex { AtByte(s, i, head, 2); }
    HeadLeads(enc, item.hex, ctx, s, i + 1, BeforeSemi(item, ctx), last, end);
  }

  /** From the number sign to the state in which the first digit is wanted. */
  lemma HeadLeads(enc: Enc, hex: bool, ctx: Quote, s: Text, i: nat, st: State, last: nat, end: nat)
    requires i + 1 < end <= |s| && s[i] == 0x23 && (hex ==> s[i + 1] == X_CHAR)
    requires Leads(enc, InRef(if hex then CharRefHex0 else CharRefStart, ctx), s, if hex then i + 2
      else i + 1, st, last, end)
    ensures Leads(enc, InRef(RefStart, ctx), s, i, st, last, end)
  {
    hide Look, Leads;
    HashView(enc, s, i, end);
    if hex {
      HashView(enc, s, i + 1, end);
      LeadsStep(enc, InRef(CharRefStart, ctx), s, i + 1, st, last, end);
    }
    LeadsStep(enc, InRef(RefStart, ctx), s, i, st, last, end);
  }

  lemma FirstDigit(t: Text, ds: seq<nat>, radix: nat)
    requires ds != [] && Written(t, ds, radix)
    ensures t != [] && Writes(t[0], ds[0]) && Written(t[1..], ds[1..], radix) && ds[0] < radix
  {
    hide Writes;
  }

  lemma HashView(enc: Enc, s: Text, i: nat, end: nat)
    requires i < end <= |s|
    ensures Look(enc, s, i, end).b == s[i] && (s[i] == 0x23 ==> Look(enc, s, i, end).c == NUM)
    ensures s[i] == 0x3B ==> Look(enc, s, i, end).c == SEMI
    ensures s[i] == 0x26 ==> Look(enc, s, i, end).c == AMP
  {
    hide TestChar;
  }

  lemma EntityLeads(enc: Enc, ctx: Quote, s: Text, i: nat, item: Item, end: nat)
    requires item.ByName? && RefOk(enc, item) && At(s, i, ItemText(item)) && i + |ItemText(item)| <= end <= |s|
    ensures |ItemText(item)| >= 2
    ensures Leads(enc, InRef(RefStart, ctx), s, i + 1, BeforeSemi(item, ctx), i + |ItemText(item)| - 1, end)
  {
    hide Look, Leads, Beyond, CharStep, NameRest, Starts, Quiet, At;
    AtThree(s, i, [0x26], item.name, [0x3B]);
    NcNameLeads(enc, InRef(RefStart, ctx), s, i + 1, item.name, end);
    LeadsStep(enc, InRef(RefStart, ctx), s, i + 1, InRef(Scanner.RefName, ctx), i + 1 + |item.name|, end);
  }

  lemma RefLeads(enc: Enc, ctx: Quote, s: Text, i: nat, item: Item, end: nat)
    requires RefOk(enc, item) && At(s, i, ItemText(item)) && i + |ItemText(item)| <= end <= |s|
    ensures |ItemText(item)| >= 3
    ensures
      var n := i + |ItemText(item)|;
      && s[i] == 0x26 && s[n - 1] == 0x3B
      && Leads(enc, InRef(RefStart, ctx), s, i + 1, BeforeSemi(item, ctx), n - 1, end)
      && CharStep(BeforeSemi(item, ctx), Look(enc, s, n - 1, end)) == RefDone(ctx, RefToken(item))
  {
    hide Leads, Look, Writes, Beyond, At;
    if item.ByNumber? {
      NumberLeads(enc, ctx, s, i, item, end);
    } else {
      EntityLeads(enc, ctx, s, i, item, end);
    }
    AtByte(s, i, ItemText(item), 0);
    AtByte(s, i, ItemText(item), |ItemText(item)| - 1);
    HashView(enc, s, i + |ItemText(item)| - 1, end);
  }

  lemma RefScan(enc: Enc, s: Text, i: nat, item: Item, end: nat)
    requires RefOk(enc, item) && At(s, i, ItemText(item)) && i + |ItemText(item)| <= end <= |s|
    ensures i < end && s[i] == 0x26
    ensures Scan(enc, InRef(RefStart, NoQuote), s, i + 1, end) == Tok(RefToken(item), i + |ItemText(item)|)
  {
    hide Leads, Look, RefOk, ItemText, CharStep, Scan, At;
    RefLeads(enc, NoQuote, s, i, item, end);
    var n := i + |ItemText(item)|;
    LeadsScan(enc, InRef(RefStart, NoQuote), s, i + 1, BeforeSemi(item, NoQuote), n - 1, end);
    ScanMove(enc, BeforeSemi(item, NoQuote), s, n - 1, end);
  }

  /** A reference in content is a token. */
  lemma RefFound(enc: Enc, s: Text, i: nat, item: Item, end: nat)
    requires RefOk(enc, item) && At(s, i, ItemText(item)) && i + |ItemText(item)| <= end <= |s|
    ensures i < end && ContentTok(enc, s, i, end) == Tok(RefToken(item), i + |ItemText(item)|)
  {
    hide RefOk, ItemText, Scan, ByteType, TestChar, At;
    RefScan(enc, s, i, item, end);
    LastClass(enc, s[i]);
  }

  // -------------------------------------------------------------- attribute values

  function QuoteClass(quote: Byte): ByteClass { if quote == 0x22 then QUOT else APOS }

  lemma ItemLeads(enc: Enc, quote: Byte, s: Text, i: nat, item: Item, end: nat)
    requires ItemOk(enc, quote, item) && At(s, i, ItemText(item)) && i + |ItemText(item)| <= end <= |s|
    requires quote == 0x22 || quote == 0x27
    ensures
      var st := InAtt(AttValue(QuoteClass(quote)));
      Leads(enc, st, s, i, st, i + |ItemText(item)|, end)
  {
    hide Leads, Look, ByteType, Utf8Encode, RefOk, At;
    var q := QuoteClass(quote);
    var st := InAtt(AttValue(q));
    if item.Plain? {
      CharView(enc, s, i, item.c, end);
      AsciiChar(enc, item.c);
      LeadsOne(enc, st, s, i, st, i + Len(item.c), end);
    } else {
      RefLeads(enc, Quote(q), s, i, item, end);
      var n := i + |ItemText(item)|;
      HashView(enc, s, i, end);
      LeadsOne(enc, BeforeSemi(item, Quote(q)), s, n - 1, st, n, end);
      LeadsThen(enc, InRef(RefStart, Quote(q)), s, i + 1, BeforeSemi(item, Quote(q)), n - 1, st, n, end);
      LeadsStep(enc, st, s, i, st, n, end);
    }
  }

  lemma {:induction false} ItemsLead(enc: Enc, quote: Byte, s: Text, i: nat, items: seq<Item>, end: nat)
    requires ItemsOk(enc, quote, items) && At(s, i, ItemsText(items)) && i + |ItemsText(items)| <= end <= |s|
    requires quote == 0x22 || quote == 0x27
    ensures
      var st := InAtt(AttValue(QuoteClass(quote)));
      Leads(enc, st, s, i, st, i + |ItemsText(items)|, end)
    decreases |items|
  {
    hide Leads, ItemOk, ItemText, At;
    var st := InAtt(AttValue(QuoteClass(quote)));
    if items == [] {
      LeadsNow(enc, st, s, i, end);
    } else {
      var n := i + |ItemText(items[0])|;
      AtParts(s, i, ItemText(items[0]), ItemsText(items[1..]));
      ItemLeads(enc, quote, s, i, items[0], end);
      ItemsLead(enc, quote, s, n, items[1..], end);
      LeadsThen(enc, st, s, i, st, n, st, i + |ItemsText(items)|, end);
    }
  }

  // -------------------------------------------------------------------- tags

  /** Where a name with or without a colon leads. */
  function NameState(st: State, colon: bool): State
    requires st == Lt || st == InTag(TagSpace) || st == InAtt(AttBetween)
  {
    if st == Lt then InTag(TagName(colon)) else InAtt(AttName(colon))
  }

  lemma ColonView(enc: Enc, s: Text, i: nat, end: nat)
    requires i < end <= |s| && s[i] == COLON_BYTE
    ensures Look(enc, s, i, end).c == COLON
  {
    hide TestChar;
  }

  /** The state after the colon. */
  function Colon(st: State): State
  {
    if st.InTag? then InTag(TagColon) else InAtt(AttColon)
  }

  lemma ColonGoes(st: State, v: View)
    requires st == InTag(TagName(false)) || st == InAtt(AttName(false))
    requires v.c == COLON
    ensures CharStep(st, v) == Go(Colon(st), 1) && Quiet(st, Colon(st)) && !Colon(st).Cdata?
  {
  }

  /** The local part, from the state after the colon. */
  lemma LocalLeads(enc: Enc, st: State, s: Text, i: nat, t: Text, end: nat)
    requires st == InTag(TagColon) || st == InAtt(AttColon)
    requires NcName(enc, t) && At(s, i, t) && i + |t| <= end <= |s|
    ensures Leads(enc, st, s, i, if st == InTag(TagColon) then InTag(TagName(true))
      else InAtt(AttName(true)), i + |t|, end)
  {
    hide Leads, Look, CharStep, NameRest, Starts, At;
    NcNameLeads(enc, st, s, i, t, end);
    var w := Width(t[0]);
    LeadsStep(enc, st, s, i, Grown(Started(st, t[..w]), t[w..]), i + |t|, end);
  }

  /** From behind a prefix, over the colon, to the end of the name. */
  lemma PrefixLeads(enc: Enc, st: State, s: Text, c: nat, local: Text, end: nat)
    requires st == Lt || st == InTag(TagSpace) || st == InAtt(AttBetween)
    requires NcName(enc, local) && At(s, c, [COLON_BYTE]) && At(s, c + 1, local) && c + 1 + |local| <= end <= |s|
    ensures Leads(enc, NameState(st, false), s, c, NameState(st, true), c + 1 + |local|, end)
  {
    hide Leads, Look, CharStep, NcName, At;
    var named := NameState(st, false);
    AtByte(s, c, [COLON_BYTE], 0);
    ColonView(enc, s, c, end);
    ColonGoes(named, Look(enc, s, c, end));
    LocalLeads(enc, Colon(named), s, c + 1, local, end);
    LeadsStep(enc, named, s, c, NameState(st, true), c + 1 + |local|, end);
  }

  /** A name in a tag: its first step, and the way to its end. */
  lemma QNameLeads(enc: Enc, st: State, s: Text, i: nat, q: QName, end: nat)
    requires st == Lt || st == InTag(TagSpace) || st == InAtt(AttBetween)
    requires NameOk(enc, q) && At(s, i, NameText(q)) && i + |NameText(q)| <= end <= |s|
    ensures
      var n, m := i + |NameText(q)|, CharStep(st, Look(enc, s, i, end));
      && i < n && m.Go? && m.n >= 1 && m.st == NameState(st, false)
      && Leads(enc, NameState(st, false), s, i + m.n, NameState(st, q.prefix != []), n, end)
  {
    hide Leads, Look, CharStep, NcName, At, NameState;
    if q.prefix == [] {
      PartLeads(enc, st, s, i, q.local, end);
    } else {
      AtThree(s, i, q.prefix, [COLON_BYTE], q.local);
      PartLeads(enc, st, s, i, q.prefix, end);
      var c, named := i + |q.prefix|, NameState(st, false);
      PrefixLeads(enc, st, s, c, q.local, end);
      LeadsThen(enc, named, s, i + CharStep(st, Look(enc, s, i, end)).n, named, c, NameState(st, true),
                c + 1 + |q.local|, end);
    }
  }

  /** The name or its prefix. */
  lemma PartLeads(enc: Enc, st: State, s: Text, i: nat, t: Text, end: nat)
    requires st == Lt || st == InTag(TagSpace) || st == InAtt(AttBetween)
    requires NcName(enc, t) && At(s, i, t) && i + |t| <= end <= |s|
    ensures
      var m := CharStep(st, Look(enc, s, i, end));
      && t != [] && m.Go? && m.n >= 1 && m.st == NameState(st, false)
      && Leads(enc, m.st, s, i + m.n, m.st, i + |t|, end)
  {
    hide Leads, Look, CharStep, NameRest, Starts, At;
    NcNameLeads(enc, st, s, i, t, end);
  }

  // -------------------------------------------------------------- attributes

  /** The spans of the attributes that are written from `i` on. */
  function Places(i: nat, atts: seq<Att>): seq<T.Span>
    decreases |atts|
  {
    if atts == [] then [] else [SpanOf(i, atts[0])] + Places(i + |AttText(atts[0])|, atts[1..])
  }

  function ValueStart(a: Att): nat { |a.gap| + |NameText(a.name)| + |a.before| + 1 + |a.after| + 1 }

  function SpanOf(i: nat, a: Att): T.Span
  {
    T.Span(i + |a.gap|, i + ValueStart(a), i + ValueStart(a) + |ItemsText(a.value)|)
  }

  /** The states in which an attribute may follow. */
  predicate Between(st: State)
  {
    match st
    case InTag(TagName(_)) => true
    case InAtt(AttEnd) => true
    case _ => false
  }

  /** Where the parts of an attribute stand. */
  lemma AttParts(s: Text, i: nat, a: Att)
    requires At(s, i, AttText(a))
    ensures
      var n := i + |a.gap|;
      var b := n + |NameText(a.name)|;
      var e := b + |a.before|;
      var v := i + ValueStart(a);
      var z := v + |ItemsText(a.value)|;
      && At(s, i, a.gap) && At(s, n, NameText(a.name)) && At(s, b, a.before) && e < |s| && s[e] == EQUAL
      && At(s, e + 1, a.after) && v == e + 1 + |a.after| + 1 && v <= |s| && s[v - 1] == a.quote
      && At(s, v, ItemsText(a.value)) && z < |s| && s[z] == a.quote && i + |AttText(a)| == z + 1
  {
    hide ItemsText, NameText, At;
    var t5 := a.gap + NameText(a.name) + a.before + [EQUAL] + a.after;
    AtThree(s, i, t5 + [a.quote], ItemsText(a.value), [a.quote]);
    AtParts(s, i, t5, [a.quote]);
    AtFive(s, i, a.gap, NameText(a.name), a.before, [EQUAL], a.after);
    AtByte(s, i + |a.gap| + |NameText(a.name)| + |a.before|, [EQUAL], 0);
    AtByte(s, i + |t5|, [a.quote], 0);
    AtByte(s, i + |t5| + 1 + |ItemsText(a.value)|, [a.quote], 0);
  }

  lemma MarkView(enc: Enc, s: Text, i: nat, end: nat)
    requires i < end <= |s|
    ensures Look(enc, s, i, end).b == s[i]
    ensures s[i] == EQUAL ==> Look(enc, s, i, end).c == EQUALS
    ensures s[i] == GREATER ==> Look(enc, s, i, end).c == GT
    ensures s[i] == SLASH ==> Look(enc, s, i, end).c == SOL
    ensures s[i] == 0x22 || s[i] == 0x27 ==> Look(enc, s, i, end).c == QuoteClass(s[i])
  {
    hide TestChar;
  }

  /** From the end of an attribute's name to the beginning of its value. */
  lemma EqualsLeads(enc: Enc, colon: bool, s: Text, b: nat, before: Text, after: Text, end: nat)
    requires Blanks(before) && Blanks(after) && At(s, b, before) && b + |before| < |s| && s[b + |before|] == EQUAL
    requires At(s, b + |before| + 1, after) && b + |before| + 1 + |after| <= end <= |s|
    ensures Leads(enc, InAtt(AttName(colon)), s, b, InAtt(AttEq), b + |before| + 1 + |after|, end)
  {
    hide Leads, Look, Blanks, At;
    var st, e := InAtt(AttName(colon)), b + |before|;
    BlanksLead(enc, st, s, b, before, end);
    MarkView(enc, s, e, end);
    BlanksLead(enc, InAtt(AttEq), s, e + 1, after, end);
    var mid := AfterBlanks(st, before);
    LeadsStep(enc, mid, s, e, InAtt(AttEq), e + 1 + |after|, end);
    LeadsThen(enc, st, s, b, mid, e, InAtt(AttEq), e + 1 + |after|, end);
  }

  /** A whole attribute: one span, and the automaton is at its end. */
  lemma AttFound(enc: Enc, st: State, s: Text, i: nat, a: Att, end: nat, name: nat, value: nat)
    requires Between(st) && AttOk(enc, a) && At(s, i, AttText(a)) && i + |AttText(a)| <= end <= |s|
    ensures
      var n, sp := i + |AttText(a)|, SpanOf(i, a);
      && Scan(enc, st, s, i, end) == Scan(enc, InAtt(AttEnd), s, n, end)
      && T.Spans(enc, st, s, i, end, name, value) ==
         [sp] + T.Spans(enc, InAtt(AttEnd), s, n, end, sp.name, sp.value)
  {
    hide Leads, Look, CharStep, Scan, T.Spans, ItemsText, NameText, NameOk, ItemsOk, Blanks, AttText, Quiet, At;
    AttParts(s, i, a);
    var n, sp := i + |AttText(a)|, SpanOf(i, a);
    var space := Spaced(st);
    BlanksLead(enc, st, s, i, a.gap, end);
    LeadsScan(enc, st, s, i, space, sp.name, end);
    AttBegun(enc, space, s, sp.name, a.name, end, name, value);
    var colon, b := a.name.prefix != [], sp.name + |NameText(a.name)|;
    EqualsLeads(enc, colon, s, b, a.before, a.after, end);
    LeadsScan(enc, InAtt(AttName(colon)), s, b, InAtt(AttEq), sp.value - 1, end);
    AttValued(enc, s, a.quote, a.value, sp.value, end, sp.name, value);
  }

  /** The name of an attribute begins, and the automaton gets to its end. */
  lemma AttBegun(enc: Enc, st: State, s: Text, i: nat, q: QName, end: nat, name: nat, value: nat)
    requires st == InTag(TagSpace) || st == InAtt(AttBetween)
    requires NameOk(enc, q) && At(s, i, NameText(q)) && i + |NameText(q)| <= end <= |s|
    ensures
      var n, st' := i + |NameText(q)|, InAtt(AttName(q.prefix != []));
      && Scan(enc, st, s, i, end) == Scan(enc, st', s, n, end)
      && T.Spans(enc, st, s, i, end, name, value) == T.Spans(enc, st', s, n, end, i, value)
  {
    hide Leads, Look, CharStep, Scan, T.Spans, NameText, NameOk, At;
    QNameLeads(enc, st, s, i, q, end);
    var n, m := i + |NameText(q)|, CharStep(st, Look(enc, s, i, end));
    ScanMove(enc, st, s, i, end);
    T.SpansUnfold(enc, st, s, i, end, name, value);
    LeadsOrder(enc, m.st, s, i + m.n, InAtt(AttName(q.prefix != [])), n, end);
    LeadsScan(enc, m.st, s, i + m.n, InAtt(AttName(q.prefix != [])), n, end);
  }

  /** The opening quote. */
  lemma QuoteOpens(enc: Enc, s: Text, i: nat, end: nat, name: nat, value: nat)
    requires i < end <= |s| && (s[i] == 0x22 || s[i] == 0x27)
    ensures
      var st := InAtt(AttValue(QuoteClass(s[i])));
      && Scan(enc, InAtt(AttEq), s, i, end) == Scan(enc, st, s, i + 1, end)
      && T.Spans(enc, InAtt(AttEq), s, i, end, name, value) == T.Spans(enc, st, s, i + 1, end, name, i + 1)
  {
    hide Look, Scan, T.Spans;
    MarkView(enc, s, i, end);
    ScanMove(enc, InAtt(AttEq), s, i, end);
    T.SpansUnfold(enc, InAtt(AttEq), s, i, end, name, value);
  }

  /** The closing quote. */
  lemma QuoteEnds(enc: Enc, s: Text, i: nat, end: nat, name: nat, value: nat)
    requires i < end <= |s| && (s[i] == 0x22 || s[i] == 0x27)
    ensures
      var st := InAtt(AttValue(QuoteClass(s[i])));
      && Scan(enc, st, s, i, end) == Scan(enc, InAtt(AttEnd), s, i + 1, end)
      && T.Spans(enc, st, s, i, end, name, value) ==
         [T.Span(name, value, i)] + T.Spans(enc, InAtt(AttEnd), s, i + 1, end, name, value)
  {
    hide Look, Scan, T.Spans;
    var st := InAtt(AttValue(QuoteClass(s[i])));
    MarkView(enc, s, i, end);
    ScanMove(enc, st, s, i, end);
    T.SpansUnfold(enc, st, s, i, end, name, value);
  }

  /** A quoted value: its span is what stands between the quotes. */
  lemma AttValued(enc: Enc, s: Text, quote: Byte, items: seq<Item>, v: nat, end: nat, name: nat, value: nat)
    requires quote == 0x22 || quote == 0x27
    requires v >= 1 && ItemsOk(enc, quote, items) && At(s, v, ItemsText(items)) && v + |ItemsText(items)| < end <= |s|
    requires s[v - 1] == quote && s[v + |ItemsText(items)|] == quote
    ensures
      var z := v + |ItemsText(items)|;
      && Scan(enc, InAtt(AttEq), s, v - 1, end) == Scan(enc, InAtt(AttEnd), s, z + 1, end)
      && T.Spans(enc, InAtt(AttEq), s, v - 1, end, name, value) ==
         [T.Span(name, v, z)] + T.Spans(enc, InAtt(AttEnd), s, z + 1, end, name, v)
  {
    hide Leads, Scan, T.Spans, ItemsText, ItemsOk, At, QuoteClass;
    var st, z := InAtt(AttValue(QuoteClass(quote))), v + |ItemsText(items)|;
    QuoteOpens(enc, s, v - 1, end, name, value);
    ItemsLead(enc, quote, s, v, items, end);
    LeadsScan(enc, st, s, v, st, z, end);
    QuoteEnds(enc, s, z, end, name, v);
  }

  /** All attributes of a tag. */
  lemma {:induction false} AttsFound(enc: Enc, st: State, s: Text, i: nat, atts: seq<Att>, end: nat, name: nat,
      value: nat)
    requires Between(st) && AttsOk(enc, atts) && At(s, i, AttsText(atts)) && i + |AttsText(atts)| <= end <= |s|
    ensures
      var n, st' := i + |AttsText(atts)|, if atts == [] then st else InAtt(AttEnd);
      && Scan(enc, st, s, i, end) == Scan(enc, st', s, n, end)
      && exists name': nat, value': nat ::
           T.Spans(enc, st, s, i, end, name, value) == Places(i, atts) + T.Spans(enc, st', s, n, end, name', value')
    decreases |atts|
  {
    hide Scan, T.Spans, AttText, AttOk, SpanOf, At;
    if atts == [] {
      assert T.Spans(enc, st, s, i, end, name, value) == [] + T.Spans(enc, st, s, i, end, name, value);
    } else {
      AtParts(s, i, AttText(atts[0]), AttsText(atts[1..]));
      AttFound(enc, st, s, i, atts[0], end, name, value);
      var n, sp := i + |AttText(atts[0])|, SpanOf(i, atts[0]);
      AttsFound(enc, InAtt(AttEnd), s, n, atts[1..], end, sp.name, sp.value);
      var name': nat, value': nat :| T.Spans(enc, InAtt(AttEnd), s, n, end, sp.name, sp.value) ==
        Places(n, atts[1..]) + T.Spans(enc, InAtt(AttEnd), s, i + |AttsText(atts)|, end, name', value');
      assert T.Spans(enc, st, s, i, end, name, value) ==
        Places(i, atts) + T.Spans(enc, InAtt(AttEnd), s, i + |AttsText(atts)|, end, name', value');
    }
  }

  function TagToken(p: Piece): Token
    requires p.STag?
  {
    if p.empty then EmptyElement(p.atts != []) else StartTag(p.atts != [])
  }

  /** The last byte of a tag, or the slash before it. */
  lemma LastMoves(enc: Enc, st: State, s: Text, i: nat, atts: bool, end: nat, name: nat, value: nat)
    requires if atts then st == InAtt(AttEnd) || st == InAtt(AttBetween)
             else st == InTag(TagSpace) || st == InTag(TagName(false)) || st == InTag(TagName(true))
    requires i < end <= |s|
    ensures s[i] == GREATER ==>
      Scan(enc, st, s, i, end) == Tok(StartTag(atts), i + 1) && T.Spans(enc, st, s, i, end, name, value) == []
    ensures s[i] == SLASH ==>
      && Scan(enc, st, s, i, end) == Scan(enc, InTag(TagSol(atts)), s, i + 1, end)
      && T.Spans(enc, st, s, i, end, name, value) == T.Spans(enc, InTag(TagSol(atts)), s, i + 1, end, name, value)
  {
    hide Look, Scan, T.Spans;
    MarkView(enc, s, i, end);
    ScanMove(enc, st, s, i, end);
    T.SpansUnfold(enc, st, s, i, end, name, value);
  }

  /** The end of a tag, after its blanks. */
  lemma TagCloses(enc: Enc, st: State, s: Text, i: nat, empty: bool, atts: bool, end: nat, name: nat, value: nat)
    requires if atts then st == InAtt(AttEnd) || st == InAtt(AttBetween)
             else st == InTag(TagSpace) || st == InTag(TagName(false)) || st == InTag(TagName(true))
    requires At(s, i, if empty then [SLASH, GREATER] else [GREATER]) && i + (if empty then 2 else 1) <= end <= |s|
    ensures
      && Scan(enc, st, s, i, end) ==
         Tok(if empty then EmptyElement(atts) else StartTag(atts), i + if empty then 2 else 1)
      && T.Spans(enc, st, s, i, end, name, value) == []
  {
    hide Look, Scan, T.Spans, At;
    AtByte(s, i, if empty then [SLASH, GREATER] else [GREATER], 0);
    LastMoves(enc, st, s, i, atts, end, name, value);
    if empty {
      AtByte(s, i, [SLASH, GREATER], 1);
      var sol := InTag(TagSol(atts));
      MarkView(enc, s, i + 1, end);
      ScanMove(enc, sol, s, i + 1, end);
      T.SpansUnfold(enc, sol, s, i + 1, end, name, value);
    }
  }

  lemma TagParts(s: Text, i: nat, p: Piece)
    requires p.STag? && At(s, i, PieceText(p))
    ensures
      var n := i + 1 + |NameText(p.name)|;
      var g := n + |AttsText(p.atts)|;
      var z := g + |p.gap|;
      && i < |s| && s[i] == 0x3C && At(s, i + 1, NameText(p.name)) && At(s, n, AttsText(p.atts)) && At(s, g, p.gap)
      && At(s, z, if p.empty then [SLASH, GREATER] else [GREATER])
      && i + |PieceText(p)| == z + if p.empty then 2 else 1
  {
    hide NameText, AttsText, At;
    var head: Text, last := [0x3C], if p.empty then [SLASH, GREATER] else [GREATER];
    AtFive(s, i, head, NameText(p.name), AttsText(p.atts), p.gap, last);
    AtByte(s, i, head, 0);
  }

  /** A tag of the grammar is a token, and its attributes are found where they are written. */
  lemma TagFound(enc: Enc, s: Text, i: nat, p: Piece, end: nat)
    requires p.STag? && PieceOk(enc, p) && At(s, i, PieceText(p)) && i + |PieceText(p)| <= end <= |s|
    ensures i < end && ContentTok(enc, s, i, end) == Tok(TagToken(p), i + |PieceText(p)|)
    ensures T.Spans(enc, Lt, s, i + 1, end, 0, 0) == Places(i + 1 + |NameText(p.name)|, p.atts)
  {
    hide Leads, Look, CharStep, Scan, T.Spans, NameText, AttsText, NameOk, AttsOk, Blanks, PieceText, Places, At;
    TagParts(s, i, p);
    var n := i + 1 + |NameText(p.name)|;
    var g := n + |AttsText(p.atts)|;
    var z, named := g + |p.gap|, InTag(TagName(p.name.prefix != []));
    ElementNamed(enc, s, i + 1, p.name, end);
    AttsFound(enc, named, s, n, p.atts, end, 0, 0);
    var st := if p.atts == [] then named else InAtt(AttEnd);
    var name': nat, value': nat :| T.Spans(enc, named, s, n, end, 0, 0) ==
      Places(n, p.atts) + T.Spans(enc, st, s, g, end, name', value');
    BlanksLead(enc, st, s, g, p.gap, end);
    LeadsScan(enc, st, s, g, AfterBlanks(st, p.gap), z, end);
    TagCloses(enc, AfterBlanks(st, p.gap), s, z, p.empty, p.atts != [], end, name', value');
    LtFirst(enc, s, i, end);
  }

  /** The name of the element. */
  lemma ElementNamed(enc: Enc, s: Text, i: nat, q: QName, end: nat)
    requires NameOk(enc, q) && At(s, i, NameText(q)) && i + |NameText(q)| <= end <= |s|
    ensures
      var n, st := i + |NameText(q)|, InTag(TagName(q.prefix != []));
      && Scan(enc, Lt, s, i, end) == Scan(enc, st, s, n, end)
      && T.Spans(enc, Lt, s, i, end, 0, 0) == T.Spans(enc, st, s, n, end, 0, 0)
  {
    hide Leads, Look, CharStep, Scan, T.Spans, NameText, NameOk, At;
    QNameLeads(enc, Lt, s, i, q, end);
    var n, m := i + |NameText(q)|, CharStep(Lt, Look(enc, s, i, end));
    ScanMove(enc, Lt, s, i, end);
    T.SpansUnfold(enc, Lt, s, i, end, 0, 0);
    LeadsOrder(enc, m.st, s, i + m.n, InTag(TagName(q.prefix != [])), n, end);
    LeadsScan(enc, m.st, s, i + m.n, InTag(TagName(q.prefix != [])), n, end);
  }

  /** Markup is what the automaton makes of it. */
  lemma LtFirst(enc: Enc, s: Text, i: nat, end: nat)
    requires i < end <= |s| && s[i] == 0x3C
    ensures ContentTok(enc, s, i, end) == Scan(enc, Lt, s, i + 1, end)
  {
    hide Scan, TestChar, DataTail;
    LastClass(enc, s[i]);
  }

  /** The characters of a name in an end tag. */
  lemma {:induction false} EndNameLeads(enc: Enc, s: Text, i: nat, t: Text, end: nat)
    requires EndRest(enc, t) && At(s, i, t) && i + |t| <= end <= |s|
    ensures Leads(enc, InEnd(EndName), s, i, InEnd(EndName), i + |t|, end)
    decreases |t|
  {
    hide CharStep, Look, Leads, Beyond, At;
    var st := InEnd(EndName);
    if t == [] {
      LeadsNow(enc, st, s, i, end);
    } else {
      var w := Width(t[0]);
      WidthPositive(t[0]);
      AtByte(s, i, t, 0);
      AtFrom(s, i, t, w);
      if t[0] == COLON_BYTE {
        ColonView(enc, s, i, end);
        EndColon(Look(enc, s, i, end));
      } else {
        NameView(enc, s, i, t, end);
        NameGoesOn(st, Look(enc, s, i, end), w);
      }
      EndNameLeads(enc, s, i + w, t[w..], end);
      LeadsStep(enc, st, s, i, st, i + |t|, end);
    }
  }

  lemma EndColon(v: View)
    requires v.c == COLON
    ensures CharStep(InEnd(EndName), v) == Go(InEnd(EndName), 1)
    ensures Quiet(InEnd(EndName), InEnd(EndName))
  {
  }

  /** From the beginning of the name of an end tag to its end. */
  lemma EndNamed(enc: Enc, s: Text, i: nat, t: Text, end: nat)
    requires ClosingName(enc, t) && At(s, i, t) && i + |t| <= end <= |s|
    ensures Scan(enc, InEnd(EndStart), s, i, end) == Scan(enc, InEnd(EndName), s, i + |t|, end)
  {
    hide Leads, Look, CharStep, EndRest, Beyond, Scan, At, Width, Letter, Quiet, Naming;
    var start, w := InEnd(EndStart), Width(t[0]);
    WidthPositive(t[0]);
    AtLength(s, i, t);
    StartView(enc, s, i, t, end);
    NameStarts(start, Look(enc, s, i, end), w);
    ScanMove(enc, start, s, i, end);
    AtFrom(s, i, t, w);
    EndNameLeads(enc, s, i + w, t[w..], end);
    LeadsScan(enc, InEnd(EndName), s, i + w, InEnd(EndName), i + |t|, end);
  }

  lemma EndTextParts(s: Text, i: nat, name: Text, gap: Text)
    requires At(s, i, [0x3C, SLASH] + name + gap + [GREATER])
    ensures
      var n, z := i + 2 + |name|, i + 2 + |name| + |gap|;
      && z < |s| && s[i] == 0x3C && s[i + 1] == SLASH && s[z] == GREATER && At(s, i + 2, name) && At(s, n, gap)
  {
    hide At;
    var head, last: Text := [0x3C, SLASH], [GREATER];
    AtThree(s, i, head + name, gap, last);
    AtParts(s, i, head, name);
    AtByte(s, i, head, 0);
    AtByte(s, i, head, 1);
    AtByte(s, i + 2 + |name| + |gap|, last, 0);
  }

  /** Where the parts of an end tag stand. */
  lemma EndParts(s: Text, i: nat, p: Piece)
    requires p.ETag? && At(s, i, PieceText(p))
    ensures
      var n, z := i + 2 + |p.ename|, i + |PieceText(p)| - 1;
      && i + 2 <= z < |s| && s[i] == 0x3C && s[i + 1] == SLASH && s[z] == GREATER
      && At(s, i + 2, p.ename) && At(s, n, p.egap) && n + |p.egap| == z
  {
    hide At;
    EndTextParts(s, i, p.ename, p.egap);
  }

  /** An end tag of the grammar is a token. */
  lemma EndFound(enc: Enc, s: Text, i: nat, p: Piece, end: nat)
    requires p.ETag? && PieceOk(enc, p) && At(s, i, PieceText(p)) && i + |PieceText(p)| <= end <= |s|
    ensures i < end && ContentTok(enc, s, i, end) == Tok(EndTag, i + |PieceText(p)|)
  {
    hide Leads, Scan, Blanks, PieceText, ClosingName, At;
    EndParts(s, i, p);
    var n, z, named := i + 2 + |p.ename|, i + |PieceText(p)| - 1, InEnd(EndName);
    LtFirst(enc, s, i, end);
    SlashGoes(enc, s, i + 1, end);
    EndNamed(enc, s, i + 2, p.ename, end);
    BlanksLead(enc, named, s, n, p.egap, end);
    LeadsScan(enc, named, s, n, AfterBlanks(named, p.egap), z, end);
    EndCloses(enc, AfterBlanks(named, p.egap), s, z, end);
  }

  lemma SlashGoes(enc: Enc, s: Text, i: nat, end: nat)
    requires i < end <= |s| && s[i] == SLASH
    ensures Scan(enc, Lt, s, i, end) == Scan(enc, InEnd(EndStart), s, i + 1, end)
  {
    hide Scan, Look;
    ScanMove(enc, Lt, s, i, end);
    MarkView(enc, s, i, end);
  }

  lemma EndCloses(enc: Enc, st: State, s: Text, i: nat, end: nat)
    requires st == InEnd(EndName) || st == InEnd(EndSpace)
    requires i < end <= |s| && s[i] == GREATER
    ensures Scan(enc, st, s, i, end) == Tok(EndTag, i + 1)
  {
    hide Scan, Look;
    ScanMove(enc, st, s, i, end);
    MarkView(enc, s, i, end);
  }

  // -------------------------------------------------- comments and instructions

  /** A character that a comment or an instruction holds. */
  lemma FreeChar(st: State, v: View, n: nat)
    requires st == InComment(Body) || st == InComment(Minus) || (st.InPi? && (st.pi.PiBody? || st.pi.PiQuest?))
    requires v.data == Fits(n) || (v.data == NotCovered && n == 1)
    requires v.data.Fits? ==> v.c != MINUS && v.c != QUEST && v.b != GT_CHAR
    ensures
      var to := match st
                case InComment(p) => if v.c != MINUS then InComment(Body) else if p == Body then InComment(Minus)
                  else InComment(MinusMinus)
                case InPi(p) => if v.c == QUEST then InPi(PiQuest(p.ptok)) else InPi(PiBody(p.ptok))
                case _ => st;
      !(st.InPi? && st.pi.PiQuest? && v.b == GT_CHAR) ==> CharStep(st, v) == Go(to, n)
  {
  }

  lemma HighByte(enc: Enc, b: Byte)
    requires LeadLen(ByteType(enc, b)) > 0
    ensures b != GT_CHAR && ByteType(enc, b) != MINUS && ByteType(enc, b) != QUEST
    ensures ByteType(enc, b) != RSQB && ByteType(enc, b) !in {CR, LF, AMP, LT} && b != RSQB_CHAR
  {
  }

  lemma FreeView(enc: Enc, s: Text, i: nat, c: int, end: nat)
    requires Utf.XmlChar(c) && At(s, i, Utf8Encode(c)) && i + Len(c) <= end <= |s|
    ensures
      var v, n := Look(enc, s, i, end), Len(c);
      && i < end && 1 <= n && (v.data == Fits(n) || (v.data == NotCovered && n == 1))
      && (v.data.Fits? ==> v.c != MINUS && v.c != QUEST && v.b != GT_CHAR)
      && (v.c == MINUS <==> c == 0x2D) && (v.c == QUEST <==> c == 0x3F) && (c != 0x3E ==> v.b != GT_CHAR)
  {
    hide Look, Utf8Encode, ByteType, TestChar, At;
    CharView(enc, s, i, c, end);
    AsciiChar(enc, c);
    if c >= 0x80 { HighByte(enc, s[i]); }
  }

  /** One character on, in a comment or an instruction. */
  lemma FreeGoes(enc: Enc, st: State, s: Text, i: nat, c: int, end: nat)
    requires st == InComment(Body) || st == InComment(Minus) || (st.InPi? && (st.pi.PiBody? || st.pi.PiQuest?))
    requires Utf.XmlChar(c) && At(s, i, Utf8Encode(c)) && i + Len(c) <= end <= |s|
    requires !(st.InPi? && st.pi.PiQuest? && c == 0x3E)
    ensures
      var to := match st
                case InComment(p) => if c != 0x2D then InComment(Body) else if p == Body then InComment(Minus)
                  else InComment(MinusMinus)
                case InPi(p) => if c == 0x3F then InPi(PiQuest(p.ptok)) else InPi(PiBody(p.ptok))
                case _ => st;
      Scan(enc, st, s, i, end) == Scan(enc, to, s, i + Len(c), end)
  {
    hide Scan, Look, CharStep, Utf8Encode, ByteType, TestChar, At;
    FreeView(enc, s, i, c, end);
    FreeChar(st, Look(enc, s, i, end), Len(c));
    ScanMove(enc, st, s, i, end);
  }

  lemma EncodeStep(cs: seq<int>)
    requires cs != []
    ensures Utf.Encode8(cs) == Utf8Encode(cs[0]) + Utf.Encode8(cs[1..])
  {
    hide Utf8Encode;
  }

  /** What was held before is not held later. */
  lemma WithoutRest(cs: seq<int>, bad: seq<int>)
    requires cs != [] && Without(cs, bad)
    ensures Without(cs[1..], bad)
  {
    forall k: nat ensures !HoldsAt(cs[1..], bad, k) {
      assert !HoldsAt(cs, bad, k + 1);
      assert k + |bad| <= |cs| - 1 ==> cs[1..][k..k + |bad|] == cs[k + 1..k + 1 + |bad|];
    }
  }

  lemma WithoutTwo(cs: seq<int>, a: int, b: int)
    requires |cs| >= 2 && Without(cs, [a, b])
    ensures !(cs[0] == a && cs[1] == b)
  {
    assert !HoldsAt(cs, [a, b], 0);
    assert cs[0..2] == [cs[0], cs[1]];
  }

  lemma {:induction false} CommentFound(enc: Enc, hyphen: bool, s: Text, i: nat, cs: seq<int>, end: nat)
    requires Utf.XmlChars(cs) && Without(cs, [0x2D, 0x2D]) && (cs != [] ==> cs[|cs| - 1] != 0x2D)
    requires hyphen ==> cs != [] && cs[0] != 0x2D
    requires At(s, i, Utf.Encode8(cs) + [0x2D, 0x2D, GREATER]) && i + |Utf.Encode8(cs)| + 3 <= end <= |s|
    ensures Scan(enc, InComment(if hyphen then Minus else Body), s, i, end) == Tok(Comment, i + |Utf.Encode8(cs)| + 3)
    decreases |cs|
  {
    hide Scan, Utf8Encode, Without, At;
    var last := [0x2D, 0x2D, GREATER];
    if cs == [] {
      assert Utf.Encode8(cs) + last == last;
      CommentCloses(enc, s, i, end);
    } else {
      EncodeStep(cs);
      var c, rest := cs[0], cs[1..];
      hide Utf.Encode8;
      assert Utf.Encode8(cs) + last == Utf8Encode(c) + (Utf.Encode8(rest) + last);
      AtParts(s, i, Utf8Encode(c), Utf.Encode8(rest) + last);
      FreeGoes(enc, InComment(if hyphen then Minus else Body), s, i, c, end);
      WithoutRest(cs, [0x2D, 0x2D]);
      if c == 0x2D && rest != [] { WithoutTwo(cs, 0x2D, 0x2D); }
      CommentFound(enc, c == 0x2D, s, i + Len(c), rest, end);
    }
  }

  /** The bytes that comments, instructions and CDATA sections begin and end with. */
  lemma BangView(enc: Enc, s: Text, i: nat, end: nat)
    requires i < end <= |s|
    ensures Look(enc, s, i, end).b == s[i]
    ensures s[i] == 0x21 ==> Look(enc, s, i, end).c == EXCL
    ensures s[i] == 0x2D ==> Look(enc, s, i, end).c == MINUS
    ensures s[i] == 0x3F ==> Look(enc, s, i, end).c == QUEST
    ensures s[i] == 0x5B ==> Look(enc, s, i, end).c == LSQB
  {
    hide TestChar;
  }

  lemma CommentCloses(enc: Enc, s: Text, i: nat, end: nat)
    requires At(s, i, [0x2D, 0x2D, GREATER]) && i + 3 <= end <= |s|
    ensures Scan(enc, InComment(Body), s, i, end) == Tok(Comment, i + 3)
  {
    hide Scan, Look, At;
    AtByte(s, i, [0x2D, 0x2D, GREATER], 0);
    AtByte(s, i, [0x2D, 0x2D, GREATER], 1);
    AtByte(s, i, [0x2D, 0x2D, GREATER], 2);
    BangView(enc, s, i, end);
    BangView(enc, s, i + 1, end);
    BangView(enc, s, i + 2, end);
    ScanMove(enc, InComment(Body), s, i, end);
    ScanMove(enc, InComment(Minus), s, i + 1, end);
    ScanMove(enc, InComment(MinusMinus), s, i + 2, end);
  }

  /** A comment of the grammar is a token. */
  lemma RemarkFound(enc: Enc, s: Text, i: nat, p: Piece, end: nat)
    requires p.Remark? && PieceOk(enc, p) && At(s, i, PieceText(p)) && i + |PieceText(p)| <= end <= |s|
    ensures i < end && ContentTok(enc, s, i, end) == Tok(Comment, i + |PieceText(p)|)
    ensures |PieceText(p)| == |Utf.Encode8(p.comment)| + 7 && At(s, i + 4, Utf.Encode8(p.comment))
  {
    hide Scan, Utf.Encode8, Without, Look, At;
    var head, body, last := [0x3C, 0x21, 0x2D, 0x2D], Utf.Encode8(p.comment), [0x2D, 0x2D, GREATER];
    assert PieceText(p) == head + (body + last);
    AtParts(s, i, head, body + last);
    AtParts(s, i + 4, body, last);
    AtByte(s, i, head, 0);
    AtByte(s, i, head, 1);
    AtByte(s, i, head, 2);
    AtByte(s, i, head, 3);
    LtFirst(enc, s, i, end);
    OpensComment(enc, s, i, end);
    CommentFound(enc, false, s, i + 4, p.comment, end);
  }

  lemma OpensComment(enc: Enc, s: Text, i: nat, end: nat)
    requires i + 4 <= end <= |s| && s[i + 1] == 0x21 && s[i + 2] == 0x2D && s[i + 3] == 0x2D
    ensures Scan(enc, Lt, s, i + 1, end) == Scan(enc, InComment(Body), s, i + 4, end)
  {
    hide Scan, Look;
    BangView(enc, s, i + 1, end);
    BangView(enc, s, i + 2, end);
    BangView(enc, s, i + 3, end);
    ScanMove(enc, Lt, s, i + 1, end);
    ScanMove(enc, Excl, s, i + 2, end);
    ScanMove(enc, InComment(Dash), s, i + 3, end);
  }

  lemma {:induction false} BodyFound(enc: Enc, quest: bool, s: Text, i: nat, cs: seq<int>, end: nat)
    requires Utf.XmlChars(cs) && Without(cs, [0x3F, 0x3E]) && (quest && cs != [] ==> cs[0] != 0x3E)
    requires At(s, i, Utf.Encode8(cs) + [0x3F, GREATER]) && i + |Utf.Encode8(cs)| + 2 <= end <= |s|
    ensures Scan(enc, InPi(if quest then PiQuest(Pi) else PiBody(Pi)), s, i, end) == Tok(Pi, i + |Utf.Encode8(cs)| + 2)
    decreases |cs|
  {
    hide Scan, Utf8Encode, Without, At;
    var last := [0x3F, GREATER];
    if cs == [] {
      assert Utf.Encode8(cs) + last == last;
      PiCloses(enc, quest, s, i, end);
    } else {
      EncodeStep(cs);
      var c, rest := cs[0], cs[1..];
      hide Utf.Encode8;
      assert Utf.Encode8(cs) + last == Utf8Encode(c) + (Utf.Encode8(rest) + last);
      AtParts(s, i, Utf8Encode(c), Utf.Encode8(rest) + last);
      FreeGoes(enc, InPi(if quest then PiQuest(Pi) else PiBody(Pi)), s, i, c, end);
      WithoutRest(cs, [0x3F, 0x3E]);
      if c == 0x3F && rest != [] { WithoutTwo(cs, 0x3F, 0x3E); }
      BodyFound(enc, c == 0x3F, s, i + Len(c), rest, end);
    }
  }

  lemma PiCloses(enc: Enc, quest: bool, s: Text, i: nat, end: nat)
    requires At(s, i, [0x3F, GREATER]) && i + 2 <= end <= |s|
    ensures Scan(enc, InPi(if quest then PiQuest(Pi) else PiBody(Pi)), s, i, end) == Tok(Pi, i + 2)
  {
    hide Scan, Look, At;
    AtFrom(s, i, [0x3F, GREATER], 1);
    AtByte(s, i, [0x3F, GREATER], 1);
    assert Utf8Encode(0x3F) == [0x3F, GREATER][..1];
    FreeGoes(enc, InPi(if quest then PiQuest(Pi) else PiBody(Pi)), s, i, 0x3F, end);
    MarkView(enc, s, i + 1, end);
    ScanMove(enc, InPi(PiQuest(Pi)), s, i + 1, end);
  }

  lemma {:induction false} GapFound(enc: Enc, s: Text, i: nat, t: Text, end: nat)
    requires Blanks(t) && At(s, i, t) && i + |t| <= end <= |s|
    ensures Scan(enc, InPi(PiBody(Pi)), s, i, end) == Scan(enc, InPi(PiBody(Pi)), s, i + |t|, end)
    decreases |t|
  {
    hide Scan, Utf8Encode, At;
    if t != [] {
      AtFrom(s, i, t, 1);
      assert t[..1] == [t[0]];
      BlankChar(t[0]);
      FreeGoes(enc, InPi(PiBody(Pi)), s, i, t[0], end);
      GapFound(enc, s, i + 1, t[1..], end);
    }
  }

  lemma BlankChar(b: Byte)
    requires Blank(b)
    ensures Utf.XmlChar(b) && Utf8Encode(b) == [b] && b != 0x3F
  {
  }

  /** The end of the target: a question mark, or a blank. */
  lemma TargetEnds(enc: Enc, target: Text, s: Text, i: nat, end: nat)
    requires i < end <= |s| && !Reserved(target) && (s[i] == 0x3F || Blank(s[i]))
    ensures Scan(enc, InPi(PiName(target)), s, i, end) ==
      Scan(enc, InPi(if s[i] == 0x3F then PiNameQuest(Pi) else PiBody(Pi)), s, i + 1, end)
  {
    hide Scan, Look, CheckPiTarget;
    ScanMove(enc, InPi(PiName(target)), s, i, end);
    TargetIs(target);
    LookIs(enc, s, i, end);
    QuestClass(enc, s[i]);
  }

  lemma TargetFound(enc: Enc, s: Text, i: nat, target: Text, end: nat)
    requires NcName(enc, target) && At(s, i, target) && i + |target| <= end <= |s|
    ensures Scan(enc, InPi(PiStart), s, i, end) == Scan(enc, InPi(PiName(target)), s, i + |target|, end)
  {
    hide Scan, Look, CharStep, Leads, NcName, At;
    NcNameLeads(enc, InPi(PiStart), s, i, target, end);
    var w := Width(target[0]);
    assert target[..w] + target[w..] == target;
    ScanMove(enc, InPi(PiStart), s, i, end);
    LeadsScan(enc, InPi(PiName(target[..w])), s, i + w, InPi(PiName(target)), i + |target|, end);
  }

  /** Where the parts of an instruction stand. */
  lemma InstructionParts(s: Text, i: nat, p: Piece)
    requires p.Instruction? && At(s, i, PieceText(p))
    ensures
      var n := i + 2 + |p.target|;
      var b := n + |p.pgap|;
      && i + 1 < |s| && s[i] == 0x3C && s[i + 1] == 0x3F && At(s, i + 2, p.target) && At(s, n, p.pgap)
      && At(s, b, Utf.Encode8(p.body) + [0x3F, GREATER]) && i + |PieceText(p)| == b + |Utf.Encode8(p.body)| + 2
  {
    hide Utf.Encode8, At;
    var head, body, last := [0x3C, 0x3F], Utf.Encode8(p.body), [0x3F, GREATER];
    AtFive(s, i, head, p.target, p.pgap, body, last);
    AtJoin(s, i + 2 + |p.target| + |p.pgap|, body, last);
    AtByte(s, i, head, 0);
    AtByte(s, i, head, 1);
  }

  /** From the end of the target on. */
  lemma AfterTargetFound(enc: Enc, s: Text, n: nat, target: Text, gap: Text, body: seq<int>, end: nat)
    requires !Reserved(target) && Blanks(gap) && Utf.XmlChars(body) && Without(body, [0x3F, 0x3E])
    requires body != [] ==> gap != []
    requires At(s, n, gap) && At(s, n + |gap|, Utf.Encode8(body) + [0x3F, GREATER])
    requires n + |gap| + |Utf.Encode8(body)| + 2 <= end <= |s|
    ensures Scan(enc, InPi(PiName(target)), s, n, end) == Tok(Pi, n + |gap| + |Utf.Encode8(body)| + 2)
  {
    hide Scan, Utf.Encode8, Without, Reserved, Blanks, Utf.XmlChars, At;
    var last, b := [0x3F, GREATER], n + |gap|;
    if gap == [] {
      EncodeNone(body);
      assert Utf.Encode8(body) + last == last;
      AtByte(s, n, last, 0);
      AtByte(s, n, last, 1);
      TargetEnds(enc, target, s, n, end);
      QuestCloses(enc, s, n + 1, end);
    } else {
      AtByte(s, n, gap, 0);
      AtFrom(s, n, gap, 1);
      BlanksIn(gap);
      TargetEnds(enc, target, s, n, end);
      GapFound(enc, s, n + 1, gap[1..], end);
      BodyFound(enc, false, s, b, body, end);
    }
  }

  /** A processing instruction of the grammar is a token. */
  lemma InstructionFound(enc: Enc, s: Text, i: nat, p: Piece, end: nat)
    requires p.Instruction? && PieceOk(enc, p) && At(s, i, PieceText(p)) && i + |PieceText(p)| <= end <= |s|
    ensures i < end && ContentTok(enc, s, i, end) == Tok(Pi, i + |PieceText(p)|)
  {
    hide Scan, Utf.Encode8, Without, NcName, Reserved, Blanks, Utf8Encode, PieceText, At;
    InstructionParts(s, i, p);
    LtFirst(enc, s, i, end);
    QuestionGoes(enc, s, i + 1, end);
    TargetFound(enc, s, i + 2, p.target, end);
    AfterTargetFound(enc, s, i + 2 + |p.target|, p.target, p.pgap, p.body, end);
  }

  lemma EncodeNone(cs: seq<int>)
    ensures cs == [] ==> Utf.Encode8(cs) == []
  {
    hide Utf8Encode;
  }

  lemma BlanksIn(t: Text)
    requires t != [] && Blanks(t)
    ensures Blank(t[0]) && Blanks(t[1..]) && t[0] != 0x3F
  {
  }

  lemma QuestionGoes(enc: Enc, s: Text, i: nat, end: nat)
    requires i < end <= |s| && s[i] == 0x3F
    ensures Scan(enc, Lt, s, i, end) == Scan(enc, InPi(PiStart), s, i + 1, end)
  {
    hide Scan, Look;
    BangView(enc, s, i, end);
    ScanMove(enc, Lt, s, i, end);
  }

  lemma QuestCloses(enc: Enc, s: Text, i: nat, end: nat)
    requires i < end <= |s| && s[i] == GREATER
    ensures Scan(enc, InPi(PiNameQuest(Pi)), s, i, end) == Tok(Pi, i + 1)
  {
    hide Scan, Look;
    MarkView(enc, s, i, end);
    ScanMove(enc, InPi(PiNameQuest(Pi)), s, i, end);
  }

  // ---------------------------------------------------------- CDATA sections

  lemma {:induction false} CdataMatches(s: Text, i: nat, k: nat)
    requires k <= 6 && At(s, i, CDATA_LSQB)
    ensures CdataMatch(s, i, k) == 6
    decreases 6 - k
  {
    if k < 6 {
      AtByte(s, i, CDATA_LSQB, k);
      CdataMatches(s, i, k + 1);
    }
  }

  lemma OpensCdata(enc: Enc, s: Text, i: nat, end: nat)
    requires i + 3 <= end <= |s| && s[i + 1] == 0x21 && s[i + 2] == 0x5B
    ensures Scan(enc, Lt, s, i + 1, end) == Scan(enc, Cdata, s, i + 3, end)
  {
    hide Scan, Look;
    BangView(enc, s, i + 1, end);
    BangView(enc, s, i + 2, end);
    ScanMove(enc, Lt, s, i + 1, end);
    ScanMove(enc, Excl, s, i + 2, end);
  }

  /** The beginning of a CDATA section is a token. */
  lemma SectionOpens(enc: Enc, s: Text, i: nat, end: nat)
    requires At(s, i, CDATA_START) && i + 9 <= end <= |s|
    ensures ContentTok(enc, s, i, end) == Tok(CdataOpen, i + 9)
  {
    hide Scan, CdataMatch, Look, CharStep, At;
    AtFrom(s, i, CDATA_START, 3);
    AtByte(s, i, CDATA_START, 0);
    AtByte(s, i, CDATA_START, 1);
    AtByte(s, i, CDATA_START, 2);
    LtFirst(enc, s, i, end);
    OpensCdata(enc, s, i, end);
    assert CDATA_START[3..] == CDATA_LSQB;
    CdataMatches(s, i + 3, 0);
    ScanUnfold(enc, Cdata, s, i + 3, end);
  }
}
