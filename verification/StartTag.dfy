/**
  getAtts, the second and much cruder pass over a start tag that contentTok has already
  accepted.

  `Spans` says where the attributes are according to the tokenizer's automaton. GetAtts
  is the source's loop, which knows nothing of that automaton and has no end of text to
  stop at: on every accepted tag it stays inside the tag and finds the same attributes.
  `FastPath` is why storeAtts may copy a value whose `normalized` flag survived:
  normalising it would change nothing, whatever its type.
*/
module StartTag {
  import opened Scanner
  import opened Tokenizer
  import A = AttributeValue

  /** ATTRIBUTE: where the name and the value are, and whether the value is fit to be copied. */
  datatype Attribute = Attribute(name: nat, value: nat, valueEnd: nat, normalized: bool)

  // --------------------------------------------------- what the tokenizer accepted

  datatype Span = Span(name: nat, value: nat, valueEnd: nat)

  /** The automaton moves from between two attributes into a name. */
  predicate NameBegins(st: State, next: State)
  {
    next == InAtt(AttName(false)) && (st == InTag(TagSpace) || st == InAtt(AttBetween))
  }

  predicate ValueBegins(st: State, next: State)
  {
    st == InAtt(AttEq) && next.InAtt? && next.att.AttValue?
  }

  /** Where the automaton, accepting from state `st` at `i`, enters and leaves names and values. */
  function Spans(enc: Enc, st: State, s: Text, i: nat, end: nat, name: nat, value: nat): seq<Span>
    requires i <= end <= |s|
    decreases end - i
  {
    if i == end then []
    else
      StepProgress(enc, st, s, i, end);
      var m := StepAt(enc, st, s, i, end);
      if !m.Go? then []
      else
        (if m.st == InAtt(AttEnd) then [Span(name, value, i)] else [])
        + Spans(enc, m.st, s, i + m.n, end, if NameBegins(st, m.st) then i
          else name, if ValueBegins(st, m.st) then i + m.n else value)
  }

  lemma SpansUnfold(enc: Enc, st: State, s: Text, i: nat, end: nat, name: nat, value: nat)
    requires i < end <= |s| && !st.Cdata?
    ensures
      var m := CharStep(st, Look(enc, s, i, end));
      && Progress(m, i, end)
      && Spans(enc, st, s, i, end, name, value) ==
         if !m.Go? then []
         else
           (if m.st == InAtt(AttEnd) then [Span(name, value, i)] else [])
           + Spans(enc, m.st, s, i + m.n, end, if NameBegins(st, m.st) then i
             else name, if ValueBegins(st, m.st) then i + m.n else value)
  {
    hide CharStep, Look;
    StepProgress(enc, st, s, i, end);
  }

  /** The character at `i` of a value that starts at `vp` must be normalised, or may have to be. */
  predicate Spoils(enc: Enc, s: Text, vp: nat, i: nat, open: ByteClass)
    requires i < |s|
  {
    var c := ByteType(enc, s[i]);
    || c == AMP || c == CR || c == LF
    || (c == S && (i == vp || s[i] != 0x20 || i + 1 >= |s| || s[i + 1] == 0x20 || ByteType(enc, s[i + 1]) == open))
  }

  /** No part of the value up to `end` needs normalising. */
  ghost predicate Fit(enc: Enc, s: Text, vp: nat, end: nat, open: ByteClass)
    requires vp <= end <= |s|
  {
    forall j :: vp <= j < end ==> !Spoils(enc, s, vp, j, open)
  }

  /** The attribute that getAtts ought to report for a span. */
  ghost predicate Reports(enc: Enc, s: Text, sp: Span, a: Attribute)
  {
    && Span(a.name, a.value, a.valueEnd) == sp
    && a.value <= a.valueEnd < |s|
    && (a.normalized <==> Fit(enc, s, a.value, a.valueEnd, ByteType(enc, s[a.valueEnd])))
  }

  lemma FitChar(enc: Enc, s: Text, vp: nat, i: nat, n: nat, open: ByteClass)
    requires vp <= i && i + n <= |s| && n >= 1
    requires forall k :: i < k < i + n ==> 0x80 <= s[k] < 0xC0
    ensures Fit(enc, s, vp, i + n, open) <==> Fit(enc, s, vp, i, open) && !Spoils(enc, s, vp, i, open)
  {
    forall k | i < k < i + n ensures !Spoils(enc, s, vp, k, open) { }
    hide Spoils;
  }

  lemma FitNone(enc: Enc, s: Text, vp: nat, open: ByteClass)
    requires vp <= |s|
    ensures Fit(enc, s, vp, vp, open)
  {
  }

  // ------------------------------------------------------------------ values

  /** The automaton is inside a value quoted by `open`. */
  predicate InValueOf(st: State, open: ByteClass)
  {
    st == InAtt(AttValue(open)) || (st.InRef? && st.ctx == Quote(open))
  }

  /** One character inside a value; getAtts steps over as many bytes as the automaton. */
  lemma ValueChar(enc: Enc, s: Text, i: nat, end: nat, open: ByteClass)
    requires i < end <= |s| && (open == QUOT || open == APOS)
    ensures
      var c := ByteType(enc, s[i]);
      var m := CharStep(InAtt(AttValue(open)), Look(enc, s, i, end));
      && (c == open ==> m == Go(InAtt(AttEnd), 1) && CharLen(enc, s[i]) == 1)
      && (c == AMP && c != open ==> m == Go(InRef(RefStart, Quote(open)), 1) && CharLen(enc, s[i]) == 1)
      && (c != open && c != AMP && m.Go? ==>
            && m == Go(InAtt(AttValue(open)), CharLen(enc, s[i])) && c != LT
            && i + CharLen(enc, s[i]) <= end
            && forall k :: i < k < i + CharLen(enc, s[i]) ==> 0x80 <= s[k] < 0xC0)
      && !m.Accept?
  {
    var n := LeadLen(ByteType(enc, s[i]));
    if n > 0 && i + n <= end && !InvalidChar(s, i, n) {
      ValidTrails(s, i, n);
    }
    hide InvalidChar;
  }

  lemma RefChar(enc: Enc, p: RefPlace, open: ByteClass, s: Text, i: nat, end: nat)
    requires i < end <= |s|
    ensures
      var m := CharStep(InRef(p, Quote(open)), Look(enc, s, i, end));
      && !m.Accept?
      && (m.Go? ==>
            && m.n == CharLen(enc, s[i]) && InValueOf(m.st, open)
            && ByteType(enc, s[i]) !in {QUOT, APOS, AMP})
  {
    hide InvalidChar;
  }

  // ------------------------------------------------------- accepted values are proper

  /** No blank stands from `i` to `n`, not as part of a character either. */
  predicate Unblank(s: Text, i: nat, n: nat)
  {
    n <= |s| && forall k :: i <= k < n ==> s[k] != 0x20 && s[k] != 0x9 && s[k] != 0xA && s[k] != 0xD
  }

  /** attributeValueTok finds no fault in the value, and no plain run hides a blank. */
  ghost predicate Proper(enc: Enc, s: Text, i: nat, end: nat)
    requires i <= end <= |s|
    decreases end - i
  {
    match A.ValueTokAt(enc, s, i, end)
    case Nothing => true
    case DataTo(next) => Unblank(s, i, next) && Proper(enc, s, next, end)
    case BlankTo(next) => Proper(enc, s, next, end)
    case CharRefTo(next) => Proper(enc, s, next, end)
    case EntityRefTo(next) => Proper(enc, s, next, end)
    case Malformed => false
    case Unexpected => false
  }

  lemma {:induction false} ProperIsClean(enc: Enc, s: Text, i: nat, end: nat)
    requires i <= end <= |s| && Proper(enc, s, i, end)
    ensures A.Clean(enc, s, i, end)
    decreases end - i
  {
    hide A.ValueTokAt;
    var t := A.ValueTokAt(enc, s, i, end);
    if !t.Nothing? {
      ProperIsClean(enc, s, t.next, end);
    }
  }

  /** What attributeValueTok does at a plain character, from what it does after it. */
  lemma PlainStep(enc: Enc, s: Text, i: nat, end: nat)
    requires i < end <= |s|
    requires
      var c, n := ByteType(enc, s[i]), CharLen(enc, s[i]);
      c != AMP && c != LT && !IsSpace(c) && i + n <= end
    ensures
      var n := CharLen(enc, s[i]);
      var t := A.ValueTokAt(enc, s, i + n, end);
      !t.Malformed? ==> A.ValueTokAt(enc, s, i, end) == A.DataTo(if t.DataTo? then t.next else i + n)
  {
    hide Scan, ByteType, A.PlainEnd, CharLen;
    PlainEndStep(enc, s, i, end);
    var n := CharLen(enc, s[i]);
    if i + n < end {
      PlainEndHere(enc, s, i + n, end);
    }
  }

  lemma PlainEndStep(enc: Enc, s: Text, i: nat, end: nat)
    requires i < end <= |s|
    requires
      var c, n := ByteType(enc, s[i]), CharLen(enc, s[i]);
      c != AMP && c != LT && !IsSpace(c) && i + n <= end
    ensures A.PlainEnd(enc, s, i, end) == A.PlainEnd(enc, s, i + CharLen(enc, s[i]), end)
    ensures A.PlainEnd(enc, s, end, end) == end
  {
    hide ByteType;
  }

  lemma PlainEndHere(enc: Enc, s: Text, i: nat, end: nat)
    requires i < end <= |s|
    ensures
      var c := ByteType(enc, s[i]);
      if c == AMP || IsSpace(c) then A.PlainEnd(enc, s, i, end) == i else A.PlainEnd(enc, s, i, end) != i
  {
    hide ByteType;
  }

  lemma ProperPlain(enc: Enc, s: Text, i: nat, end: nat)
    requires i < end <= |s|
    requires
      var c, n := ByteType(enc, s[i]), CharLen(enc, s[i]);
      && c != AMP && c != LT && !IsSpace(c) && i + n <= end && Proper(enc, s, i + n, end)
      && forall k :: i < k < i + n ==> 0x80 <= s[k] < 0xC0
    ensures Proper(enc, s, i, end)
  {
    hide A.ValueTokAt, CharLen, ByteType;
    BlankBytes(enc, s[i]);
    PlainStep(enc, s, i, end);
    var n := CharLen(enc, s[i]);
    var t := A.ValueTokAt(enc, s, i + n, end);
    var p := if t.DataTo? then t.next else i + n;
    assert Proper(enc, s, p, end) && Unblank(s, i, p);
    ProperData(enc, s, i, p, end);
  }

  lemma BlankBytes(enc: Enc, b: Byte)
    ensures IsSpace(ByteType(enc, b)) <==> b == 0x20 || b == 0x9 || b == 0xA || b == 0xD
  {
  }

  lemma ProperData(enc: Enc, s: Text, i: nat, p: nat, end: nat)
    requires i < p <= end <= |s| && A.ValueTokAt(enc, s, i, end) == A.DataTo(p) && Proper(enc, s, p, end)
    requires Unblank(s, i, p)
    ensures Proper(enc, s, i, end)
  {
    hide A.ValueTokAt;
  }

  lemma ProperBlank(enc: Enc, s: Text, i: nat, end: nat)
    requires i < end <= |s| && IsSpace(ByteType(enc, s[i])) && Proper(enc, s, i + 1, end)
    ensures Proper(enc, s, i, end)
  {
    hide A.PlainEnd, Scan;
  }

  /** The rest of a value that the automaton has got into, from state `st` at `i` to its quote at `at`. */
  ghost predicate ProperFrom(enc: Enc, st: State, s: Text, i: nat, at: nat)
    requires i <= at <= |s|
  {
    if st.InRef? then
      var r := Scan(enc, InRef(st.ref, NoQuote), s, i, at);
      r.Tok? && Proper(enc, s, r.next, at)
    else Proper(enc, s, i, at)
  }

  lemma ProperRef(enc: Enc, open: ByteClass, s: Text, i: nat, at: nat)
    requires i < at <= |s| && ByteType(enc, s[i]) == AMP
    requires ProperFrom(enc, InRef(RefStart, Quote(open)), s, i + 1, at)
    ensures Proper(enc, s, i, at)
  {
    hide Scan, A.PlainEnd;
  }

  /** Shortening the text leaves a character that still fits as it was. */
  lemma LookShort(enc: Enc, s: Text, i: nat, at: nat, end: nat)
    requires i < at <= end <= |s| && i + CharLen(enc, s[i]) <= at
    ensures Look(enc, s, i, at) == Look(enc, s, i, end)
  {
    hide InvalidChar, ByteType;
  }

  lemma ProperRefChar(enc: Enc, p: RefPlace, open: ByteClass, s: Text, i: nat, at: nat, end: nat)
    requires i < at < end <= |s|
    requires
      var m := CharStep(InRef(p, Quote(open)), Look(enc, s, i, end));
      m.Go? && i + m.n <= at && InValueOf(m.st, open) && ProperFrom(enc, m.st, s, i + m.n, at)
    ensures ProperFrom(enc, InRef(p, Quote(open)), s, i, at)
  {
    hide Scan, Look, RefStep, Proper, ByteType;
    RefChar(enc, p, open, s, i, end);
    LookShort(enc, s, i, at, end);
    RefSteps(p, open, Look(enc, s, i, end));
    ScanMove(enc, InRef(p, NoQuote), s, i, at);
  }

  /** What the automaton finds from inside a value. */
  ghost predicate ValueFound(enc: Enc, st: State, s: Text, i: nat, end: nat, open: ByteClass, name: nat, value: nat)
    requires i <= end <= |s|
  {
    var sp := Spans(enc, st, s, i, end, name, value);
    && sp != [] && sp[0].name == name && sp[0].value == value
    && i <= sp[0].valueEnd < end && ByteType(enc, s[sp[0].valueEnd]) == open
    && ProperFrom(enc, st, s, i, sp[0].valueEnd)
  }

  lemma ValueFoundStep(enc: Enc, st: State, s: Text, i: nat, end: nat, open: ByteClass, name: nat, value: nat)
    requires i < end <= |s| && (open == QUOT || open == APOS) && InValueOf(st, open)
    requires CharStep(st, Look(enc, s, i, end)).Go?
    requires
      var m := CharStep(st, Look(enc, s, i, end));
      m.st != InAtt(AttEnd) ==> Progress(m, i, end) && ValueFound(enc, m.st, s, i + m.n, end, open, name, value)
    ensures ValueFound(enc, st, s, i, end, open, name, value)
  {
    hide Spans, Look, CharStep, Proper, ProperFrom, ByteType, CharLen;
    SpansUnfold(enc, st, s, i, end, name, value);
    var m := CharStep(st, Look(enc, s, i, end));
    var at := Spans(enc, st, s, i, end, name, value)[0].valueEnd;
    if st.InRef? {
      RefChar(enc, st.ref, open, s, i, end);
      ProperRefChar(enc, st.ref, open, s, i, at, end);
    } else {
      ValueChar(enc, s, i, end, open);
      ValueFoundChar(enc, s, i, at, end, open);
    }
  }

  lemma ValueFoundChar(enc: Enc, s: Text, i: nat, at: nat, end: nat, open: ByteClass)
    requires i <= at < end <= |s| && (open == QUOT || open == APOS)
    requires
      var m := CharStep(InAtt(AttValue(open)), Look(enc, s, i, end));
      m.Go? && if m.st == InAtt(AttEnd) then at == i else i + m.n <= at && ProperFrom(enc, m.st, s, i + m.n, at)
    ensures ProperFrom(enc, InAtt(AttValue(open)), s, i, at)
  {
    hide Look, CharStep, ByteType, CharLen, Scan, A.PlainEnd;
    ValueChar(enc, s, i, end, open);
    var c := ByteType(enc, s[i]);
    if c != open {
      hide Proper;
      if c == AMP {
        ProperRef(enc, open, s, i, at);
      } else if IsSpace(c) {
        A.BlankLen(enc, s[i]);
        ProperBlank(enc, s, i, at);
      } else {
        ProperPlain(enc, s, i, at);
      }
    }
  }

  /** An accepted value ends at its quote and attributeValueTok will find no fault in it. */
  lemma {:induction false} ValueScan(enc: Enc, st: State, s: Text, i: nat, end: nat, open: ByteClass, name: nat,
      value: nat)
    requires i <= end <= |s| && (open == QUOT || open == APOS) && InValueOf(st, open)
    requires Scan(enc, st, s, i, end).Tok?
    ensures ValueFound(enc, st, s, i, end, open, name, value)
    decreases end - i
  {
    hide Scan, Look, CharStep, ValueFound, ByteType;
    ScanEmpty(enc, st, s, i);
    ScanMove(enc, st, s, i, end);
    ValueChar(enc, s, i, end, open);
    if st.InRef? {
      RefChar(enc, st.ref, open, s, i, end);
    }
    var m := CharStep(st, Look(enc, s, i, end));
    if m.st != InAtt(AttEnd) {
      ValueScan(enc, m.st, s, i + m.n, end, open, name, value);
    }
    ValueFoundStep(enc, st, s, i, end, open, name, value);
  }

  // ------------------------------------------------------------------ tags

  predicate IsTag(r: Result) { r.Tok? && (r.tok.StartTag? || r.tok.EmptyElement?) }

  /** Outside values: getAtts's state (a name or not) against the automaton's. */
  predicate Related(st: State, named: bool)
  {
    match st
    case InTag(p) => if p.TagSpace? then !named else named && !p.TagSol?
    case InAtt(p) => p.AttEq? || (!p.AttValue? && named == (p.AttName? || p.AttColon?))
    case _ => false
  }

  predicate NameStarter(c: ByteClass) { LeadLen(c) > 0 || c == NMSTRT || c == HEX }

  /** What the automaton does outside values, in terms of getAtts's own switch. */
  predicate TagMove(st: State, named: bool, c: ByteClass, len: nat, m: Move)
  {
    if m.Accept? then c == GT
    else if !m.Go? then true
    else if c == SOL then m.st.InTag? && m.st.tag.TagSol?
    else if c == QUOT || c == APOS then st == InAtt(AttEq) && m == Go(InAtt(AttValue(c)), 1)
    else
      && c != GT && c != AMP && m.n == len
      && m.st != InAtt(AttEnd) && !ValueBegins(st, m.st) && !m.st.Lt?
      && Related(m.st, if NameStarter(c) then true else if IsSpace(c) then false else named)
      && (NameBegins(st, m.st) <==> NameStarter(c) && !named)
      && (Pending(m.st) <==> Pending(st) || (NameStarter(c) && !named))
  }

  /** The name of an attribute has begun and its value has not. */
  predicate Pending(st: State)
  {
    st.InAtt? && (st.att.AttName? || st.att.AttColon? || st.att.AttSpace? || st.att.AttEq?)
  }

  /** What the tests of a character of `n` bytes say, by its byte type. */
  predicate LookKind(v: View, n: nat)
  {
    && (v.nmstrt.Fits? ==> v.nmstrt.n == n) && (v.nmstrt.NotCovered? <==> !NameStarter(v.c))
    && (v.name.Fits? ==> v.name.n == n && (NameStarter(v.c) || v.c in {DIGIT, NAME, MINUS}))
    && (v.c in {COLON, EQUALS, S, CR, LF} ==> n == 1)
  }

  lemma LookKinds(enc: Enc, s: Text, i: nat, end: nat)
    requires i < end <= |s|
    ensures
      var v := Look(enc, s, i, end);
      v.c == ByteType(enc, s[i]) && v.b == s[i] && LookKind(v, CharLen(enc, s[i]))
  {
    hide InvalidChar, ByteType;
  }

  lemma TagChar(enc: Enc, st: State, s: Text, i: nat, end: nat, named: bool)
    requires i < end <= |s| && Related(st, named)
    ensures TagMove(st, named, ByteType(enc, s[i]), CharLen(enc, s[i]), CharStep(st, Look(enc, s, i, end)))
  {
    hide ByteType, Look, TagStep, AttStep, LookKind;
    LookKinds(enc, s, i, end);
    var v, n := Look(enc, s, i, end), CharLen(enc, s[i]);
    match st
    case InTag(p) => TagPlaceChar(p, v, n, named);
    case InAtt(p) => AttPlaceChar(p, v, n, named);
    case _ =>
  }

  lemma TagPlaceChar(p: TagPlace, v: View, n: nat, named: bool)
    requires LookKind(v, n) && Related(InTag(p), named)
    ensures TagMove(InTag(p), named, v.c, n, TagStep(p, v))
  {
  }

  lemma AttPlaceChar(p: AttPlace, v: View, n: nat, named: bool)
    requires LookKind(v, n) && Related(InAtt(p), named)
    ensures TagMove(InAtt(p), named, v.c, n, AttStep(p, v))
  {
  }

  /** States from which no tag will be accepted. */
  predicate NoTag(st: State)
  {
    match st
    case Excl => true
    case Cdata => true
    case InComment(_) => true
    case InEnd(_) => true
    case InPi(p) => p.PiStart? || p.PiName? || (!p.ptok.StartTag? && !p.ptok.EmptyElement?)
    case _ => false
  }

  lemma NoTagStep(st: State, v: View)
    requires NoTag(st)
    ensures
      var m := CharStep(st, v);
      && (m.Go? ==> NoTag(m.st))
      && (m.Accept? ==> !m.tok.StartTag? && !m.tok.EmptyElement?)
  {
    hide CheckPiTarget;
  }

  lemma {:induction false} NoTagScan(enc: Enc, st: State, s: Text, i: nat, end: nat)
    requires i <= end <= |s| && NoTag(st)
    ensures !IsTag(Scan(enc, st, s, i, end))
    decreases end - i
  {
    hide Scan, Look, CharStep;
    ScanEmpty(enc, st, s, i);
    if i < end {
      ScanUnfold(enc, st, s, i, end);
      NoTagStep(st, Look(enc, s, i, end));
      if StepAt(enc, st, s, i, end).Go? {
        var m := StepAt(enc, st, s, i, end);
        NoTagScan(enc, m.st, s, i + m.n, end);
      }
    }
  }

  lemma LtChar(enc: Enc, s: Text, i: nat, end: nat)
    requires i < end <= |s|
    ensures
      var c, m := ByteType(enc, s[i]), CharStep(Lt, Look(enc, s, i, end));
      && !m.Accept?
      && (m.Go? ==> NoTag(m.st) || (NameStarter(c) && m == Go(InTag(TagName(false)), CharLen(enc, s[i]))))
  {
    hide InvalidChar;
  }

  /** A tag begins with its name. */
  lemma FirstChar(enc: Enc, s: Text, i: nat, end: nat, name: nat, value: nat)
    requires i <= end <= |s| && IsTag(Scan(enc, Lt, s, i, end))
    ensures i < end && NameStarter(ByteType(enc, s[i])) && i + CharLen(enc, s[i]) <= end
    ensures
      var next := i + CharLen(enc, s[i]);
      && Scan(enc, Lt, s, i, end) == Scan(enc, InTag(TagName(false)), s, next, end)
      && Spans(enc, Lt, s, i, end, name, value) == Spans(enc, InTag(TagName(false)), s, next, end, name, value)
  {
    hide Scan, Look, CharStep, Spans, ByteType, CharLen;
    ScanEmpty(enc, Lt, s, i);
    ScanMove(enc, Lt, s, i, end);
    SpansUnfold(enc, Lt, s, i, end, name, value);
    LtChar(enc, s, i, end);
    var m := CharStep(Lt, Look(enc, s, i, end));
    if m.Go? && NoTag(m.st) {
      NoTagScan(enc, m.st, s, i + m.n, end);
    }
  }

  // ---------------------------------------------------------------- the loop

  /** `state` and `open` of getAtts */
  datatype Mode = Other | InName | InValue(quote: ByteClass)

  predicate QuoteOk(mode: Mode) { mode.InValue? ==> mode.quote == QUOT || mode.quote == APOS }

  function TurnMode(enc: Enc, s: Text, i: nat, mode: Mode): Mode
    requires i < |s|
  {
    var c := ByteType(enc, s[i]);
    if NameStarter(c) then (if mode.Other? then InName else mode)
    else if c == QUOT || c == APOS then
      if !mode.InValue? then InValue(c) else if mode.quote == c then Other else mode
    else if IsSpace(c) && mode.InName? then Other
    else mode
  }

  /** What one turn of the loop does to the attribute being filled in. */
  function TurnAttribute(enc: Enc, s: Text, i: nat, mode: Mode, a: Attribute): Attribute
    requires i < |s|
  {
    var c := ByteType(enc, s[i]);
    if NameStarter(c) then (if mode.Other? then a.(name := i, normalized := true) else a)
    else if c == QUOT || c == APOS then
      if !mode.InValue? then a.(value := i + 1) else if mode.quote == c then a.(valueEnd := i) else a
    else if c == AMP || (mode.InValue? && Spoils(enc, s, a.value, i, mode.quote)) then a.(normalized := false)
    else a
  }

  predicate Closes(enc: Enc, s: Text, i: nat, mode: Mode)
    requires i < |s|
  {
    mode.InValue? && (mode.quote == QUOT || mode.quote == APOS) && ByteType(enc, s[i]) == mode.quote
  }

  predicate Returns(enc: Enc, s: Text, i: nat, mode: Mode)
    requires i < |s|
  {
    !mode.InValue? && ByteType(enc, s[i]) in {GT, SOL}
  }

  /** The loop is at `i` in `mode` and the automaton in `st`, on its way to acceptance. */
  ghost predicate Doing(enc: Enc, s: Text, i: nat, end: nat, st: State, mode: Mode, cur: Attribute)
  {
    && i <= end <= |s|
    && Scan(enc, st, s, i, end).Tok?
    && (if mode.InValue? then
          && (mode.quote == QUOT || mode.quote == APOS)
          && InValueOf(st, mode.quote) && cur.value <= i
          && (cur.normalized <==> Fit(enc, s, cur.value, i, mode.quote))
          && (st.InRef? ==> !cur.normalized)
        else if st.Lt? then mode.InName? && IsTag(Scan(enc, st, s, i, end))
        else Related(st, mode.InName?) && (Pending(st) ==> cur.normalized))
  }

  /** The attribute at hand has been begun. */
  predicate Begun(st: State, mode: Mode) { Pending(st) || mode.InValue? }

  /** The turn leaves every attribute as it is. */
  ghost predicate Idle(enc: Enc, s: Text, i: nat, mode: Mode)
    requires i < |s|
  {
    forall a :: TurnAttribute(enc, s, i, mode, a) == a
  }

  /** What a turn leads to, and what it adds to the spans found. */
  ghost predicate Turned(enc: Enc, s: Text, i: nat, end: nat, st: State, mode: Mode, cur: Attribute, st': State)
    requires i < end <= |s|
  {
    var next, mode', cur' := i + CharLen(enc, s[i]), TurnMode(enc, s, i, mode), TurnAttribute(enc, s, i, mode, cur);
    && next <= end
    && Doing(enc, s, next, end, st', mode', cur')
    && (Begun(st', mode') ==> Begun(st, mode) || (mode.Other? && NameStarter(ByteType(enc, s[i]))))
    && (mode'.InValue? && !mode.InValue? ==> Pending(st))
    && Spans(enc, st, s, i, end, cur.name, cur.value) ==
       (if Closes(enc, s, i, mode) then [Span(cur'.name, cur'.value, cur'.valueEnd)] else [])
       + Spans(enc, st', s, next, end, cur'.name, cur'.value)
    && (Closes(enc, s, i, mode) ==>
      Reports(enc, s, Span(cur'.name, cur'.value, cur'.valueEnd), cur') && !Begun(st', mode'))
    && (Begun(st, mode) && !Closes(enc, s, i, mode) ==> Begun(st', mode'))
    && (!Begun(st, mode) && !Begun(st', mode') ==> Idle(enc, s, i, mode))
  }

  /** One character inside a value: where the modes and the flag go. */
  lemma ValueTurns(enc: Enc, s: Text, i: nat, mode: Mode, cur: Attribute)
    requires i < |s| && mode.InValue? && (mode.quote == QUOT || mode.quote == APOS)
    ensures
      var mode', cur' := TurnMode(enc, s, i, mode), TurnAttribute(enc, s, i, mode, cur);
      if ByteType(enc, s[i]) == mode.quote then
        mode' == Other && cur' == cur.(valueEnd := i) && CharLen(enc, s[i]) == 1
      else
        && mode' == mode
        && cur' == cur.(normalized := cur.normalized && !Spoils(enc, s, cur.value, i, mode.quote))
        && (ByteType(enc, s[i]) == AMP ==> !cur'.normalized)
  {
  }

  lemma TurnInValue(enc: Enc, s: Text, i: nat, end: nat, st: State, mode: Mode, cur: Attribute) returns (st': State)
    requires i < end && Doing(enc, s, i, end, st, mode, cur) && mode.InValue? && st.InAtt?
    ensures Turned(enc, s, i, end, st, mode, cur, st')
  {
    hide Idle, Scan, Look, CharStep, Spans, ByteType, CharLen, TurnMode, TurnAttribute, Fit, Spoils;
    ScanMove(enc, st, s, i, end);
    SpansUnfold(enc, st, s, i, end, cur.name, cur.value);
    ValueChar(enc, s, i, end, mode.quote);
    ValueTurns(enc, s, i, mode, cur);
    st' := CharStep(st, Look(enc, s, i, end)).st;
    if ByteType(enc, s[i]) != mode.quote {
      FitChar(enc, s, cur.value, i, CharLen(enc, s[i]), mode.quote);
    }
  }

  /** Inside a reference the flag is down already. */
  lemma RefTurns(enc: Enc, s: Text, i: nat, n: nat, open: ByteClass, vp: nat)
    requires vp <= i && i + n <= |s| && !Fit(enc, s, vp, i, open)
    ensures !Fit(enc, s, vp, i + n, open)
  {
    hide Spoils;
  }

  lemma TurnInRef(enc: Enc, s: Text, i: nat, end: nat, st: State, mode: Mode, cur: Attribute) returns (st': State)
    requires i < end && Doing(enc, s, i, end, st, mode, cur) && mode.InValue? && st.InRef?
    ensures Turned(enc, s, i, end, st, mode, cur, st')
  {
    hide Idle, Scan, Look, CharStep, Spans, ByteType, CharLen, TurnMode, TurnAttribute, Fit, Spoils;
    ScanMove(enc, st, s, i, end);
    SpansUnfold(enc, st, s, i, end, cur.name, cur.value);
    RefChar(enc, st.ref, mode.quote, s, i, end);
    ValueTurns(enc, s, i, mode, cur);
    st' := CharStep(st, Look(enc, s, i, end)).st;
    RefTurns(enc, s, i, CharLen(enc, s[i]), mode.quote, cur.value);
  }

  lemma TagTurns(enc: Enc, s: Text, i: nat, mode: Mode, cur: Attribute)
    requires i < |s| && !mode.InValue?
    ensures
      var c, mode', cur' := ByteType(enc, s[i]), TurnMode(enc, s, i, mode), TurnAttribute(enc, s, i, mode, cur);
      if c == QUOT || c == APOS then mode' == InValue(c) && cur' == cur.(value := i + 1) && CharLen(enc, s[i]) == 1
      else if NameStarter(c) then mode' == InName &&
        cur' == if mode.InName? then cur else cur.(name := i, normalized := true)
      else mode' == (if IsSpace(c) then Other else mode) && (c != AMP ==> cur' == cur)
  {
  }

  lemma TagIdle(enc: Enc, s: Text, i: nat, mode: Mode)
    requires i < |s| && !mode.InValue? && ByteType(enc, s[i]) !in {QUOT, APOS, AMP}
    requires !(mode.Other? && NameStarter(ByteType(enc, s[i])))
    ensures Idle(enc, s, i, mode)
  {
    hide ByteType;
  }

  lemma InTagOnly(st: State, named: bool)
    requires Related(st, named)
    ensures !st.Cdata?
  {
  }

  lemma TurnQuote(enc: Enc, s: Text, i: nat, end: nat, st: State, mode: Mode, cur: Attribute) returns (st': State)
    requires i < end && Doing(enc, s, i, end, st, mode, cur) && !mode.InValue? && !st.Lt?
    requires ByteType(enc, s[i]) == QUOT || ByteType(enc, s[i]) == APOS
    ensures Turned(enc, s, i, end, st, mode, cur, st')
  {
    hide Idle, Scan, Look, CharStep, Spans, ByteType, CharLen, TurnMode, TurnAttribute, Fit, Spoils, Related;
    InTagOnly(st, mode.InName?);
    ScanMove(enc, st, s, i, end);
    SpansUnfold(enc, st, s, i, end, cur.name, cur.value);
    TagChar(enc, st, s, i, end, mode.InName?);
    TagTurns(enc, s, i, mode, cur);
    st' := InAtt(AttValue(ByteType(enc, s[i])));
    FitNone(enc, s, i + 1, st'.att.open);
  }

  /** One character outside values that is neither a quote nor the end of the tag. */
  lemma PlainMove(enc: Enc, s: Text, i: nat, end: nat, st: State, named: bool, name: nat, value: nat)
      returns (st': State)
    requires i < end <= |s| && Related(st, named) && Scan(enc, st, s, i, end).Tok?
    requires ByteType(enc, s[i]) !in {QUOT, APOS, GT, SOL}
    ensures
      var c, next := ByteType(enc, s[i]), i + CharLen(enc, s[i]);
      && c != AMP && next <= end && Scan(enc, st', s, next, end) == Scan(enc, st, s, i, end)
      && Related(st', NameStarter(c) || (!IsSpace(c) && named)) && !st'.Lt?
      && (Pending(st') <==> Pending(st) || (NameStarter(c) && !named))
      && Spans(enc, st, s, i, end, name, value)
         == Spans(enc, st', s, next, end, if NameStarter(c) && !named then i else name, value)
  {
    hide Scan, Look, CharStep, Spans, ByteType, CharLen, NameStarter, IsSpace, Related, Pending;
    InTagOnly(st, named);
    ScanMove(enc, st, s, i, end);
    SpansUnfold(enc, st, s, i, end, name, value);
    TagChar(enc, st, s, i, end, named);
    BlankNoName(ByteType(enc, s[i]));
    st' := CharStep(st, Look(enc, s, i, end)).st;
  }

  lemma BlankNoName(c: ByteClass)
    ensures !(IsSpace(c) && NameStarter(c))
  {
  }

  lemma TurnPlain(enc: Enc, s: Text, i: nat, end: nat, st: State, mode: Mode, cur: Attribute) returns (st': State)
    requires i < end && Doing(enc, s, i, end, st, mode, cur) && !mode.InValue? && !st.Lt?
    requires ByteType(enc, s[i]) !in {QUOT, APOS, GT, SOL}
    ensures Turned(enc, s, i, end, st, mode, cur, st')
  {
    hide Idle, Scan, Spans, ByteType, CharLen, TurnMode, TurnAttribute, Fit, NameStarter, IsSpace, Related, Pending;
    st' := PlainMove(enc, s, i, end, st, mode.InName?, cur.name, cur.value);
    TagTurns(enc, s, i, mode, cur);
    BlankNoName(ByteType(enc, s[i]));
    if !(mode.Other? && NameStarter(ByteType(enc, s[i]))) {
      TagIdle(enc, s, i, mode);
    }
  }

  lemma Turning(enc: Enc, s: Text, i: nat, end: nat, st: State, mode: Mode, cur: Attribute) returns (st': State)
    requires i < end && Doing(enc, s, i, end, st, mode, cur) && !Returns(enc, s, i, mode)
    ensures Turned(enc, s, i, end, st, mode, cur, st')
  {
    hide Turned, ByteType;
    if mode.InValue? {
      if st.InRef? {
        st' := TurnInRef(enc, s, i, end, st, mode, cur);
      } else {
        st' := TurnInValue(enc, s, i, end, st, mode, cur);
      }
    } else if st.Lt? {
      st' := InTag(TagName(false));
      TurnFirst(enc, s, i, end, mode, cur);
    } else if ByteType(enc, s[i]) == QUOT || ByteType(enc, s[i]) == APOS {
      st' := TurnQuote(enc, s, i, end, st, mode, cur);
    } else {
      st' := TurnPlain(enc, s, i, end, st, mode, cur);
    }
  }

  lemma TurnFirst(enc: Enc, s: Text, i: nat, end: nat, mode: Mode, cur: Attribute)
    requires i < end && Doing(enc, s, i, end, Lt, mode, cur) && mode.InName?
    ensures Turned(enc, s, i, end, Lt, mode, cur, InTag(TagName(false)))
  {
    hide Idle, Scan, Spans, ByteType, CharLen, TurnMode, TurnAttribute;
    FirstChar(enc, s, i, end, cur.name, cur.value);
    TagTurns(enc, s, i, mode, cur);
    TagIdle(enc, s, i, mode);
  }

  /** When the loop returns, no attribute is left. */
  lemma Returning(enc: Enc, s: Text, i: nat, end: nat, st: State, mode: Mode, cur: Attribute)
    requires i < end && Doing(enc, s, i, end, st, mode, cur) && Returns(enc, s, i, mode)
    ensures Spans(enc, st, s, i, end, cur.name, cur.value) == [] && !Pending(st)
  {
    hide Scan, Spans, CharLen, Fit, ByteType, Pending;
    if st.Lt? {
      FirstChar(enc, s, i, end, cur.name, cur.value);
      assert false;
    }
    TagReturns(enc, s, i, end, st, mode.InName?, cur.name, cur.value);
  }

  lemma TagReturns(enc: Enc, s: Text, i: nat, end: nat, st: State, named: bool, name: nat, value: nat)
    requires i < end <= |s| && Related(st, named) && Scan(enc, st, s, i, end).Tok? && ByteType(enc, s[i]) in {GT, SOL}
    ensures Spans(enc, st, s, i, end, name, value) == [] && !Pending(st)
  {
    hide Scan, Look, CharStep, Spans, CharLen, ByteType, Related, Pending, NameStarter, IsSpace;
    InTagOnly(st, named);
    ScanMove(enc, st, s, i, end);
    SpansUnfold(enc, st, s, i, end, name, value);
    TagChar(enc, st, s, i, end, named);
    ReturnsEarly(enc, st, s, i, end, named);
    var m := CharStep(st, Look(enc, s, i, end));
    if m.Go? {
      SolSpans(enc, m.st, s, i + m.n, end, name, value);
    }
  }

  lemma ReturnsEarly(enc: Enc, st: State, s: Text, i: nat, end: nat, named: bool)
    requires i < end <= |s| && Related(st, named) && ByteType(enc, s[i]) in {GT, SOL}
    ensures
      var m := CharStep(st, Look(enc, s, i, end));
      m.Go? || m.Accept? ==> !Pending(st)
  {
    hide ByteType, Look;
    LookKinds(enc, s, i, end);
  }

  lemma SolSpans(enc: Enc, st: State, s: Text, i: nat, end: nat, name: nat, value: nat)
    requires i <= end <= |s| && st.InTag? && st.tag.TagSol?
    ensures Spans(enc, st, s, i, end, name, value) == []
  {
    hide Look;
    if i < end { SpansUnfold(enc, st, s, i, end, name, value); }
  }

  /** There is a character to read, and after a blank in a value another. */
  lemma InRange(enc: Enc, s: Text, i: nat, end: nat, st: State, mode: Mode, cur: Attribute)
    requires Doing(enc, s, i, end, st, mode, cur)
    ensures i < end <= |s| && QuoteOk(mode)
    ensures mode.InValue? && ByteType(enc, s[i]) == S ==> i + 1 < end
  {
    hide Scan, Fit, Spoils, ByteType, Look, CharStep;
    ScanEmpty(enc, st, s, i);
    ScanMove(enc, st, s, i, end);
    if mode.InValue? && ByteType(enc, s[i]) == S {
      A.BlankLen(enc, s[i]);
      ValueChar(enc, s, i, end, mode.quote);
      if st.InRef? {
        NoSpaceInRef(enc, st.ref, mode.quote, s, i, end);
      }
      ScanEmpty(enc, InAtt(AttValue(mode.quote)), s, i + 1);
    }
  }

  lemma NoSpaceInRef(enc: Enc, p: RefPlace, open: ByteClass, s: Text, i: nat, end: nat)
    requires i < end <= |s| && ByteType(enc, s[i]) == S
    ensures
      var m := CharStep(InRef(p, Quote(open)), Look(enc, s, i, end));
      !m.Go? && !m.Accept?
  {
    var v := Look(enc, s, i, end);
    assert v.c == S && v.b != X_CHAR;
    assert v.nmstrt == NotCovered && v.name == NotCovered;
    match p
    case RefStart =>
    case RefName =>
    case CharRefStart =>
    case CharRefDec =>
    case CharRefHex0 =>
    case CharRefHex =>
  }

  /** One turn of the loop: the switch on the byte type at `ptr`. */
  method Switch(enc: Enc, s: Text, ptr: nat, state: Mode, nAtts: nat, attsMax: nat, atts: array<Attribute>)
      returns (state': Mode, nAtts': nat, ptr': nat)
    requires attsMax <= atts.Length && ptr < |s|
    requires state.InValue? && ByteType(enc, s[ptr]) == S ==> ptr + 1 < |s|
    requires QuoteOk(state)
    modifies atts
    ensures state' == TurnMode(enc, s, ptr, state) && ptr' == ptr + CharLen(enc, s[ptr])
    ensures nAtts' == nAtts + if Closes(enc, s, ptr, state) then 1 else 0
    ensures Switched(enc, s, ptr, state, nAtts, attsMax, old(atts[..]), atts[..])
  {
    state', nAtts', ptr' := state, nAtts, ptr + 1;
    var c := ByteType(enc, s[ptr]);
    if NameStarter(c) {
      if state.Other? {
        if nAtts < attsMax { atts[nAtts] := atts[nAtts].(name := ptr, normalized := true); }
        state' := InName;
      }
      if LeadLen(c) > 0 { ptr' := ptr + LeadLen(c); }
    } else if c == QUOT || c == APOS {
      if !state.InValue? {
        if nAtts < attsMax { atts[nAtts] := atts[nAtts].(value := ptr + 1); }
        state' := InValue(c);
      } else if state.quote == c {
        state' := Other;
        if nAtts < attsMax { atts[nAtts] := atts[nAtts].(valueEnd := ptr); }
        nAtts' := nAtts + 1;
      }
    } else if c == AMP {
      if nAtts < attsMax { atts[nAtts] := atts[nAtts].(normalized := false); }
    } else if c == S {
      if state.InName? {
        state' := Other;
      } else if state.InValue? && nAtts < attsMax && atts[nAtts].normalized
                && (ptr == atts[nAtts].value || s[ptr] != 0x20 || s[ptr + 1] == 0x20 ||
                  ByteType(enc, s[ptr + 1]) == state.quote) {
        atts[nAtts] := atts[nAtts].(normalized := false);
      }
    } else if c == CR || c == LF {
      if state.InName? {
        state' := Other;
      } else if state.InValue? && nAtts < attsMax {
        atts[nAtts] := atts[nAtts].(normalized := false);
      }
    }
  }

  /** The slot being filled in agrees with the attribute at hand, as far as it has come. */
  predicate Agrees(slot: Attribute, cur: Attribute, st: State, mode: Mode)
  {
    (Begun(st, mode) ==>
      && slot.name == cur.name && slot.normalized == cur.normalized
      && (mode.InValue? ==> slot.value == cur.value))
  }

  lemma AgreesOn(enc: Enc, s: Text, i: nat, slot: Attribute, cur: Attribute, st: State, mode: Mode, st': State)
    requires i < |s| && Agrees(slot, cur, st, mode)
    requires
      var mode' := TurnMode(enc, s, i, mode);
      && (Begun(st', mode') ==> Begun(st, mode) || (mode.Other? && NameStarter(ByteType(enc, s[i]))))
      && (mode'.InValue? && !mode.InValue? ==> Pending(st))
    ensures
      var slot', cur' := TurnAttribute(enc, s, i, mode, slot), TurnAttribute(enc, s, i, mode, cur);
      && Agrees(slot', cur', st', TurnMode(enc, s, i, mode))
      && (Closes(enc, s, i, mode) ==> slot' == cur')
  {
    hide ByteType;
  }

  ghost predicate Reported(enc: Enc, s: Text, found: seq<Span>, attsMax: nat, atts: seq<Attribute>)
    requires attsMax <= |atts|
  {
    forall k :: 0 <= k < |found| && k < attsMax ==> Reports(enc, s, found[k], atts[k])
  }

  /** The slots from `from` on are as they were. */
  predicate Untouched(from: nat, was: seq<Attribute>, atts: seq<Attribute>)
    requires |was| == |atts|
  {
    forall k :: from <= k < |atts| ==> atts[k] == was[k]
  }

  /** What a turn leaves in the array. */
  predicate Switched(enc: Enc, s: Text, i: nat, mode: Mode, n: nat, attsMax: nat, was: seq<Attribute>,
      now: seq<Attribute>)
    requires i < |s| && attsMax <= |was| == |now|
  {
    && (n < attsMax ==> now[n] == TurnAttribute(enc, s, i, mode, was[n]))
    && forall k :: 0 <= k < |was| && (k != n || n >= attsMax) ==> now[k] == was[k]
  }

  /** The loop at `i` has found `found`, and the automaton will find `rest`. */
  ghost predicate Going(enc: Enc, s: Text, i: nat, end: nat, st: State, mode: Mode, cur: Attribute,
                        found: seq<Span>, all: seq<Span>, attsMax: nat, before: seq<Attribute>, now: seq<Attribute>)
  {
    && i <= end <= |s| && attsMax <= |now| == |before|
    && Doing(enc, s, i, end, st, mode, cur)
    && found + Spans(enc, st, s, i, end, cur.name, cur.value) == all
    && Reported(enc, s, found, attsMax, now)
    && (|found| < attsMax ==> Agrees(now[|found|], cur, st, mode))
    && Untouched(|found| + if Begun(st, mode) then 1 else 0, before, now)
  }

  lemma Starting(enc: Enc, s: Text, start: nat, end: nat, cur: Attribute, attsMax: nat, atts: seq<Attribute>)
    requires start < end <= |s| && ByteType(enc, s[start]) == LT && IsTag(ContentTok(enc, s, start, end))
    requires attsMax <= |atts|
    ensures Going(enc, s, start + 1, end, Lt, InName, cur, [], Spans(enc, Lt, s, start + 1, end, cur.name, cur.value),
      attsMax, atts, atts)
  {
    hide Scan, ByteType, Spans;
  }

  lemma Returned(enc: Enc, s: Text, i: nat, end: nat, st: State, mode: Mode, cur: Attribute,
                 found: seq<Span>, all: seq<Span>, attsMax: nat, before: seq<Attribute>, now: seq<Attribute>)
    requires i < end <= |s| && Returns(enc, s, i, mode)
    requires Going(enc, s, i, end, st, mode, cur, found, all, attsMax, before, now)
    ensures found == all && attsMax <= |now| == |before| && Reported(enc, s, all, attsMax, now)
    ensures Untouched(|all|, before, now)
  {
    hide Doing, Spans, ByteType, Reported, Untouched;
    Returning(enc, s, i, end, st, mode, cur);
  }

  lemma GoingInRange(enc: Enc, s: Text, i: nat, end: nat, st: State, mode: Mode, cur: Attribute,
                     found: seq<Span>, all: seq<Span>, attsMax: nat, before: seq<Attribute>, now: seq<Attribute>)
    requires Going(enc, s, i, end, st, mode, cur, found, all, attsMax, before, now)
    ensures i < end <= |s| && QuoteOk(mode)
    ensures mode.InValue? && ByteType(enc, s[i]) == S ==> i + 1 < end
  {
    hide Doing, Spans, ByteType;
    InRange(enc, s, i, end, st, mode, cur);
  }

  /** A turn keeps what has been reported, and reports the attribute whose value it closes. */
  lemma Kept(enc: Enc, s: Text, i: nat, end: nat, st: State, mode: Mode, cur: Attribute,
             found: seq<Span>, all: seq<Span>, attsMax: nat, before: seq<Attribute>, was: seq<Attribute>,
               now: seq<Attribute>)
      returns (st': State, found': seq<Span>)
    requires i < end <= |s| && !Returns(enc, s, i, mode)
    requires Going(enc, s, i, end, st, mode, cur, found, all, attsMax, before, was)
    requires |was| == |now| && Switched(enc, s, i, mode, |found|, attsMax, was, now)
    ensures |found'| == |found| + if Closes(enc, s, i, mode) then 1 else 0
    ensures Going(enc, s, i + CharLen(enc, s[i]), end, st', TurnMode(enc, s, i, mode),
      TurnAttribute(enc, s, i, mode, cur),
                  found', all, attsMax, before, now)
  {
    hide Doing, Spans, TurnMode, TurnAttribute, CharLen, ByteType, NameStarter, Pending, Reports;
    st' := Turning(enc, s, i, end, st, mode, cur);
    var mode', cur' := TurnMode(enc, s, i, mode), TurnAttribute(enc, s, i, mode, cur);
    if |found| < attsMax {
      AgreesOn(enc, s, i, was[|found|], cur, st, mode, st');
    }
    found' := found + if Closes(enc, s, i, mode) then [Span(cur'.name, cur'.value, cur'.valueEnd)] else [];
  }

  /** getAtts, on the tag whose '<' is at `start`. */
  method GetAtts(enc: Enc, s: Text, start: nat, ghost end: nat, attsMax: nat, atts: array<Attribute>)
      returns (nAtts: nat)
    requires start < end <= |s| && ByteType(enc, s[start]) == LT && IsTag(ContentTok(enc, s, start, end))
    requires attsMax <= atts.Length
    modifies atts
    ensures nAtts == |Spans(enc, Lt, s, start + 1, end, 0, 0)|
    ensures Reported(enc, s, Spans(enc, Lt, s, start + 1, end, 0, 0), attsMax, atts[..])
    ensures Untouched(nAtts, old(atts[..]), atts[..])
  {
    hide *;
    var ptr, state := start + 1, InName;
    nAtts := 0;
    ghost var st, cur, found: seq<Span> := Lt, Attribute(0, 0, 0, true), [];
    ghost var all, before := Spans(enc, Lt, s, start + 1, end, 0, 0), atts[..];
    Starting(enc, s, start, end, cur, attsMax, atts[..]);
    while true
      invariant Going(enc, s, ptr, end, st, state, cur, found, all, attsMax, before, atts[..])
      invariant nAtts == |found|
      decreases end - ptr
    {
      GoingInRange(enc, s, ptr, end, st, state, cur, found, all, attsMax, before, atts[..]);
      if Returns(enc, s, ptr, state) {
        Returned(enc, s, ptr, end, st, state, cur, found, all, attsMax, before, atts[..]);
        return;
      }
      ghost var was, i, mode := atts[..], ptr, state;
      state, nAtts, ptr := Switch(enc, s, ptr, state, nAtts, attsMax, atts);
      st, found := Kept(enc, s, i, end, st, mode, cur, found, all, attsMax, before, was, atts[..]);
      cur := TurnAttribute(enc, s, i, mode, cur);
    }
  }

  // ------------------------------------------------------------- the fast path

  /** A value as the automaton delimits it: it ends at its quote and attributeValueTok accepts it. */
  ghost predicate Sound(enc: Enc, s: Text, end: nat, sp: Span)
    requires end <= |s|
  {
    && sp.value <= sp.valueEnd < end
    && (ByteType(enc, s[sp.valueEnd]) == QUOT || ByteType(enc, s[sp.valueEnd]) == APOS)
    && Proper(enc, s, sp.value, sp.valueEnd)
  }

  predicate TagState(st: State)
  {
    Related(st, true) || Related(st, false) || InValueOf(st, QUOT) || InValueOf(st, APOS) ||
      (st.InTag? && st.tag.TagSol?)
  }

  /** Where a step from inside a tag may lead. */
  predicate StepsOn(st: State, m: Move)
  {
    m.Go? ==>
      && TagState(m.st)
      && (m.st == InAtt(AttEnd) ==> Within(st))
      && (m.st.InAtt? && m.st.att.AttValue? ==> m.st.att.open == QUOT || m.st.att.open == APOS)
      && (m.st == InAtt(AttEnd) ==> st.InAtt?)
      && (Within(m.st) && !ValueBegins(st, m.st) ==> Within(st))
  }

  lemma TagStateStep(enc: Enc, st: State, s: Text, i: nat, end: nat)
    requires i < end <= |s| && TagState(st)
    ensures StepsOn(st, CharStep(st, Look(enc, s, i, end)))
  {
    hide Look, TagStep, AttStep, RefStep, StepsOn;
    var v := Look(enc, s, i, end);
    match st
    case InTag(p) => TagPlaceStep(p, v);
    case InAtt(p) => AttPlaceStep(p, v);
    case InRef(p, ctx) => RefPlaceStep(p, ctx, v);
    case _ =>
  }

  lemma TagPlaceStep(p: TagPlace, v: View)
    requires TagState(InTag(p))
    ensures StepsOn(InTag(p), TagStep(p, v))
  {
  }

  lemma AttPlaceStep(p: AttPlace, v: View)
    requires TagState(InAtt(p))
    ensures StepsOn(InAtt(p), AttStep(p, v))
  {
  }

  lemma RefPlaceStep(p: RefPlace, ctx: Quote, v: View)
    requires TagState(InRef(p, ctx))
    ensures StepsOn(InRef(p, ctx), RefStep(p, ctx, v))
  {
  }

  predicate Within(st: State) { st.InRef? || (st.InAtt? && st.att.AttValue?) }

  /** Every value in an accepted tag is sound; the one the automaton is inside of comes first and is left out. */
  lemma {:induction false} SpansSound(enc: Enc, st: State, s: Text, i: nat, end: nat, name: nat, value: nat)
    requires i <= end <= |s| && TagState(st) && Scan(enc, st, s, i, end).Tok?
    ensures
      var sp := Spans(enc, st, s, i, end, name, value);
      forall k :: (if Within(st) then 1 else 0) <= k < |sp| ==> Sound(enc, s, end, sp[k])
    decreases end - i
  {
    hide Scan, Look, CharStep, Spans, TagState, Sound, ByteType;
    ScanEmpty(enc, st, s, i);
    TagNotCdata(st);
    ScanMove(enc, st, s, i, end);
    SpansUnfold(enc, st, s, i, end, name, value);
    TagStateStep(enc, st, s, i, end);
    var m := CharStep(st, Look(enc, s, i, end));
    if m.Go? {
      var name', value' := if NameBegins(st, m.st) then i else name, if ValueBegins(st, m.st) then i + m.n else value;
      SpansSound(enc, m.st, s, i + m.n, end, name', value');
      if ValueBegins(st, m.st) {
        FirstSound(enc, s, i + m.n, end, m.st.att.open, name');
      }
    }
  }

  lemma TagNotCdata(st: State)
    requires TagState(st)
    ensures !st.Cdata?
  {
  }

  lemma FirstSound(enc: Enc, s: Text, i: nat, end: nat, open: ByteClass, name: nat)
    requires i <= end <= |s| && (open == QUOT || open == APOS) && Scan(enc, InAtt(AttValue(open)), s, i, end).Tok?
    ensures
      var sp := Spans(enc, InAtt(AttValue(open)), s, i, end, name, i);
      sp != [] && Sound(enc, s, end, sp[0])
  {
    hide Scan, Spans, Proper, ByteType;
    ValueScan(enc, InAtt(AttValue(open)), s, i, end, open, name, i);
  }

  /** Every value that contentTok accepts is sound. */
  lemma TagSound(enc: Enc, s: Text, start: nat, end: nat)
    requires start < end <= |s| && ByteType(enc, s[start]) == LT && IsTag(ContentTok(enc, s, start, end))
    ensures
      var sp := Spans(enc, Lt, s, start + 1, end, 0, 0);
      forall k :: 0 <= k < |sp| ==> Sound(enc, s, end, sp[k])
  {
    hide Scan, Spans, Sound, ByteType;
    FirstChar(enc, s, start + 1, end, 0, 0);
    SpansSound(enc, InTag(TagName(false)), s, start + 1 + CharLen(enc, s[start + 1]), end, 0, 0);
  }

  lemma TagSoundAt(enc: Enc, s: Text, start: nat, end: nat, k: nat)
    requires start < end <= |s| && ByteType(enc, s[start]) == LT && IsTag(ContentTok(enc, s, start, end))
    requires k < |Spans(enc, Lt, s, start + 1, end, 0, 0)|
    ensures Sound(enc, s, end, Spans(enc, Lt, s, start + 1, end, 0, 0)[k])
  {
    hide Scan, Spans, Sound, ByteType;
    TagSound(enc, s, start, end);
  }

  /** A fit value has nothing to replace. */
  lemma {:induction false} ReplaceFit(env: A.Env, expanding: set<Text>, enc: Enc, s: Text, vp: nat, i: nat, end: nat,
      open: ByteClass)
    requires vp <= i <= end <= |s| && Proper(enc, s, i, end) && Fit(enc, s, vp, end, open)
    ensures A.Replace(env, expanding, enc, s, i, end) == A.Val(s[i..end])
    decreases end - i
  {
    hide Scan, A.PlainEnd, ByteType, Fit;
    if i < end {
      FitAt(enc, s, vp, i, end, open);
      var next := A.ValueTokAt(enc, s, i, end).next;
      ReplaceFit(env, expanding, enc, s, vp, next, end, open);
      assert s[i..next] + s[next..end] == s[i..end];
      assert ByteType(enc, s[i]) == S ==> s[i..next] == [A.SPACE];
    }
  }

  lemma FitAt(enc: Enc, s: Text, vp: nat, i: nat, end: nat, open: ByteClass)
    requires vp <= i < end <= |s| && Fit(enc, s, vp, end, open)
    ensures ByteType(enc, s[i]) !in {AMP, CR, LF} && (ByteType(enc, s[i]) == S ==> s[i] == A.SPACE)
  {
    assert !Spoils(enc, s, vp, i, open);
    hide ByteType;
  }

  /** In a fit value each space stands alone between two other characters. */
  lemma FitSpaces(enc: Enc, s: Text, vp: nat, i: nat, end: nat, open: ByteClass)
    requires vp <= i < end < |s| && Fit(enc, s, vp, end, open) && s[i] == A.SPACE
    requires ByteType(enc, s[end]) == open
    ensures vp < i && i + 1 < end && s[i + 1] != A.SPACE
  {
    assert !Spoils(enc, s, vp, i, open);
    A.SpaceIsBlank(enc);
    hide ByteType;
  }

  /** Spaces that stand alone survive tokenising. */
  lemma {:induction false} PutAlone(b: Text)
    requires forall k :: 0 <= k < |b| && b[k] == A.SPACE ==> 0 < k && b[k - 1] != A.SPACE
    ensures A.PutAll(false, [], b) == b
  {
    if b != [] {
      var front := b[..|b| - 1];
      PutAlone(front);
      assert b == front + [b[|b| - 1]];
    }
  }

  lemma TokenisedAlone(b: Text)
    requires forall k :: 0 <= k < |b| && b[k] == A.SPACE ==> 0 < k && k + 1 < |b| && b[k - 1] != A.SPACE
    ensures A.Tokenised(b) == b
  {
    hide A.Tokenised;
    PutAlone(b);
    A.StreamingIsTwoPhase(b);
  }

  /**
    Every value that contentTok accepts is clean, and one that getAtts calls normalized
    is its own replacement and its own tokenised form.
  */
  lemma FastPath(env: A.Env, expanding: set<Text>, enc: Enc, s: Text, start: nat, end: nat, k: nat, a: Attribute)
    requires start < end <= |s| && ByteType(enc, s[start]) == LT && IsTag(ContentTok(enc, s, start, end))
    requires k < |Spans(enc, Lt, s, start + 1, end, 0, 0)|
    requires Reports(enc, s, Spans(enc, Lt, s, start + 1, end, 0, 0)[k], a)
    ensures a.valueEnd < end && A.Clean(enc, s, a.value, a.valueEnd)
    ensures a.normalized ==>
      var raw := s[a.value..a.valueEnd];
      A.Replace(env, expanding, enc, s, a.value, a.valueEnd) == A.Val(raw) && A.Tokenised(raw) == raw
  {
    hide Scan, Spans, Proper, ByteType, Fit, A.Clean, A.Replace, A.Tokenised;
    TagSound(enc, s, start, end);
    ProperIsClean(enc, s, a.value, a.valueEnd);
    if a.normalized {
      var open := ByteType(enc, s[a.valueEnd]);
      ReplaceFit(env, expanding, enc, s, a.value, a.value, a.valueEnd, open);
      RawTokenised(enc, s, a.value, a.valueEnd, open);
    }
  }

  lemma RawTokenised(enc: Enc, s: Text, vp: nat, end: nat, open: ByteClass)
    requires vp <= end < |s| && Fit(enc, s, vp, end, open) && ByteType(enc, s[end]) == open
    ensures A.Tokenised(s[vp..end]) == s[vp..end]
  {
    hide ByteType, Fit, A.Tokenised;
    var raw := s[vp..end];
    forall k | 0 <= k < |raw| && raw[k] == A.SPACE ensures 0 < k && k + 1 < |raw| && raw[k - 1] != A.SPACE {
      FitSpaces(enc, s, vp, vp + k, end, open);
      if raw[k - 1] == A.SPACE {
        FitSpaces(enc, s, vp, vp + k - 1, end, open);
      }
    }
    TokenisedAlone(raw);
  }

  // ------------------------------------------------------------------ the tag alone

  lemma TagStateLen(enc: Enc, st: State, s: Text, i: nat, end: nat)
    requires i < end <= |s| && TagState(st)
    ensures
      var m := CharStep(st, Look(enc, s, i, end));
      && (m.Go? ==> m.n == CharLen(enc, s[i]))
      && (m.Accept? ==> m.an == 1 == CharLen(enc, s[i]))
  {
    hide ByteType, Look, LookKind, CharLen, TagStep, AttStep, RefStep;
    LookKinds(enc, s, i, end);
    DataKind(enc, s, i, end);
    GtLen(enc, s[i]);
    var v, n := Look(enc, s, i, end), CharLen(enc, s[i]);
    match st
    case InTag(p) => TagPlaceLen(p, v, n);
    case InAtt(p) => AttPlaceLen(p, v, n);
    case InRef(p, ctx) => RefPlaceLen(p, ctx, v, n);
    case _ =>
  }

  predicate Lengths(v: View, n: nat)
  {
    && LookKind(v, n) && (v.data.Fits? ==> v.data.n == n) && (v.data.NotCovered? ==> n == 1)
    && (v.c in {GT, SOL, QUOT, APOS, AMP, NUM, SEMI, DIGIT, HEX} || v.b == GT_CHAR || v.b == X_CHAR ==> n == 1)
  }

  predicate MovesBy(m: Move, n: nat) { (m.Go? ==> m.n == n) && (m.Accept? ==> m.an == n == 1) }

  lemma TagPlaceLen(p: TagPlace, v: View, n: nat)
    requires Lengths(v, n)
    ensures MovesBy(TagStep(p, v), n)
  {
  }

  lemma AttPlaceLen(p: AttPlace, v: View, n: nat)
    requires Lengths(v, n) && TagState(InAtt(p))
    ensures MovesBy(AttStep(p, v), n)
  {
  }

  lemma RefPlaceLen(p: RefPlace, ctx: Quote, v: View, n: nat)
    requires Lengths(v, n)
    ensures MovesBy(RefStep(p, ctx, v), n)
  {
  }

  lemma DataKind(enc: Enc, s: Text, i: nat, end: nat)
    requires i < end <= |s|
    ensures
      var v := Look(enc, s, i, end);
      && (v.data.Fits? ==> v.data.n == CharLen(enc, s[i]))
      && (v.data.NotCovered? ==> CharLen(enc, s[i]) == 1)
  {
    hide ByteType, InvalidChar;
  }

  lemma GtLen(enc: Enc, b: Byte)
    ensures ByteType(enc, b) in {GT, SOL, QUOT, APOS, COLON, EQUALS, AMP, NUM, SEMI, DIGIT, HEX, S, CR, LF} ==>
      CharLen(enc, b) == 1
    ensures b == GT_CHAR || b == X_CHAR ==> CharLen(enc, b) == 1
  {
  }

  /** A tag's end is decided by its own bytes. */
  lemma {:induction false} TagShorten(enc: Enc, st: State, s: Text, i: nat, end: nat)
    requires i <= end <= |s| && TagState(st) && Scan(enc, st, s, i, end).Tok?
    ensures
      var r := Scan(enc, st, s, i, end);
      Scan(enc, st, s, i, r.next) == r
    decreases end - i
  {
    hide Scan, Look, CharStep, TagState, CharLen;
    ScanEmpty(enc, st, s, i);
    TagNotCdata(st);
    ScanMove(enc, st, s, i, end);
    TagStateStep(enc, st, s, i, end);
    TagStateLen(enc, st, s, i, end);
    var r, m := Scan(enc, st, s, i, end), CharStep(st, Look(enc, s, i, end));
    if m.Go? {
      TagShorten(enc, m.st, s, i + m.n, end);
    }
    LookShort(enc, s, i, r.next, end);
    ScanMove(enc, st, s, i, r.next);
  }

  lemma LtShorten(enc: Enc, s: Text, i: nat, end: nat)
    requires i <= end <= |s| && IsTag(Scan(enc, Lt, s, i, end))
    ensures
      var r := Scan(enc, Lt, s, i, end);
      Scan(enc, Lt, s, i, r.next) == r
  {
    hide Scan, Look, CharStep, CharLen, ByteType, Spans;
    FirstChar(enc, s, i, end, 0, 0);
    var r, n := Scan(enc, Lt, s, i, end), CharLen(enc, s[i]);
    TagShorten(enc, InTag(TagName(false)), s, i + n, end);
    LtGoes(enc, s, i, end);
    LookShort(enc, s, i, r.next, end);
    ScanMove(enc, Lt, s, i, r.next);
  }

  lemma LtGoes(enc: Enc, s: Text, i: nat, end: nat)
    requires i < end <= |s| && IsTag(Scan(enc, Lt, s, i, end))
    ensures CharStep(Lt, Look(enc, s, i, end)) == Go(InTag(TagName(false)), CharLen(enc, s[i]))
  {
    hide Scan, Look, CharStep, CharLen, ByteType;
    ScanMove(enc, Lt, s, i, end);
    LtChar(enc, s, i, end);
    var m := CharStep(Lt, Look(enc, s, i, end));
    if m.Go? && NoTag(m.st) {
      NoTagScan(enc, m.st, s, i + m.n, end);
    }
  }
}
