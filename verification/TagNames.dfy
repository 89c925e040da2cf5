/**
  The names in tags, read off the bytes alone: a name runs to the first blank, slash, equals
  sign or `>`. The automaton, nameLength and the stack of open elements are all shown to
  mean this name; so an accepted end tag spells the name of the start tag that it closes.
*/
module TagNames {
  import opened Scanner
  import opened Tokenizer
  import opened Tokens
  import T = StartTag
  import C = Content

  predicate Blank(b: Byte) { b == 0x20 || b == 0x9 || b == 0xA || b == 0xD }

  const SLASH: Byte := 0x2F

  const EQUAL: Byte := 0x3D

  const GREATER: Byte := 0x3E

  predicate Stops(b: Byte) { Blank(b) || b == SLASH || b == EQUAL || b == GREATER }

  predicate Letter(b: Byte) { 0x41 <= b <= 0x5A || 0x61 <= b <= 0x7A }

  /** A byte that a name may begin with: a letter, an underscore, or part of a character beyond ASCII. */
  predicate NameStart(b: Byte) { Letter(b) || b == 0x5F || b >= 0xC0 }

  /** A byte that may begin a character of a name: also digits, dot, hyphen and colon. */
  predicate NameByte(b: Byte) { NameStart(b) || 0x30 <= b <= 0x3A || b == 0x2D || b == 0x2E }

  /** How many bytes a character has by its first one. */
  function Width(b: Byte): nat { if b < 0xC0 then 1 else if b < 0xE0 then 2 else if b < 0xF0 then 3 else 4 }

  /** The first place, character by character, where a name ends. */
  function NameStop(s: Text, i: nat, end: nat): (n: nat)
    requires i <= end <= |s|
    ensures i <= n <= end
    decreases end - i
  {
    if i == end || Stops(s[i]) then i
    else if i + Width(s[i]) <= end then NameStop(s, i + Width(s[i]), end)
    else end
  }

  /** Characters of a name from `i` to `n`, each whole. */
  ghost predicate NameChars(s: Text, i: nat, n: nat)
    requires n <= |s|
    decreases n - i
  {
    i == n || (i < n && NameByte(s[i]) && i + Width(s[i]) <= n && NameChars(s, i + Width(s[i]), n))
  }

  // ------------------------------------------------------------------ the scan

  predicate InName(st: State)
  {
    match st
    case InTag(TagName(_)) => true
    case InTag(TagColon) => true
    case InAtt(AttName(_)) => true
    case InAtt(AttColon) => true
    case InEnd(EndName) => true
    case _ => false
  }

  /** The state that the character after the name leads to. */
  predicate NameEnds(st: State, b: Byte)
  {
    match st
    case InTag(_) => Blank(b) || b == SLASH || b == GREATER
    case InAtt(_) => Blank(b) || b == EQUAL
    case _ => Blank(b) || b == GREATER
  }

  lemma ClassBytes(enc: Enc, b: Byte)
    ensures
      var c := ByteType(enc, b);
      && (IsSpace(c) <==> Blank(b)) && (c == SOL <==> b == SLASH) && (c == EQUALS <==> b == EQUAL) &&
        (c == GT <==> b == GREATER)
      && (T.NameStarter(c) ==> NameStart(b)) && (T.NameStarter(c) || c in {DIGIT, NAME, MINUS, COLON} ==> NameByte(b))
      && (T.NameStarter(c) || c in {DIGIT, NAME, MINUS, COLON} ==> Width(b) == CharLen(enc, b) && !Stops(b))
  {
  }

  /** One step inside a name: on within it, or the end of it. */
  lemma NameStep(enc: Enc, st: State, s: Text, i: nat, end: nat)
    requires i < end <= |s| && InName(st)
    ensures
      var m, c := CharStep(st, Look(enc, s, i, end)), ByteType(enc, s[i]);
      && (m.Go? && InName(m.st) ==>
            && m.n == CharLen(enc, s[i]) && (T.NameStarter(c) || c in {DIGIT, NAME, MINUS, COLON})
            && (forall b: Byte :: NameEnds(m.st, b) ==> NameEnds(st, b)))
      && ((m.Go? && !InName(m.st)) || m.Accept? ==>
        NameEnds(st, s[i]) && st != InTag(TagColon) && st != InAtt(AttColon))
  {
    hide ByteType, Look;
    T.LookKinds(enc, s, i, end);
    ClassBytes(enc, s[i]);
  }

  /** What nameLength and the walk over the bytes do at a character. */
  lemma NameEndStep(enc: Enc, s: Text, i: nat, end: nat)
    requires i < end <= |s|
    ensures
      var c := ByteType(enc, s[i]);
      && (Stops(s[i]) ==> NameStop(s, i, end) == i && C.NameEnd(enc, s, i, end) == i)
      && ((T.NameStarter(c) || c in {DIGIT, NAME, MINUS, COLON}) && i + CharLen(enc, s[i]) <= end ==>
            && NameStop(s, i, end) == NameStop(s, i + CharLen(enc, s[i]), end)
            && C.NameEnd(enc, s, i, end) == C.NameEnd(enc, s, i + CharLen(enc, s[i]), end))
  {
    hide ByteType;
    ClassBytes(enc, s[i]);
    StopClass(enc, s[i]);
  }

  lemma StopClass(enc: Enc, b: Byte)
    ensures Stops(b) ==> ByteType(enc, b) in {S, CR, LF, SOL, EQUALS, GT}
  {
  }

  /** `n` is where the name from `i` ends, by the bytes and by nameLength. */
  ghost predicate Ended(enc: Enc, st: State, s: Text, i: nat, n: nat, next: nat)
  {
    && i <= n < next <= |s| && NameStop(s, i, next) == n && C.NameEnd(enc, s, i, next) == n
    && NameChars(s, i, n) && NameEnds(st, s[n])
  }

  /** No byte in between stops a name. */
  ghost predicate Plain(s: Text, i: nat, n: nat) { n <= |s| && forall k :: i <= k < n ==> !Stops(s[k]) }

  predicate IsChar(enc: Enc, t: Text)
  {
    2 <= |t| <= 3 && LeadLen(ByteType(enc, t[0])) == |t| && (enc.nmstrt(t) || enc.name(t))
  }

  /** No character beyond ASCII that the tests let into a name has a byte in it that stops one. */
  ghost predicate NoHidden(enc: Enc)
  {
    forall t: Text :: IsChar(enc, t) ==> forall k :: 1 <= k < |t| ==> !Stops(t[k])
  }

  /** The same of the characters that occur in a text. */
  ghost predicate Steady(enc: Enc, s: Text)
  {
    forall i: nat, j: nat :: i <= j <= |s| && IsChar(enc, s[i..j]) ==> forall k :: i < k < j ==> !Stops(s[k])
  }

  lemma AlwaysSteady(enc: Enc, s: Text)
    requires NoHidden(enc)
    ensures Steady(enc, s)
  {
    hide IsChar;
    forall i: nat, j: nat | i <= j <= |s| && IsChar(enc, s[i..j]) ensures forall k :: i < k < j ==> !Stops(s[k]) {
      var t := s[i..j];
      assert forall k :: i < k < j ==> s[k] == t[k - i];
    }
  }

  /** A character of several bytes that a test for names lets through. */
  lemma LookChars(enc: Enc, s: Text, i: nat, end: nat)
    requires i < end <= |s|
    ensures
      var v := Look(enc, s, i, end);
      && (v.nmstrt.Fits? && v.nmstrt.n > 1 ==> i + v.nmstrt.n <= end && IsChar(enc, s[i..i + v.nmstrt.n]))
      && (v.name.Fits? && v.name.n > 1 ==> i + v.name.n <= end && IsChar(enc, s[i..i + v.name.n]))
  {
    hide ByteType, InvalidChar;
  }

  lemma NameTests(enc: Enc, st: State, s: Text, i: nat, end: nat)
    requires i < end <= |s| &&
      (InName(st) || st == Lt || st == InEnd(EndStart) || st == InTag(TagSpace) || st == InAtt(AttBetween))
    ensures
      var m := CharStep(st, Look(enc, s, i, end));
      m.Go? && InName(m.st) && m.n > 1 ==> i + m.n <= end && IsChar(enc, s[i..i + m.n])
  {
    hide ByteType, CheckPiTarget, Look, IsChar;
    LookChars(enc, s, i, end);
  }

  lemma CharKeeps(enc: Enc, s: Text, i: nat, n: nat)
    requires i + n <= |s| && n >= 1 && Steady(enc, s) && !Stops(s[i]) && (n > 1 ==> IsChar(enc, s[i..i + n]))
    ensures Plain(s, i, i + n)
  {
    hide IsChar;
  }

  lemma PlainMore(s: Text, i: nat, m: nat, n: nat)
    requires Plain(s, i, m) && Plain(s, m, n)
    ensures Plain(s, i, n)
  {
  }

  /** From inside a name, a scan that ends well has run over the rest of the name. */
  lemma {:induction false} NameRun(enc: Enc, st: State, s: Text, i: nat, end: nat) returns (n: nat)
    requires i <= end <= |s| && InName(st) && Scan(enc, st, s, i, end).Tok?
    ensures Ended(enc, st, s, i, n, Scan(enc, st, s, i, end).next)
    ensures st == InTag(TagColon) || st == InAtt(AttColon) ==> i < n
    ensures Steady(enc, s) ==> Plain(s, i, n)
    decreases end - i
  {
    hide ByteType, Look, Scan, CharStep, NameEnds, CharLen, Steady, IsChar, Ended, Plain, InName;
    ScanEmpty(enc, st, s, end);
    NamePlace(st);
    ScanMove(enc, st, s, i, end);
    NameStep(enc, st, s, i, end);
    NameTests(enc, st, s, i, end);
    ClassBytes(enc, s[i]);
    var r, m := Scan(enc, st, s, i, end), CharStep(st, Look(enc, s, i, end));
    if m.Go? && InName(m.st) {
      if Steady(enc, s) {
        CharKeeps(enc, s, i, m.n);
      }
      n := NameRun(enc, m.st, s, i + m.n, end);
      EndedOn(enc, st, m.st, s, i, n, r.next);
      if Steady(enc, s) {
        PlainMore(s, i, i + m.n, n);
      }
    } else {
      n := i;
      EndedHere(enc, st, s, i, r.next);
    }
  }

  lemma NamePlace(st: State)
    requires InName(st)
    ensures !st.Cdata?
  {
  }

  /** One character more of the name. */
  lemma EndedOn(enc: Enc, st: State, st': State, s: Text, i: nat, n: nat, next: nat)
    requires i < |s| && next <= |s|
    requires T.NameStarter(ByteType(enc, s[i])) || ByteType(enc, s[i]) in {DIGIT, NAME, MINUS, COLON}
    requires Ended(enc, st', s, i + CharLen(enc, s[i]), n, next) && forall b: Byte :: NameEnds(st', b) ==>
      NameEnds(st, b)
    ensures Ended(enc, st, s, i, n, next) && i < n
  {
    hide ByteType, NameEnds, CharLen, NameStop, C.NameEnd;
    ClassBytes(enc, s[i]);
    NameEndStep(enc, s, i, next);
  }

  /** The end of the name. */
  lemma EndedHere(enc: Enc, st: State, s: Text, i: nat, next: nat)
    requires i < next <= |s| && NameEnds(st, s[i])
    ensures Ended(enc, st, s, i, i, next) && Plain(s, i, i)
  {
    hide ByteType, NameEnds, NameStop, C.NameEnd;
    StopsAt(st, s[i]);
    NameEndStep(enc, s, i, next);
  }

  lemma StopsAt(st: State, b: Byte)
    requires NameEnds(st, b)
    ensures Stops(b)
  {
  }

  // ----------------------------------------------------------------- the tokens

  /**
    A name stands from `i` to `n`: it begins like a name, goes on character by character
    through characters of names only, and ends at the first byte that stops one.
  */
  ghost predicate Named(s: Text, i: nat, n: nat, next: nat)
  {
    && i < n < next <= |s| && NameStart(s[i]) && NameChars(s, i, n) && Stops(s[n]) && NameStop(s, i, next) == n
  }

  /** The first character of a name, and the rest of it. */
  lemma NamedFrom(enc: Enc, st: State, s: Text, i: nat, n: nat, next: nat)
    requires i < |s| && T.NameStarter(ByteType(enc, s[i])) && i + CharLen(enc, s[i]) <= n
    requires InName(st) && Ended(enc, st, s, i + CharLen(enc, s[i]), n, next)
    ensures Named(s, i, n, next) && C.NameEnd(enc, s, i, next) == n && NameEnds(st, s[n])
  {
    hide ByteType, NameStop, C.NameEnd, NameEnds;
    ClassBytes(enc, s[i]);
    NameEndStep(enc, s, i, next);
    StopsAt(st, s[n]);
  }

  /** The name in a start tag or an empty-element tag. */
  lemma StartTagName(enc: Enc, s: Text, i: nat, end: nat) returns (n: nat)
    requires i < end <= |s| && T.IsTag(ContentTok(enc, s, i, end))
    ensures
      var next := ContentTok(enc, s, i, end).next;
      && s[i] == 0x3C && s[next - 1] == GREATER && Named(s, i + 1, n, next) && C.NameEnd(enc, s, i + 1, next) == n
      && (Blank(s[n]) || s[n] == SLASH || s[n] == GREATER) && (Steady(enc, s) ==> Plain(s, i + 1, n))
  {
    hide ByteType, Scan, ContentTok, Named, T.Spans, Steady, IsChar, CharLen, Look, CharStep, Plain, NameStop;
    hide C.NameEnd;
    Begins(enc, s, i, end);
    ScanLast(enc, Lt, s, i + 1, end);
    T.FirstChar(enc, s, i + 1, end, 0, 0);
    var k := i + 1 + CharLen(enc, s[i + 1]);
    n := NameRun(enc, InTag(TagName(false)), s, k, end);
    ScanMove(enc, Lt, s, i + 1, end);
    NameTests(enc, Lt, s, i + 1, end);
    LtMove(enc, s, i + 1, end);
    LtChar(enc, s, i + 1, end);
    FirstKeeps(enc, s, i + 1, n);
    NamedFrom(enc, InTag(TagName(false)), s, i + 1, n, ContentTok(enc, s, i, end).next);
  }

  /** The name in an end tag. */
  lemma EndTagName(enc: Enc, s: Text, i: nat, end: nat) returns (n: nat)
    requires i < end <= |s| && ContentTok(enc, s, i, end).Tok? && ContentTok(enc, s, i, end).tok == EndTag
    ensures
      var next := ContentTok(enc, s, i, end).next;
      && i + 2 < next && s[i] == 0x3C && s[i + 1] == SLASH && s[next - 1] == GREATER
      && Named(s, i + 2, n, next) && C.NameEnd(enc, s, i + 2, next) == n
      && (Blank(s[n]) || s[n] == GREATER) && (Steady(enc, s) ==> Plain(s, i + 2, n))
  {
    hide ByteType, Scan, ContentTok, Named, Look, CharStep, TestChar, CharLen, Steady, IsChar, Plain, NameStop;
    hide C.NameEnd;
    Begins(enc, s, i, end);
    ScanLast(enc, Lt, s, i + 1, end);
    ScanEmpty(enc, Lt, s, end);
    ScanMove(enc, Lt, s, i + 1, end);
    LtMove(enc, s, i + 1, end);
    var m := CharStep(Lt, Look(enc, s, i + 1, end));
    if m.Go? && m.st != InEnd(EndStart) {
      ScanKind(enc, m.st, s, i + 1 + m.n, end);
    }
    ScanEmpty(enc, InEnd(EndStart), s, end);
    EndStartMove(enc, s, i + 2, end);
    n := NameRun(enc, InEnd(EndName), s, i + 2 + CharLen(enc, s[i + 2]), end);
    FirstKeeps(enc, s, i + 2, n);
    NamedFrom(enc, InEnd(EndName), s, i + 2, n, ContentTok(enc, s, i, end).next);
  }

  /** The first character of a name is as plain as the rest. */
  lemma FirstKeeps(enc: Enc, s: Text, i: nat, n: nat)
    requires i < |s| && i + CharLen(enc, s[i]) <= n <= |s| && T.NameStarter(ByteType(enc, s[i]))
    requires CharLen(enc, s[i]) > 1 ==> IsChar(enc, s[i..i + CharLen(enc, s[i])])
    requires Steady(enc, s) ==> Plain(s, i + CharLen(enc, s[i]), n)
    ensures Steady(enc, s) ==> Plain(s, i, n)
  {
    hide ByteType, IsChar, Steady, CharLen;
    ClassBytes(enc, s[i]);
    if Steady(enc, s) {
      CharKeeps(enc, s, i, CharLen(enc, s[i]));
    }
  }

  lemma EndStartMove(enc: Enc, s: Text, i: nat, end: nat)
    requires i < end <= |s|
    ensures
      var r, k := Scan(enc, InEnd(EndStart), s, i, end), i + CharLen(enc, s[i]);
      r.Tok? ==>
        && k <= end && T.NameStarter(ByteType(enc, s[i])) && r == Scan(enc, InEnd(EndName), s, k, end)
        && (k > i + 1 ==> IsChar(enc, s[i..k]))
  {
    hide ByteType, Scan, Look, IsChar;
    NameTests(enc, InEnd(EndStart), s, i, end);
    ScanMove(enc, InEnd(EndStart), s, i, end);
    T.LookKinds(enc, s, i, end);
  }

  // -------------------------------------------------------------- attribute names

  /** The attribute name that begins at `i` in a tag that ends at `next`. */
  ghost predicate AttNamed(enc: Enc, s: Text, i: nat, next: nat)
  {
    exists n: nat ::
      && Named(s, i, n, next) && C.NameEnd(enc, s, i, next) == n && (Blank(s[n]) || s[n] == EQUAL)
      && (Steady(enc, s) ==> Plain(s, i, n))
  }

  /** A state in which the name of the attribute at hand has begun. */
  predicate Pending(st: State) { T.Pending(st) || T.Within(st) }

  lemma PendingView(st: State, v: View, n: nat)
    requires T.TagState(st) && T.LookKind(v, n)
    ensures
      var m := CharStep(st, v);
      && (m.Go? && T.NameBegins(st, m.st) ==> v.nmstrt == Fits(m.n) && T.NameStarter(v.c))
      && (m.Go? && Pending(m.st) ==> Pending(st) || T.NameBegins(st, m.st))
      && (m.Go? && m.st == InAtt(AttEnd) ==> Pending(st))
  {
  }

  /** A name begins only where NameBegins says, with a character that may begin one. */
  lemma PendingStep(enc: Enc, st: State, s: Text, i: nat, end: nat)
    requires i < end <= |s| && T.TagState(st)
    ensures
      var m := CharStep(st, Look(enc, s, i, end));
      && (m.Go? && T.NameBegins(st, m.st) ==>
            T.NameStarter(ByteType(enc, s[i])) && (m.n > 1 ==> i + m.n <= end && IsChar(enc, s[i..i + m.n])))
      && (m.Go? && Pending(m.st) ==> Pending(st) || T.NameBegins(st, m.st))
      && (m.Go? && m.st == InAtt(AttEnd) ==> Pending(st))
  {
    hide ByteType, Look, IsChar, CharStep, T.TagState;
    T.LookKinds(enc, s, i, end);
    LookChars(enc, s, i, end);
    PendingView(st, Look(enc, s, i, end), CharLen(enc, s[i]));
  }

  /** The name of each attribute that the tokenizer finds, and of the one it is at. */
  lemma {:induction false} SpansNamed(enc: Enc, st: State, s: Text, i: nat, end: nat, name: nat, value: nat)
    requires i <= end <= |s| && T.TagState(st) && Scan(enc, st, s, i, end).Tok?
    requires Pending(st) ==> AttNamed(enc, s, name, Scan(enc, st, s, i, end).next)
    ensures
      var sp := T.Spans(enc, st, s, i, end, name, value);
      forall k :: 0 <= k < |sp| ==> AttNamed(enc, s, sp[k].name, Scan(enc, st, s, i, end).next)
    decreases end - i
  {
    hide Scan, Look, CharStep, T.Spans, T.TagState, AttNamed, ByteType, Pending, CharLen, IsChar, Steady;
    ScanEmpty(enc, st, s, i);
    T.TagNotCdata(st);
    ScanMove(enc, st, s, i, end);
    T.SpansUnfold(enc, st, s, i, end, name, value);
    T.TagStateStep(enc, st, s, i, end);
    T.TagStateLen(enc, st, s, i, end);
    PendingStep(enc, st, s, i, end);
    var r, m := Scan(enc, st, s, i, end), CharStep(st, Look(enc, s, i, end));
    if m.Go? {
      if T.NameBegins(st, m.st) {
        AttBegins(enc, s, i, m.n, end);
      }
      var name', value' := if T.NameBegins(st, m.st) then i else name, if T.ValueBegins(st, m.st) then i + m.n
        else value;
      SpansNamed(enc, m.st, s, i + m.n, end, name', value');
    }
  }

  lemma AttBegins(enc: Enc, s: Text, i: nat, n: nat, end: nat)
    requires i < end <= |s| && T.NameStarter(ByteType(enc, s[i])) && n == CharLen(enc, s[i]) && i + n <= end
    requires Scan(enc, InAtt(AttName(false)), s, i + n, end).Tok? && (n > 1 ==> IsChar(enc, s[i..i + n]))
    ensures AttNamed(enc, s, i, Scan(enc, InAtt(AttName(false)), s, i + n, end).next)
  {
    hide ByteType, Scan, CharLen, Named, IsChar, Steady, Plain;
    var stop := NameRun(enc, InAtt(AttName(false)), s, i + n, end);
    FirstKeeps(enc, s, i, stop);
    NamedFrom(enc, InAtt(AttName(false)), s, i, stop, Scan(enc, InAtt(AttName(false)), s, i + n, end).next);
  }

  /** The name of every attribute of a tag runs to the first blank or equals sign. */
  lemma AttNames(enc: Enc, s: Text, i: nat, end: nat, k: nat)
    requires i < end <= |s| && T.IsTag(ContentTok(enc, s, i, end)) && k < |T.Spans(enc, Lt, s, i + 1, end, 0, 0)|
    ensures AttNamed(enc, s, T.Spans(enc, Lt, s, i + 1, end, 0, 0)[k].name, ContentTok(enc, s, i, end).next)
  {
    hide Scan, ContentTok, T.Spans, AttNamed, ByteType, CharLen;
    Begins(enc, s, i, end);
    T.FirstChar(enc, s, i + 1, end, 0, 0);
    SpansNamed(enc, InTag(TagName(false)), s, i + 1 + CharLen(enc, s[i + 1]), end, 0, 0);
  }

  // ------------------------------------------------------ processing instructions

  lemma PiNameTests(enc: Enc, target: Text, s: Text, i: nat, end: nat)
    requires i < end <= |s|
    ensures
      var m, c := CharStep(InPi(PiName(target)), Look(enc, s, i, end)), ByteType(enc, s[i]);
      !IsSpace(c) && c != QUEST && m.Go? ==>
        && m.n == CharLen(enc, s[i]) && (T.NameStarter(c) || c in {DIGIT, NAME, MINUS})
        && (m.n > 1 ==> i + m.n <= end && IsChar(enc, s[i..i + m.n]))
  {
    hide ByteType, InvalidChar, CheckPiTarget;
  }

  lemma PiNameStops(enc: Enc, s: Text, i: nat, end: nat)
    requires i < end <= |s|
    ensures IsSpace(ByteType(enc, s[i])) || s[i] == QUESTION ==> C.NameEnd(enc, s, i, end) == i
  {
  }

  /** What follows a target that ends at `n`. */
  ghost predicate PiEnds(enc: Enc, target: Text, s: Text, n: nat, r: Result)
  {
    && r.Tok? && n + 2 <= r.next <= |s| && r.tok == TargetToken(target) && (r.tok == Pi ==> !Reserved(target))
    && s[r.next - 2] == QUESTION && s[r.next - 1] == 0x3E && NoClose(s, n, r.next - 2)
    && (if s[n] == QUESTION then n + 2 == r.next else IsSpace(ByteType(enc, s[n])) && n + 3 <= r.next)
  }

  /** At the byte after the target. */
  lemma PiAfter(enc: Enc, target: Text, s: Text, i: nat, end: nat)
    requires i < end <= |s| && Scan(enc, InPi(PiName(target)), s, i, end).Tok?
    requires IsSpace(ByteType(enc, s[i])) || s[i] == QUESTION
    ensures PiEnds(enc, target, s, i, Scan(enc, InPi(PiName(target)), s, i, end))
  {
    hide CharStep, Look, Scan, ByteType;
    ScanMove(enc, InPi(PiName(target)), s, i, end);
    PiNameMove(enc, target, s, i, end);
    QuestClass(enc, s[i]);
    var m := CharStep(InPi(PiName(target)), Look(enc, s, i, end));
    if IsSpace(ByteType(enc, s[i])) {
      PiRest(enc, m.st.pi, s, i + 1, end);
    } else {
      QuestEnds(enc, m.st.pi.ptok, s, i + 1, end);
    }
  }

  /** The target, from a place within it. */
  lemma {:induction false} PiTarget(enc: Enc, target: Text, s: Text, i: nat, end: nat) returns (n: nat)
    requires i <= end <= |s| && Scan(enc, InPi(PiName(target)), s, i, end).Tok?
    ensures i <= n <= |s| && PiEnds(enc, target + s[i..n], s, n, Scan(enc, InPi(PiName(target)), s, i, end))
    ensures n <= Scan(enc, InPi(PiName(target)), s, i, end).next
    ensures C.NameEnd(enc, s, i, Scan(enc, InPi(PiName(target)), s, i, end).next) == n &&
      (Steady(enc, s) ==> Plain(s, i, n))
    decreases end - i
  {
    hide CharStep, Look, Scan, ByteType, C.NameEnd, Steady, IsChar, PiEnds, Plain;
    ScanEmpty(enc, InPi(PiName(target)), s, end);
    var r := Scan(enc, InPi(PiName(target)), s, i, end);
    PiNameStops(enc, s, i, r.next);
    if IsSpace(ByteType(enc, s[i])) || s[i] == QUESTION {
      n := i;
      assert target + s[i..n] == target;
      PiAfter(enc, target, s, i, end);
      PlainNone(s, i);
    } else {
      var w := PiNameOn(enc, target, s, i, end);
      n := PiTarget(enc, target + s[i..i + w], s, i + w, end);
      TargetText(s, i, i + w, n);
      TargetMore(target, s[i..i + w], s[i + w..n]);
      if Steady(enc, s) {
        PlainMore(s, i, i + w, n);
      }
    }
  }

  lemma TargetMore(a: Text, b: Text, c: Text)
    ensures (a + b) + c == a + (b + c)
  {
  }

  /** One character of the target. */
  lemma PiNameOn(enc: Enc, target: Text, s: Text, i: nat, end: nat) returns (w: nat)
    requires i < end <= |s| && Scan(enc, InPi(PiName(target)), s, i, end).Tok?
    requires !IsSpace(ByteType(enc, s[i])) && s[i] != QUESTION
    ensures 1 <= w && i + w <= end
    ensures Scan(enc, InPi(PiName(target)), s, i, end) == Scan(enc, InPi(PiName(target + s[i..i + w])), s, i + w, end)
    ensures
      var next := Scan(enc, InPi(PiName(target)), s, i, end).next;
      i + w <= next ==> C.NameEnd(enc, s, i, next) == C.NameEnd(enc, s, i + w, next)
    ensures Steady(enc, s) ==> Plain(s, i, i + w)
  {
    hide CharStep, Look, Scan, ByteType, C.NameEnd, Steady, IsChar, CharLen, NameStop, Plain;
    ScanMove(enc, InPi(PiName(target)), s, i, end);
    PiNameMove(enc, target, s, i, end);
    PiNameTests(enc, target, s, i, end);
    QuestClass(enc, s[i]);
    ClassBytes(enc, s[i]);
    w := CharStep(InPi(PiName(target)), Look(enc, s, i, end)).n;
    NameEndStep(enc, s, i, Scan(enc, InPi(PiName(target)), s, i, end).next);
    if Steady(enc, s) {
      CharKeeps(enc, s, i, w);
    }
  }

  lemma PlainNone(s: Text, i: nat)
    requires i <= |s|
    ensures Plain(s, i, i)
  {
  }

  /** A processing instruction is `<?`, its target, and text up to the first `?>`. */
  lemma PiShape(enc: Enc, s: Text, i: nat, end: nat) returns (n: nat)
    requires i < end <= |s| && ContentTok(enc, s, i, end).Tok? && ContentTok(enc, s, i, end).tok in {Pi, XmlDecl}
    ensures
      var r := ContentTok(enc, s, i, end);
      && i + 2 < n <= r.next <= |s| && s[i..i + 2] == [0x3C, QUESTION] && PiEnds(enc, s[i + 2..n], s, n, r)
      && C.NameEnd(enc, s, i + 2, r.next) == n && (Steady(enc, s) ==> Plain(s, i + 2, n))
  {
    hide Scan, ContentTok, ByteType, C.NameEnd, Steady, IsChar, CharLen, Plain, PiEnds;
    PiBegins(enc, s, i, end);
    var r, k := ContentTok(enc, s, i, end), i + 2 + CharLen(enc, s[i + 2]);
    n := PiTarget(enc, s[i + 2..k], s, k, end);
    TargetText(s, i + 2, k, n);
    FirstKeeps(enc, s, i + 2, n);
    ClassBytes(enc, s[i + 2]);
    NameEndStep(enc, s, i + 2, r.next);
  }

  lemma TargetText(s: Text, i: nat, k: nat, n: nat)
    requires i <= k <= n <= |s|
    ensures s[i..k] + s[k..n] == s[i..n]
  {
  }

  lemma PiBegins(enc: Enc, s: Text, i: nat, end: nat)
    requires i < end <= |s| && ContentTok(enc, s, i, end).Tok? && ContentTok(enc, s, i, end).tok in {Pi, XmlDecl}
    ensures i + 2 < end && s[i..i + 2] == [0x3C, QUESTION]
    ensures
      var k := i + 2 + CharLen(enc, s[i + 2]);
      && k <= end && T.NameStarter(ByteType(enc, s[i + 2])) && (k > i + 3 ==> IsChar(enc, s[i + 2..k]))
      && ContentTok(enc, s, i, end) == Scan(enc, InPi(PiName(s[i + 2..k])), s, k, end)
  {
    hide CharStep, Look, Scan, ContentTok, Open, ByteType, IsChar, CharLen;
    Begins(enc, s, i, end);
    ScanEmpty(enc, Lt, s, end);
    ScanMove(enc, Lt, s, i + 1, end);
    LtMove(enc, s, i + 1, end);
    var m := CharStep(Lt, Look(enc, s, i + 1, end));
    ScanKind(enc, m.st, s, i + 1 + m.n, end);
    OnlyExcl(m.st, ContentTok(enc, s, i, end).tok);
    ScanEmpty(enc, InPi(PiStart), s, end);
    PiStartMove(enc, s, i + 2, end);
  }

  lemma PiStartMove(enc: Enc, s: Text, i: nat, end: nat)
    requires i < end <= |s|
    ensures
      var r, k := Scan(enc, InPi(PiStart), s, i, end), i + CharLen(enc, s[i]);
      r.Tok? ==>
        && k <= end && T.NameStarter(ByteType(enc, s[i])) && r == Scan(enc, InPi(PiName(s[i..k])), s, k, end)
        && (k > i + 1 ==> IsChar(enc, s[i..k]))
  {
    hide ByteType, Scan, InvalidChar;
    ScanMove(enc, InPi(PiStart), s, i, end);
  }

  // ---------------------------------------------------------------- byte by byte

  /** The first byte from `i` on that stops a name, characters or not. */
  function FirstStop(s: Text, i: nat, end: nat): (n: nat)
    requires i <= end <= |s|
    ensures i <= n <= end && (n < end ==> Stops(s[n]))
    ensures forall k :: i <= k < n ==> !Stops(s[k])
    decreases end - i
  {
    if i == end || Stops(s[i]) then i else FirstStop(s, i + 1, end)
  }

  /** With such tests the name in a tag ends at the first byte that stops one. */
  lemma TagBytes(enc: Enc, s: Text, i: nat, end: nat)
    requires i < end <= |s| && T.IsTag(ContentTok(enc, s, i, end)) && NoHidden(enc)
    ensures
      var next := ContentTok(enc, s, i, end).next;
      i + 1 < next <= |s| && C.NameEnd(enc, s, i + 1, next) == FirstStop(s, i + 1, next)
  {
    hide ContentTok, NoHidden, Steady;
    AlwaysSteady(enc, s);
    var n := StartTagName(enc, s, i, end);
    StopIs(s, i + 1, n, ContentTok(enc, s, i, end).next);
  }

  lemma StopIs(s: Text, i: nat, n: nat, end: nat)
    requires i <= n < end <= |s| && Stops(s[n]) && forall k :: i <= k < n ==> !Stops(s[k])
    ensures FirstStop(s, i, end) == n
  {
    var m := FirstStop(s, i, end);
    assert m >= n;
  }

  lemma LtChar(enc: Enc, s: Text, i: nat, end: nat)
    requires i < end <= |s| && T.NameStarter(ByteType(enc, s[i]))
    ensures
      var m := CharStep(Lt, Look(enc, s, i, end));
      m.Go? ==> m == Go(InTag(TagName(false)), CharLen(enc, s[i]))
  {
    hide ByteType, Look;
    T.LookKinds(enc, s, i, end);
  }

  /** The names of start tags end at the first byte that stops one, in every text. */
  ghost predicate Bytewise(enc: Enc)
  {
    forall s: Text, end: nat :: 0 < end <= |s| && T.IsTag(ContentTok(enc, s, 0, end)) ==>
      var next := ContentTok(enc, s, 0, end).next;
      1 < next && C.NameEnd(enc, s, 1, next) == FirstStop(s, 1, next)
  }

  /** `<`, maybe a letter, a character that the tests let into a name, and `>`. */
  function Probe(enc: Enc, t: Text): Text { (if enc.nmstrt(t) then [0x3C] else [0x3C, 0x61]) + t + [0x3E] }

  lemma CharMove(enc: Enc, s: Text, i: nat, t: Text, end: nat)
    requires IsChar(enc, t) && i + |t| <= end <= |s| && s[i..i + |t|] == t
    ensures enc.nmstrt(t) ==> CharStep(Lt, Look(enc, s, i, end)) == Go(InTag(TagName(false)), |t|)
    ensures enc.name(t) ==>
      CharStep(InTag(TagName(false)), Look(enc, s, i, end)) == Go(InTag(TagName(false)), |t|)
    ensures C.NameEnd(enc, s, i, end) == C.NameEnd(enc, s, i + |t|, end)
  {
    hide ByteType;
    assert s[i] == t[0];
  }

  lemma LetterMove(enc: Enc, s: Text, i: nat, end: nat)
    requires i < end <= |s| && s[i] == 0x61
    ensures CharStep(Lt, Look(enc, s, i, end)) == Go(InTag(TagName(false)), 1)
    ensures C.NameEnd(enc, s, i, end) == C.NameEnd(enc, s, i + 1, end)
  {
    hide C.NameEnd;
    NameEndStep(enc, s, i, end);
  }

  lemma GreaterMove(enc: Enc, s: Text, i: nat, end: nat)
    requires i < end <= |s| && s[i] == GREATER
    ensures CharStep(InTag(TagName(false)), Look(enc, s, i, end)) == Accept(StartTag(false), 1)
    ensures C.NameEnd(enc, s, i, end) == i
  {
  }

  lemma ProbeAccepted(enc: Enc, t: Text)
    requires IsChar(enc, t)
    ensures
      var s, a := Probe(enc, t), if enc.nmstrt(t) then 1 else 2;
      ContentTok(enc, s, 0, |s|) == Tok(StartTag(false), |s|) && C.NameEnd(enc, s, 1, |s|) == a + |t|
  {
    hide Scan, CharStep, Look, ByteType, C.NameEnd;
    var s, a := Probe(enc, t), if enc.nmstrt(t) then 1 else 2;
    assert s[a..a + |t|] == t && s[a + |t|] == GREATER;
    LastClass(enc, s[0]);
    ScanMove(enc, Lt, s, 1, |s|);
    CharMove(enc, s, a, t, |s|);
    if a == 2 {
      LetterMove(enc, s, 1, |s|);
      ScanMove(enc, InTag(TagName(false)), s, 2, |s|);
    }
    GreaterMove(enc, s, a + |t|, |s|);
    ScanMove(enc, InTag(TagName(false)), s, a + |t|, |s|);
  }

  /** The exact condition under which names can be read byte by byte. */
  lemma BytewiseIff(enc: Enc)
    ensures Bytewise(enc) <==> NoHidden(enc)
  {
    hide ContentTok, C.NameEnd, IsChar, Probe;
    if NoHidden(enc) {
      forall s: Text, end: nat | 0 < end <= |s| && T.IsTag(ContentTok(enc, s, 0, end))
        ensures
          var next := ContentTok(enc, s, 0, end).next;
          1 < next && C.NameEnd(enc, s, 1, next) == FirstStop(s, 1, next)
      {
        TagBytes(enc, s, 0, end);
      }
    }
    if !NoHidden(enc) {
      var t: Text :| IsChar(enc, t) && exists k :: 1 <= k < |t| && Stops(t[k]);
      ProbeAccepted(enc, t);
      ProbeHides(enc, t);
    }
  }

  lemma ProbeHides(enc: Enc, t: Text)
    requires IsChar(enc, t) && exists k :: 1 <= k < |t| && Stops(t[k])
    ensures
      var s, a := Probe(enc, t), if enc.nmstrt(t) then 1 else 2;
      FirstStop(s, 1, |s|) < a + |t|
  {
    var s, a := Probe(enc, t), if enc.nmstrt(t) then 1 else 2;
    var k :| 1 <= k < |t| && Stops(t[k]);
    assert s[a + k] == t[k];
  }

  /**
    The source's tests look only at the low six bits of the bytes after the first. So they
    let in, with each character, sequences that end it with another byte.
  */
  ghost predicate Masked(enc: Enc)
  {
    forall t: Text, u: Text :: SameBits(t, u) ==> enc.nmstrt(t) == enc.nmstrt(u) && enc.name(t) == enc.name(u)
  }

  predicate SameBits(t: Text, u: Text)
  {
    |t| == |u| && t != [] && t[0] == u[0] && forall k :: 1 <= k < |t| ==> t[k] % 0x40 == u[k] % 0x40
  }

  /** With the letter thorn in names, C3 BE, a `>` after a byte C3 is part of a name too. */
  lemma MaskedHides(enc: Enc)
    requires Masked(enc) && enc.nmstrt([0xC3, 0xBE])
    ensures !NoHidden(enc)
    ensures
      var s := [0x3C, 0xC3, 0x3E, 0x3E];
      ContentTok(enc, s, 0, 4) == Tok(StartTag(false), 4) && C.NameEnd(enc, s, 1, 4) == 3 && FirstStop(s, 1, 4) == 2
  {
    hide ContentTok, C.NameEnd;
    var t, s := [0xC3, 0x3E], [0x3C, 0xC3, 0x3E, 0x3E];
    assert SameBits(t, [0xC3, 0xBE]);
    assert IsChar(enc, t) && Stops(t[1]);
    assert Probe(enc, t) == s;
    ProbeAccepted(enc, t);
    assert !Stops(s[1]) && Stops(s[2]);
  }

  // ------------------------------------------------- end tags and the tags they close

  /** The name in the text of a tag, whatever the parser makes of it. */
  function NameIn(text: Text): Text
  {
    var k := if |text| > 1 && text[1] == SLASH then 2 else 1;
    if k <= |text| then text[k..NameStop(text, k, |text|)] else []
  }

  /** A start tag or an end tag, by its text. */
  datatype Mark = Opened(text: Text) | Closed(text: Text)

  /** The tags among the tokens that a call gets through. */
  ghost function Marks(env: C.Env, open: set<Text>, lvl: nat, enc: Enc, s: Text, st: C.Parser, end: nat,
      haveMore: bool): seq<Mark>
    requires st.pos <= end <= |s|
    decreases |s| - st.pos
  {
    match C.Round(env, open, lvl, enc, s, st, end, haveMore)
    case Move(st', _) => MarksAt(enc, s, st, end) + Marks(env, open, lvl, enc, s, st', end, haveMore)
    case _ => []
  }

  function MarksAt(enc: Enc, s: Text, st: C.Parser, end: nat): seq<Mark>
    requires st.pos <= end <= |s|
  {
    if st.mode != C.InContent then []
    else match ContentTok(enc, s, st.pos, end)
      case Tok(StartTag(_), next) => [Opened(s[st.pos..next])]
      case Tok(EndTag, next) => [Closed(s[st.pos..next])]
      case _ => []
  }

  datatype Tags = Tags(texts: seq<Text>) | Mismatch

  /** An end tag must spell the name in the innermost open start tag. */
  function FollowTag(tags: Tags, mark: Mark): Tags
  {
    match tags
    case Mismatch => Mismatch
    case Tags(texts) =>
      match mark
      case Opened(text) => Tags(texts + [text])
      case Closed(text) =>
        if texts != [] && NameIn(texts[|texts| - 1]) == NameIn(text) then Tags(texts[..|texts| - 1]) else Mismatch
  }

  function Follow(tags: Tags, marks: seq<Mark>): Tags
    decreases |marks|
  {
    if marks == [] then tags else Follow(FollowTag(tags, marks[0]), marks[1..])
  }

  /** The open elements are those of these start tags. */
  predicate Spelled(stack: seq<C.Tag>, texts: seq<Text>)
  {
    |texts| == |stack| && forall k :: 0 <= k < |stack| ==> stack[k].name == NameIn(texts[k])
  }

  lemma {:induction false} StopShift(s: Text, a: nat, b: nat, i: nat)
    requires a <= b <= |s| && i <= b - a
    ensures a + NameStop(s[a..b], i, b - a) == NameStop(s, a + i, b)
    decreases b - a - i
  {
    if i < b - a {
      assert s[a..b][i] == s[a + i];
      if !Stops(s[a + i]) && i + Width(s[a + i]) <= b - a {
        StopShift(s, a, b, i + Width(s[a + i]));
      }
    }
  }

  lemma NameInTag(s: Text, a: nat, b: nat, k: nat, n: nat)
    requires a + k <= n <= b <= |s| && a + 1 < b && k == (if s[a + 1] == SLASH then 2 else 1)
    requires n == NameStop(s, a + k, b)
    ensures NameIn(s[a..b]) == s[a + k..n]
  {
    hide NameStop;
    var text := s[a..b];
    StopShift(s, a, b, k);
    assert text[1] == s[a + 1];
    InnerSlice(s, a, b, k, n - a);
  }

  lemma OpenSpelled(env: C.Env, open: set<Text>, lvl: nat, enc: Enc, s: Text, st: C.Parser, end: nat, texts: seq<Text>)
      returns (next: seq<Text>)
    requires st.pos <= end <= |s| && Spelled(st.stack, texts)
    requires ContentTok(enc, s, st.pos, end).Tok? && ContentTok(enc, s, st.pos, end).tok.StartTag?
    requires
      var r := ContentTok(enc, s, st.pos, end);
      C.Act(env, open, lvl, enc, s, st, r.tok, r.next).Move?
    ensures
      var r := ContentTok(enc, s, st.pos, end);
      Spelled(C.Act(env, open, lvl, enc, s, st, r.tok, r.next).st.stack, next)
    ensures FollowTag(Tags(texts), Opened(s[st.pos..ContentTok(enc, s, st.pos, end).next])) == Tags(next)
  {
    hide ContentTok, C.NameEnd, NameStop, NameIn;
    var r := ContentTok(enc, s, st.pos, end);
    var n := StartTagName(enc, s, st.pos, end);
    NotSlash(s[st.pos + 1]);
    NameInTag(s, st.pos, r.next, 1, n);
    var text := s[st.pos..r.next];
    next := texts + [text];
  }

  lemma NotSlash(b: Byte)
    requires NameStart(b)
    ensures b != SLASH
  {
  }

  lemma FollowOne(tags: Tags, marks: seq<Mark>, more: seq<Mark>)
    requires |marks| <= 1
    ensures Follow(tags, marks + more) == Follow(if marks == [] then tags else FollowTag(tags, marks[0]), more)
  {
    hide FollowTag;
    if marks == [] {
      assert marks + more == more;
    } else {
      assert (marks + more)[1..] == more;
    }
  }

  lemma CloseSpelled(env: C.Env, open: set<Text>, lvl: nat, enc: Enc, s: Text, st: C.Parser, end: nat, texts: seq<Text>)
      returns (next: seq<Text>)
    requires st.pos <= end <= |s| && Spelled(st.stack, texts)
    requires ContentTok(enc, s, st.pos, end).Tok? && ContentTok(enc, s, st.pos, end).tok.EndTag?
    requires
      var r := ContentTok(enc, s, st.pos, end);
      C.Act(env, open, lvl, enc, s, st, r.tok, r.next).Move?
    ensures
      var r := ContentTok(enc, s, st.pos, end);
      Spelled(C.Act(env, open, lvl, enc, s, st, r.tok, r.next).st.stack, next)
    ensures FollowTag(Tags(texts), Closed(s[st.pos..ContentTok(enc, s, st.pos, end).next])) == Tags(next)
  {
    hide ContentTok, C.NameEnd, NameStop, NameIn, NameChars, Stops;
    var r := ContentTok(enc, s, st.pos, end);
    var n := EndTagName(enc, s, st.pos, end);
    NameInTag(s, st.pos, r.next, 2, n);
    next := texts[..|texts| - 1];
  }

  lemma MoveSpelled(env: C.Env, open: set<Text>, lvl: nat, enc: Enc, s: Text, st: C.Parser, end: nat, haveMore: bool,
      texts: seq<Text>) returns (next: seq<Text>)
    requires st.pos <= end <= |s| && lvl <= C.Level(env, st.stack) && Spelled(st.stack, texts)
    requires C.Round(env, open, lvl, enc, s, st, end, haveMore).Move?
    ensures Spelled(C.Round(env, open, lvl, enc, s, st, end, haveMore).st.stack, next)
    ensures
      var marks := MarksAt(enc, s, st, end);
      |marks| <= 1 && (if marks == [] then next == texts else FollowTag(Tags(texts), marks[0]) == Tags(next))
  {
    hide ContentTok, CdataTok, C.Reference, C.NameEnd, NameIn, FollowTag;
    next := texts;
    if st.mode == C.InContent {
      var r := ContentTok(enc, s, st.pos, end);
      if r.tok == EntityRef {
        C.ReferenceNested(env, open, lvl, s, st, r.next);
      } else if r.tok.StartTag? {
        next := OpenSpelled(env, open, lvl, enc, s, st, end, texts);
      } else if r.tok.EndTag? {
        next := CloseSpelled(env, open, lvl, enc, s, st, end, texts);
      }
    }
  }

  /**
    On every accepted call, every end tag spells, byte for byte, the whole name of the start
    tag that it closes; and the elements open at the end are those of the start tags left.
  */
  lemma {:induction false} EndsSpellStarts(env: C.Env, open: set<Text>, lvl: nat, enc: Enc, s: Text, st: C.Parser,
      end: nat,
      haveMore: bool, texts: seq<Text>)
    requires st.pos <= end <= |s| && lvl <= C.Level(env, st.stack) && Spelled(st.stack, texts)
    requires C.Run(env, open, lvl, enc, s, st, end, haveMore).Ok?
    ensures
      var tags := Follow(Tags(texts), Marks(env, open, lvl, enc, s, st, end, haveMore));
      tags.Tags? && Spelled(C.Run(env, open, lvl, enc, s, st, end, haveMore).st.stack, tags.texts)
    decreases |s| - st.pos
  {
    hide C.Run, C.Round, Follow, MarksAt, Spelled;
    C.RunUnfold(env, open, lvl, enc, s, st, end, haveMore);
    C.RoundNested(env, open, lvl, enc, s, st, end, haveMore);
    var r := C.Round(env, open, lvl, enc, s, st, end, haveMore);
    if r.Move? {
      var next := MoveSpelled(env, open, lvl, enc, s, st, end, haveMore, texts);
      EndsSpellStarts(env, open, lvl, enc, s, r.st, end, haveMore, next);
      FollowOne(Tags(texts), MarksAt(enc, s, st, end), Marks(env, open, lvl, enc, s, r.st, end, haveMore));
    } else {
      StopSpelled(env, open, lvl, enc, s, st, end, haveMore);
      FollowNone(texts);
    }
  }

  lemma FollowNone(texts: seq<Text>)
    ensures Follow(Tags(texts), []) == Tags(texts)
  {
  }

  lemma StopSpelled(env: C.Env, open: set<Text>, lvl: nat, enc: Enc, s: Text, st: C.Parser, end: nat, haveMore: bool)
    requires st.pos <= end <= |s| && C.Round(env, open, lvl, enc, s, st, end, haveMore).Stop?
    ensures C.Round(env, open, lvl, enc, s, st, end, haveMore).st.stack == st.stack
  {
    hide ContentTok, CdataTok, C.Reference, C.Act;
  }
}
