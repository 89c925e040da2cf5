/**
  What is accepted is of the grammar: every token of markup has the text of a piece of the
  grammar, with all that the grammar asks of it. With Accepted, the tokenizer accepts the
  grammar and nothing else.
*/
module Exact {
  import opened Scanner
  import opened Tokenizer
  import opened References
  import opened CharRefs
  import opened TagNames
  import opened Tokens
  import opened Grammar
  import opened Accepted
  import Utf
  import T = StartTag

  // ------------------------------------------------------------------- names

  /** The classes that no name goes on with. */
  predicate Special(c: ByteClass) { c in {COLON, SOL, GT, EQUALS, QUEST, SEMI, S, CR, LF, NUM, EXCL} }

  lemma NamingStep(st: State, v: View)
    requires Naming(st) && !Special(v.c)
    ensures CharStep(st, v) == Take(v.name, Grown(st, v.raw), Bad(0)) && Naming(Grown(st, v.raw))
  {
    hide CheckPiTarget;
  }

  /** A character that the test for names lets through. */
  lemma NameChar(enc: Enc, s: Text, i: nat, end: nat)
    requires i < end <= |s| && Look(enc, s, i, end).name.Fits?
    ensures
      var v, w := Look(enc, s, i, end), Width(s[i]);
      && v.name.n == w && 1 <= w && i + w <= end && v.raw == s[i..i + w]
      && (NameAscii(s[i]) || (0xC0 <= s[i] < 0xF0 && enc.name(s[i..i + w])))
  {
    AsciiClass(enc, s[i]);
    ClassBytes(enc, s[i]);
    LeadWidth(enc, s[i]);
    hide ByteType, InvalidChar, NameAscii, Width;
  }

  lemma LeadWidth(enc: Enc, b: Byte)
    ensures LeadLen(ByteType(enc, b)) > 0 ==> b >= 0xC0 && LeadLen(ByteType(enc, b)) == Width(b)
    ensures LeadLen(ByteType(enc, b)) in {2, 3} ==> b < 0xF0
  {
  }

  lemma StartChar(enc: Enc, s: Text, i: nat, end: nat)
    requires i < end <= |s| && Look(enc, s, i, end).nmstrt.Fits?
    ensures
      var v, w := Look(enc, s, i, end), Width(s[i]);
      && v.nmstrt.n == w && 1 <= w && i + w <= end && v.raw == s[i..i + w]
      && (Letter(s[i]) || s[i] == 0x5F || (0xC0 <= s[i] < 0xF0 && enc.nmstrt(s[i..i + w])))
  {
    AsciiClass(enc, s[i]);
    ClassBytes(enc, s[i]);
    LeadWidth(enc, s[i]);
    AsciiWidth(s[i]);
    hide ByteType, InvalidChar, NameAscii, Width, Letter;
  }

  lemma AsciiWidth(b: Byte)
    ensures Letter(b) || b == 0x5F ==> Width(b) == 1
  {
  }

  /** One character more in front of the rest of a name. */
  lemma RestCons(enc: Enc, s: Text, i: nat, t: Text)
    requires i < |s| && 1 <= Width(s[i]) && At(s, i + Width(s[i]), t) && NameRest(enc, t)
    requires NameAscii(s[i]) || (0xC0 <= s[i] < 0xF0 && enc.name(s[i..i + Width(s[i])]))
    ensures At(s, i, s[i..i + Width(s[i])] + t) && NameRest(enc, s[i..i + Width(s[i])] + t)
  {
    var w := Width(s[i]);
    var c := s[i..i + w];
    AtSlice(s, i, i + w);
    AtJoin(s, i, c, t);
    assert (c + t)[..w] == c && (c + t)[w..] == t && (c + t)[0] == s[i];
    hide NameAscii, Width, At;
  }

  /** From inside a name, a scan that ends well has read the rest of a name. */
  lemma {:induction false} NameFrom(enc: Enc, st: State, s: Text, i: nat, end: nat) returns (t: Text)
    requires i <= end <= |s| && Naming(st) && Scan(enc, st, s, i, end).Tok?
    ensures NameRest(enc, t) && At(s, i, t) && i + |t| < end && Special(ByteType(enc, s[i + |t|]))
    ensures Scan(enc, st, s, i, end) == Scan(enc, Grown(st, t), s, i + |t|, end) && Naming(Grown(st, t))
    decreases end - i
  {
    hide ByteType, Look, Scan, CharStep, NameRest, Grown, Naming, NameAscii, Width, At;
    ScanEmpty(enc, st, s, end);
    NamingPlace(st);
    ScanMove(enc, st, s, i, end);
    LookIs(enc, s, i, end);
    t := [];
    AtNothing(s, i);
    GrownMore(st, [], []);
    RestNone(enc);
    if !Special(ByteType(enc, s[i])) {
      NamingStep(st, Look(enc, s, i, end));
      NameChar(enc, s, i, end);
      var w := Width(s[i]);
      var c := s[i..i + w];
      var rest := NameFrom(enc, Grown(st, c), s, i + w, end);
      RestCons(enc, s, i, rest);
      GrownMore(st, c, rest);
      t := c + rest;
    }
  }

  lemma NamingPlace(st: State)
    requires Naming(st)
    ensures !st.Cdata?
  {
  }

  lemma RestNone(enc: Enc)
    ensures NameRest(enc, [])
  {
  }

  /** A state that takes a character that a name begins with, and nothing else. */
  predicate Takes(st: State, v: View) { Starting(st) && CharStep(st, v) == Take(v.nmstrt, Started(st, v.raw), Bad(0)) }

  lemma StartedNames(st: State, raw: Text)
    requires Starting(st)
    ensures Naming(Started(st, raw))
  {
  }

  /** A whole name without a colon. */
  lemma NcFrom(enc: Enc, st: State, s: Text, i: nat, end: nat) returns (t: Text)
    requires i < end <= |s| && !st.Cdata? && Takes(st, Look(enc, s, i, end)) && Scan(enc, st, s, i, end).Tok?
    ensures NcName(enc, t) && At(s, i, t) && i + |t| < end && Special(ByteType(enc, s[i + |t|]))
    ensures
      var w := Width(t[0]);
      && w <= |t| && Scan(enc, st, s, i, end) == Scan(enc, Grown(Started(st, t[..w]), t[w..]), s, i + |t|, end)
  {
    hide ByteType, Look, Scan, CharStep, NameRest, Grown, Naming, Started, Width, Letter, At;
    ScanMove(enc, st, s, i, end);
    StartChar(enc, s, i, end);
    var w := Width(s[i]);
    var c := s[i..i + w];
    StartedNames(st, c);
    var rest := NameFrom(enc, Started(st, c), s, i + w, end);
    t := c + rest;
    AtSlice(s, i, i + w);
    AtJoin(s, i, c, rest);
    assert t[..w] == c && t[w..] == rest && t[0] == s[i];
  }

  /** A prefix and its colon have been read: the local part. */
  lemma LocalFrom(enc: Enc, st: State, s: Text, i: nat, end: nat) returns (t: Text)
    requires st == InTag(TagColon) || st == InAtt(AttColon)
    requires i < end <= |s| && Scan(enc, st, s, i, end).Tok?
    ensures NcName(enc, t) && At(s, i, t) && i + |t| < end
    ensures Special(ByteType(enc, s[i + |t|])) && ByteType(enc, s[i + |t|]) != COLON
    ensures Scan(enc, st, s, i, end) ==
      Scan(enc, if st == InTag(TagColon) then InTag(TagName(true)) else InAtt(AttName(true)), s, i + |t|, end)
  {
    hide ByteType, Look, Scan, CharStep, NcName, Width, Special, Takes, At;
    ColonTakes(st, Look(enc, s, i, end));
    t := NcFrom(enc, st, s, i, end);
    NotEmpty(enc, t);
    LocalState(st, t);
    OneColon(enc, if st == InTag(TagColon) then InTag(TagName(true)) else InAtt(AttName(true)), s, i + |t|, end);
  }

  lemma ColonRead(enc: Enc, st: State, s: Text, i: nat, end: nat)
    requires st == InTag(TagName(false)) || st == InAtt(AttName(false))
    requires i < end <= |s| && s[i] == COLON_BYTE && Scan(enc, st, s, i, end).Tok?
    ensures i + 1 < end && Scan(enc, st, s, i, end) == Scan(enc, Colon(st), s, i + 1, end)
  {
    hide Scan, Look;
    ScanMove(enc, st, s, i, end);
    ColonView(enc, s, i, end);
    ScanEmpty(enc, Colon(st), s, end);
  }

  lemma ColonState(st: State)
    requires st == Lt || st == InTag(TagSpace) || st == InAtt(AttBetween)
    ensures
      var named, local := NameState(st, false), Colon(NameState(st, false));
      && (named == InTag(TagName(false)) || named == InAtt(AttName(false)))
      && (local == InTag(TagColon) || local == InAtt(AttColon))
      && NameState(st, true) == if local == InTag(TagColon) then InTag(TagName(true)) else InAtt(AttName(true))
  {
  }

  /** A name with or without a colon, in a tag. */
  lemma QFrom(enc: Enc, st: State, s: Text, i: nat, end: nat) returns (q: QName)
    requires st == Lt || st == InTag(TagSpace) || st == InAtt(AttBetween)
    requires i < end <= |s| && Takes(st, Look(enc, s, i, end)) && Scan(enc, st, s, i, end).Tok?
    ensures NameOk(enc, q) && At(s, i, NameText(q)) && i + |NameText(q)| < end
    ensures Special(ByteType(enc, s[i + |NameText(q)|])) && ByteType(enc, s[i + |NameText(q)|]) != COLON
    ensures Scan(enc, st, s, i, end) == Scan(enc, NameState(st, q.prefix != []), s, i + |NameText(q)|, end)
  {
    hide ByteType, Look, Scan, CharStep, NcName, Width, Special, Takes, At, NameState, Colon;
    var first := NcFrom(enc, st, s, i, end);
    var n, named := i + |first|, NameState(st, false);
    NotEmpty(enc, first);
    NamedState(st, first);
    ColonIs(enc, s[n]);
    if s[n] == COLON_BYTE {
      ColonState(st);
      ColonRead(enc, named, s, n, end);
      var local := LocalFrom(enc, Colon(named), s, n + 1, end);
      q := QName(first, local);
      AtOne(s, n, COLON_BYTE);
      AtJoin(s, i, first, [COLON_BYTE]);
      AtJoin(s, i, first + [COLON_BYTE], local);
    } else {
      q := QName([], first);
    }
  }

  lemma NotEmpty(enc: Enc, t: Text)
    requires NcName(enc, t)
    ensures t != [] && Width(t[0]) <= |t|
  {
  }

  lemma NamedState(st: State, t: Text)
    requires (st == Lt || st == InTag(TagSpace) || st == InAtt(AttBetween)) && t != [] && Width(t[0]) <= |t|
    ensures Grown(Started(st, t[..Width(t[0])]), t[Width(t[0])..]) == NameState(st, false)
    ensures Starting(st)
  {
  }

  lemma LocalState(st: State, t: Text)
    requires (st == InTag(TagColon) || st == InAtt(AttColon)) && t != [] && Width(t[0]) <= |t|
    ensures Starting(st) && Grown(Started(st, t[..Width(t[0])]), t[Width(t[0])..]) ==
      if st == InTag(TagColon) then InTag(TagName(true)) else InAtt(AttName(true))
  {
  }

  lemma ColonTakes(st: State, v: View)
    requires st == InTag(TagColon) || st == InAtt(AttColon)
    ensures Takes(st, v)
  {
  }

  lemma ColonIs(enc: Enc, b: Byte)
    ensures ByteType(enc, b) == COLON <==> b == COLON_BYTE
  {
  }

  /** A second colon is refused. */
  lemma OneColon(enc: Enc, st: State, s: Text, i: nat, end: nat)
    requires st == InTag(TagName(true)) || st == InAtt(AttName(true))
    requires i < end <= |s| && Scan(enc, st, s, i, end).Tok?
    ensures ByteType(enc, s[i]) != COLON
  {
    hide Scan, Look, ByteType;
    ScanMove(enc, st, s, i, end);
    LookIs(enc, s, i, end);
  }

  // ------------------------------------------------------------------ blanks

  lemma {:induction false} BlanksFrom(enc: Enc, st: State, s: Text, i: nat, end: nat) returns (t: Text)
    requires i <= end <= |s| && Spacing(st) && Scan(enc, st, s, i, end).Tok?
    ensures Blanks(t) && At(s, i, t) && i + |t| < end && !Blank(s[i + |t|])
    ensures Scan(enc, st, s, i, end) == Scan(enc, AfterBlanks(st, t), s, i + |t|, end)
    decreases end - i
  {
    hide ByteType, Look, Scan, CharStep, Spaced, Spacing, Blank, At, Quiet;
    ScanEmpty(enc, st, s, end);
    SpacingPlace(st);
    LookIs(enc, s, i, end);
    ClassBytes(enc, s[i]);
    t := [];
    AtNothing(s, i);
    if Blank(s[i]) {
      BlankGoes(st, Look(enc, s, i, end));
      ScanMove(enc, st, s, i, end);
      var rest := BlanksFrom(enc, Spaced(st), s, i + 1, end);
      AtOne(s, i, s[i]);
      AtJoin(s, i, [s[i]], rest);
      t := [s[i]] + rest;
    }
  }

  // -------------------------------------------------------------- references

  /** Digits up to the semicolon. */
  lemma {:induction false} DigitsFrom(enc: Enc, hex: bool, ctx: Quote, s: Text, i: nat, end: nat)
      returns (t: Text, ds: seq<nat>)
    requires i <= end <= |s| && Scan(enc, DigitState(hex, ctx), s, i, end).Tok?
    ensures Written(t, ds, Radix(hex)) && At(s, i, t) && i + |t| < end && s[i + |t|] == 0x3B
    ensures Scan(enc, DigitState(hex, ctx), s, i, end) == Scan(enc, DigitState(hex, ctx), s, i + |t|, end)
    decreases end - i
  {
    hide ByteType, Scan, Writes, Look, At;
    var st := DigitState(hex, ctx);
    ScanEmpty(enc, st, s, end);
    ScanMove(enc, st, s, i, end);
    LookIs(enc, s, i, end);
    var d := DigitClass(enc, s[i]);
    t, ds := [], [];
    AtNothing(s, i);
    if s[i] != 0x3B {
      var more, es := DigitsFrom(enc, hex, ctx, s, i + 1, end);
      AtOne(s, i, s[i]);
      AtJoin(s, i, [s[i]], more);
      WrittenMore(s[i], d, more, es, Radix(hex));
      t, ds := [s[i]] + more, [d] + es;
    }
  }

  lemma WrittenMore(b: Byte, d: nat, t: Text, ds: seq<nat>, radix: nat)
    requires Writes(b, d) && d < radix && Written(t, ds, radix)
    ensures Written([b] + t, [d] + ds, radix)
  {
    hide Writes;
  }

  /** The state in which the first digit is wanted. */
  function FirstState(hex: bool, ctx: Quote): State { InRef(if hex then CharRefHex0 else CharRefStart, ctx) }

  lemma NumeralFrom(enc: Enc, hex: bool, ctx: Quote, s: Text, i: nat, end: nat) returns (t: Text, ds: seq<nat>)
    requires i <= end <= |s| && Scan(enc, FirstState(hex, ctx), s, i, end).Tok? && (i < end && !hex ==> s[i] != X_CHAR)
    ensures ds != [] && Written(t, ds, Radix(hex)) && At(s, i, t) && i + |t| < end && s[i + |t|] == 0x3B
    ensures Scan(enc, FirstState(hex, ctx), s, i, end) == Scan(enc, DigitState(hex, ctx), s, i + |t|, end)
  {
    hide ByteType, Scan, Writes, Look, At;
    ScanEmpty(enc, FirstState(hex, ctx), s, end);
    ScanMove(enc, FirstState(hex, ctx), s, i, end);
    LookIs(enc, s, i, end);
    var d := DigitClass(enc, s[i]);
    var more, es := DigitsFrom(enc, hex, ctx, s, i + 1, end);
    AtOne(s, i, s[i]);
    AtJoin(s, i, [s[i]], more);
    WrittenMore(s[i], d, more, es, Radix(hex));
    t, ds := [s[i]] + more, [d] + es;
  }

  lemma NumberJoined(enc: Enc, s: Text, i: nat, hex: bool, digits: Text, ds: seq<nat>, end: nat)
    requires ds != [] && Written(digits, ds, Radix(hex))
    requires i + 2 < end <= |s| && s[i] == 0x26 && s[i + 1] == 0x23 && (hex ==> s[i + 2] == 0x78)
    requires var n := i + if hex then 3 else 2; At(s, n, digits) && n + |digits| < end && s[n + |digits|] == 0x3B
    ensures
      var item := ByNumber(digits, ds, hex);
      && RefOk(enc, item) && At(s, i, ItemText(item))
      && |ItemText(item)| == (if hex then 3 else 2) + |digits| + 1
  {
    hide Written, At;
    AtOne(s, i, 0x26);
    AtOne(s, i + 1, 0x23);
    AtJoin(s, i, [0x26], [0x23]);
    var head: Text := [0x26] + [0x23];
    if hex {
      AtOne(s, i + 2, 0x78);
      AtJoin(s, i, head, [0x78]);
      head := head + [0x78];
    }
    AtJoin(s, i, head, digits);
    AtOne(s, i + |head| + |digits|, 0x3B);
    AtJoin(s, i, head + digits, [0x3B]);
    assert ItemText(ByNumber(digits, ds, hex)) == head + digits + [0x3B];
  }

  lemma HexGoes(enc: Enc, ctx: Quote, s: Text, i: nat, end: nat)
    requires i < end <= |s| && s[i] == X_CHAR
    ensures Scan(enc, InRef(CharRefStart, ctx), s, i, end) == Scan(enc, InRef(CharRefHex0, ctx), s, i + 1, end)
  {
    hide Scan, Look;
    LookIs(enc, s, i, end);
    ScanMove(enc, InRef(CharRefStart, ctx), s, i, end);
  }

  /** The item that a reference from `i` on writes, up to its semicolon. */
  lemma NumberFrom(enc: Enc, ctx: Quote, s: Text, i: nat, end: nat) returns (item: Item)
    requires i + 1 < end <= |s| && s[i] == 0x26 && s[i + 1] == 0x23
    requires Scan(enc, InRef(RefStart, ctx), s, i + 1, end).Tok?
    ensures item.ByNumber? && RefOk(enc, item) && At(s, i, ItemText(item)) && i + |ItemText(item)| <= end
    ensures |ItemText(item)| >= 1 && Scan(enc, InRef(RefStart, ctx), s, i + 1, end) ==
      Scan(enc, BeforeSemi(item, ctx), s, i + |ItemText(item)| - 1, end)
  {
    hide Scan, Look, Written, CharStep, RefOk, ItemText, At;
    HashGoes(enc, ctx, s, i + 1, end);
    ScanEmpty(enc, InRef(CharRefStart, ctx), s, end);
    var hex := s[i + 2] == X_CHAR;
    if hex { HexGoes(enc, ctx, s, i + 2, end); }
    var n := i + if hex then 3 else 2;
    var digits, ds := NumeralFrom(enc, hex, ctx, s, n, end);
    NumberJoined(enc, s, i, hex, digits, ds, end);
    item := ByNumber(digits, ds, hex);
  }

  lemma HashGoes(enc: Enc, ctx: Quote, s: Text, i: nat, end: nat)
    requires i < end <= |s| && s[i] == 0x23
    ensures Scan(enc, InRef(RefStart, ctx), s, i, end) == Scan(enc, InRef(CharRefStart, ctx), s, i + 1, end)
  {
    hide Scan, Look;
    HashView(enc, s, i, end);
    ScanMove(enc, InRef(RefStart, ctx), s, i, end);
  }

  lemma EntityFrom(enc: Enc, ctx: Quote, s: Text, i: nat, end: nat) returns (item: Item)
    requires i + 1 < end <= |s| && s[i] == 0x26 && s[i + 1] != 0x23
    requires Scan(enc, InRef(RefStart, ctx), s, i + 1, end).Tok?
    ensures item.ByName? && RefOk(enc, item) && At(s, i, ItemText(item)) && i + |ItemText(item)| <= end
    ensures |ItemText(item)| >= 1 && Scan(enc, InRef(RefStart, ctx), s, i + 1, end) ==
      Scan(enc, BeforeSemi(item, ctx), s, i + |ItemText(item)| - 1, end)
  {
    hide Scan, Look, CharStep, NcName, ByteType, Takes, Width, Special, At;
    var st := InRef(RefStart, ctx);
    LookIs(enc, s, i + 1, end);
    NumClass(enc, s[i + 1]);
    RefTakes(ctx, Look(enc, s, i + 1, end));
    var name := NcFrom(enc, st, s, i + 1, end);
    NotEmpty(enc, name);
    RefState(ctx, name);
    var n := i + 1 + |name|;
    SemiNext(enc, ctx, s, n, end);
    item := ByName(name);
    AtOne(s, i, 0x26);
    AtJoin(s, i, [0x26], name);
    AtOne(s, n, 0x3B);
    AtJoin(s, i, [0x26] + name, [0x3B]);
  }

  lemma RefTakes(ctx: Quote, v: View)
    requires v.c != NUM
    ensures Takes(InRef(RefStart, ctx), v)
  {
  }

  lemma RefState(ctx: Quote, t: Text)
    requires t != [] && Width(t[0]) <= |t|
    ensures Starting(InRef(RefStart, ctx))
    ensures Grown(Started(InRef(RefStart, ctx), t[..Width(t[0])]), t[Width(t[0])..]) == InRef(Scanner.RefName, ctx)
  {
  }

  /** A name in a reference ends with the semicolon. */
  lemma SemiNext(enc: Enc, ctx: Quote, s: Text, i: nat, end: nat)
    requires i < end <= |s| && Special(ByteType(enc, s[i])) && Scan(enc, InRef(Scanner.RefName, ctx), s, i, end).Tok?
    ensures s[i] == 0x3B
  {
    hide Scan, ByteType;
    ScanMove(enc, InRef(Scanner.RefName, ctx), s, i, end);
    LastClass(enc, s[i]);
  }

  /** A reference that is accepted is one of the grammar. */
  lemma RefFrom(enc: Enc, ctx: Quote, s: Text, i: nat, end: nat) returns (item: Item)
    requires i < end <= |s| && s[i] == 0x26 && Scan(enc, InRef(RefStart, ctx), s, i + 1, end).Tok?
    ensures RefOk(enc, item) && At(s, i, ItemText(item)) && i + 1 <= i + |ItemText(item)| <= end
    ensures
      var n := i + |ItemText(item)|;
      Scan(enc, InRef(RefStart, ctx), s, i + 1, end) ==
        if ctx.NoQuote? then Tok(RefToken(item), n) else Scan(enc, InAtt(AttValue(ctx.q)), s, n, end)
  {
    hide Scan, Look, RefOk, ItemText, At;
    ScanEmpty(enc, InRef(RefStart, ctx), s, end);
    if s[i + 1] == 0x23 {
      item := NumberFrom(enc, ctx, s, i, end);
    } else {
      item := EntityFrom(enc, ctx, s, i, end);
    }
    var z := i + |ItemText(item)| - 1;
    RefEnds(enc, item);
    AtByte(s, i, ItemText(item), |ItemText(item)| - 1);
    HashView(enc, s, z, end);
    ScanMove(enc, BeforeSemi(item, ctx), s, z, end);
  }

  lemma RefEnds(enc: Enc, item: Item)
    requires RefOk(enc, item)
    ensures ItemText(item) != [] && ItemText(item)[|ItemText(item)| - 1] == 0x3B
  {
  }

  // -------------------------------------------------------------- characters

  /** A byte or more that the test for data lets through is an XML character. */
  lemma CharFrom(enc: Enc, s: Text, i: nat, end: nat) returns (c: int)
    requires i < end <= |s|
    requires TestChar(enc, DataChar, s, i, end).Fits? || TestChar(enc, DataChar, s, i, end).NotCovered?
    ensures Utf.XmlChar(c) && At(s, i, Utf8Encode(c)) && i + Len(c) <= end
    ensures
      var t := TestChar(enc, DataChar, s, i, end);
      && Len(c) == (if t.Fits? then t.n else 1) && (c < 0x80 <==> t.NotCovered?) && (c < 0x80 ==> c == s[i])
  {
    hide Utf8Encode, InvalidChar;
    TestWhole(enc, s, i, end);
    Utf.CharSound(enc, s, i);
    c := Utf.Decode(s, i, Utf.CharAt(enc, s, i));
    AsciiChar(enc, c);
  }

  lemma TestWhole(enc: Enc, s: Text, i: nat, end: nat)
    requires i < end <= |s|
    requires TestChar(enc, DataChar, s, i, end).Fits? || TestChar(enc, DataChar, s, i, end).NotCovered?
    ensures TestChar(enc, DataChar, s, i, |s|) == TestChar(enc, DataChar, s, i, end)
    ensures TestChar(enc, DataChar, s, i, end).Fits? ==> TestChar(enc, DataChar, s, i, end).n > 1
  {
    hide InvalidChar;
  }

  // -------------------------------------------------------------- attribute values

  lemma ItemsCons(s: Text, i: nat, enc: Enc, quote: Byte, item: Item, rest: seq<Item>)
    requires ItemOk(enc, quote, item) && At(s, i, ItemText(item))
    requires ItemsOk(enc, quote, rest) && At(s, i + |ItemText(item)|, ItemsText(rest))
    ensures ItemsOk(enc, quote, [item] + rest) && At(s, i, ItemsText([item] + rest))
    ensures |ItemsText([item] + rest)| == |ItemText(item)| + |ItemsText(rest)|
  {
    hide ItemOk, ItemText, At;
    var items := [item] + rest;
    AtJoin(s, i, ItemText(item), ItemsText(rest));
    assert items[0] == item && items[1..] == rest;
  }

  lemma ItemsNone(enc: Enc, quote: Byte, s: Text, i: nat)
    requires i <= |s|
    ensures ItemsOk(enc, quote, []) && At(s, i, ItemsText([])) && |ItemsText([])| == 0
  {
    AtSlice(s, i, i);
  }

  /** One character of a value that is no reference and not its end. */
  lemma PlainFrom(enc: Enc, quote: Byte, s: Text, i: nat, end: nat) returns (item: Item)
    requires quote == 0x22 || quote == 0x27
    requires i < end <= |s| && s[i] != quote && s[i] != 0x26
    requires Scan(enc, InAtt(AttValue(QuoteClass(quote))), s, i, end).Tok?
    ensures ItemOk(enc, quote, item) && At(s, i, ItemText(item)) && |ItemText(item)| >= 1 && i + |ItemText(item)| <= end
    ensures
      var st := InAtt(AttValue(QuoteClass(quote)));
      Scan(enc, st, s, i, end) == Scan(enc, st, s, i + |ItemText(item)|, end)
  {
    hide Scan, TestChar, ByteType, Utf8Encode, At;
    var st := InAtt(AttValue(QuoteClass(quote)));
    ScanMove(enc, st, s, i, end);
    QuoteIs(enc, quote, s[i]);
    var c := CharFrom(enc, s, i, end);
    AsciiChar(enc, c);
    item := Plain(c);
  }

  lemma QuoteIs(enc: Enc, quote: Byte, b: Byte)
    requires quote == 0x22 || quote == 0x27
    ensures ByteType(enc, b) == QuoteClass(quote) <==> b == quote
    ensures ByteType(enc, b) == AMP <==> b == 0x26
    ensures ByteType(enc, b) == LT <==> b == 0x3C
  {
  }

  /** A value that is accepted is one of the grammar, up to its quote. */
  lemma {:induction false} ItemsFrom(enc: Enc, quote: Byte, s: Text, i: nat, end: nat) returns (items: seq<Item>)
    requires quote == 0x22 || quote == 0x27
    requires i <= end <= |s| && Scan(enc, InAtt(AttValue(QuoteClass(quote))), s, i, end).Tok?
    ensures ItemsOk(enc, quote, items) && At(s, i, ItemsText(items))
    ensures
      var z := i + |ItemsText(items)|;
      && z < end && s[z] == quote
      && Scan(enc, InAtt(AttValue(QuoteClass(quote))), s, i, end) == Scan(enc, InAtt(AttEnd), s, z + 1, end)
    decreases end - i
  {
    hide Scan, ItemsText, ItemsOk, ItemOk, ItemText, RefOk, At;
    var st := InAtt(AttValue(QuoteClass(quote)));
    ScanEmpty(enc, st, s, end);
    items := [];
    ItemsNone(enc, quote, s, i);
    if s[i] == quote {
      ValueCloses(enc, quote, s, i, end);
    } else if s[i] == 0x26 {
      AmpGoes(enc, quote, s, i, end);
      var item := RefFrom(enc, Quote(QuoteClass(quote)), s, i, end);
      var rest := ItemsFrom(enc, quote, s, i + |ItemText(item)|, end);
      RefIsItem(enc, quote, item);
      ItemsCons(s, i, enc, quote, item, rest);
      items := [item] + rest;
    } else {
      var item := PlainFrom(enc, quote, s, i, end);
      var rest := ItemsFrom(enc, quote, s, i + |ItemText(item)|, end);
      ItemsCons(s, i, enc, quote, item, rest);
      items := [item] + rest;
    }
  }

  lemma RefIsItem(enc: Enc, quote: Byte, item: Item)
    requires RefOk(enc, item)
    ensures ItemOk(enc, quote, item) && |ItemText(item)| >= 1
  {
  }

  lemma ValueCloses(enc: Enc, quote: Byte, s: Text, i: nat, end: nat)
    requires (quote == 0x22 || quote == 0x27) && i < end <= |s| && s[i] == quote
    ensures Scan(enc, InAtt(AttValue(QuoteClass(quote))), s, i, end) == Scan(enc, InAtt(AttEnd), s, i + 1, end)
  {
    hide Scan, Look;
    ScanMove(enc, InAtt(AttValue(QuoteClass(quote))), s, i, end);
    MarkView(enc, s, i, end);
  }

  lemma AmpGoes(enc: Enc, quote: Byte, s: Text, i: nat, end: nat)
    requires (quote == 0x22 || quote == 0x27) && i < end <= |s| && s[i] == 0x26
    ensures Scan(enc, InAtt(AttValue(QuoteClass(quote))), s, i, end) ==
      Scan(enc, InRef(RefStart, Quote(QuoteClass(quote))), s, i + 1, end)
  {
    hide Scan, Look;
    ScanMove(enc, InAtt(AttValue(QuoteClass(quote))), s, i, end);
    HashView(enc, s, i, end);
  }

  // -------------------------------------------------------------------- tags

  /** From the end of a name to the beginning of the value: blanks, an equals sign, blanks, a quote. */
  lemma EqualsFrom(enc: Enc, colon: bool, s: Text, i: nat, end: nat) returns (before: Text, after: Text, quote: Byte)
    requires i < end <= |s| && Special(ByteType(enc, s[i])) && ByteType(enc, s[i]) != COLON
    requires Scan(enc, InAtt(AttName(colon)), s, i, end).Tok?
    ensures Blanks(before) && Blanks(after) && (quote == 0x22 || quote == 0x27)
    ensures
      var e := i + |before|;
      var q := e + 1 + |after|;
      && At(s, i, before) && q < end && s[e] == EQUAL && At(s, e + 1, after) && s[q] == quote
      && Scan(enc, InAtt(AttName(colon)), s, i, end) == Scan(enc, InAtt(AttValue(QuoteClass(quote))), s, q + 1, end)
  {
    hide Scan, ByteType, Blanks, At;
    before := BlanksFrom(enc, InAtt(AttName(colon)), s, i, end);
    var e := i + |before|;
    EqualNext(enc, colon, before == [], s, e, end);
    after := BlanksFrom(enc, InAtt(AttEq), s, e + 1, end);
    var q := e + 1 + |after|;
    quote := s[q];
    QuoteNext(enc, s, q, end);
  }

  lemma EqualNext(enc: Enc, colon: bool, named: bool, s: Text, i: nat, end: nat)
    requires i < end <= |s| && !Blank(s[i])
    requires named ==> Special(ByteType(enc, s[i])) && ByteType(enc, s[i]) != COLON
    requires Scan(enc, if named then InAtt(AttName(colon)) else InAtt(AttSpace), s, i, end).Tok?
    ensures s[i] == EQUAL
    ensures Scan(enc, if named then InAtt(AttName(colon)) else InAtt(AttSpace), s, i, end) ==
      Scan(enc, InAtt(AttEq), s, i + 1, end)
  {
    hide Scan, ByteType, TestChar;
    ScanMove(enc, if named then InAtt(AttName(colon)) else InAtt(AttSpace), s, i, end);
    ClassBytes(enc, s[i]);
    SpecialTest(enc, s, i, end);
  }

  lemma SpecialTest(enc: Enc, s: Text, i: nat, end: nat)
    requires i < end <= |s|
    ensures Special(ByteType(enc, s[i])) ==>
      TestChar(enc, CharKind.NameChar, s, i, end) == NotCovered && TestChar(enc, NmstrtChar, s, i, end) == NotCovered
  {
    hide ByteType;
  }

  lemma QuoteNext(enc: Enc, s: Text, i: nat, end: nat)
    requires i < end <= |s| && !Blank(s[i]) && Scan(enc, InAtt(AttEq), s, i, end).Tok?
    ensures s[i] == 0x22 || s[i] == 0x27
    ensures Scan(enc, InAtt(AttEq), s, i, end) == Scan(enc, InAtt(AttValue(QuoteClass(s[i]))), s, i + 1, end)
  {
    hide Scan, TestChar;
    ScanMove(enc, InAtt(AttEq), s, i, end);
  }

  /** A name begins after the blanks before an attribute. */
  lemma AttTakes(st: State, v: View)
    requires st == InTag(TagSpace) || st == InAtt(AttBetween)
    requires !IsSpace(v.c) && v.c != SOL && v.c != GT
    ensures Takes(st, v)
  {
  }

  lemma AttBegins(enc: Enc, st: State, s: Text, i: nat, end: nat)
    requires st == InTag(TagSpace) || st == InAtt(AttBetween)
    requires i < end <= |s| && !Blank(s[i]) && s[i] != SLASH && s[i] != GREATER
    ensures Takes(st, Look(enc, s, i, end)) && forall colon :: NameState(st, colon) == InAtt(AttName(colon))
  {
    hide ByteType, Look, CharStep, Blank, Takes;
    LookIs(enc, s, i, end);
    ClassBytes(enc, s[i]);
    AttTakes(st, Look(enc, s, i, end));
  }

  lemma AttJoined(s: Text, i: nat, a: Att)
    requires At(s, i, a.gap) && At(s, i + |a.gap|, NameText(a.name))
    requires
      var b := i + |a.gap| + |NameText(a.name)|;
      var e := b + |a.before|;
      var q := e + 1 + |a.after|;
      var z := q + 1 + |ItemsText(a.value)|;
      && At(s, b, a.before) && e < |s| && s[e] == EQUAL && At(s, e + 1, a.after) && q < |s| && s[q] == a.quote
      && At(s, q + 1, ItemsText(a.value)) && z < |s| && s[z] == a.quote
    ensures At(s, i, AttText(a))
    ensures |AttText(a)| == |a.gap| + |NameText(a.name)| + |a.before| + 1 + |a.after| + 1 + |ItemsText(a.value)| + 1
  {
    hide NameText, ItemsText, At;
    var b := i + |a.gap| + |NameText(a.name)|;
    var e := b + |a.before|;
    var q := e + 1 + |a.after|;
    AtOne(s, e, EQUAL);
    AtOne(s, q, a.quote);
    AtOne(s, q + 1 + |ItemsText(a.value)|, a.quote);
    var t1 := a.gap + NameText(a.name);
    var t2 := t1 + a.before;
    var t3 := t2 + [EQUAL];
    var t4 := t3 + a.after;
    var t5 := t4 + [a.quote];
    AtJoin(s, i, a.gap, NameText(a.name));
    AtJoin(s, i, t1, a.before);
    AtJoin(s, i, t2, [EQUAL]);
    AtJoin(s, i, t3, a.after);
    AtJoin(s, i, t4, [a.quote]);
    AtJoin(s, i, t5, ItemsText(a.value));
    AtJoin(s, i, t5 + ItemsText(a.value), [a.quote]);
  }

  /** An attribute from the end of its name on. */
  lemma AttRest(enc: Enc, colon: bool, s: Text, b: nat, end: nat)
      returns (before: Text, after: Text, quote: Byte, value: seq<Item>)
    requires b < end <= |s| && Special(ByteType(enc, s[b])) && ByteType(enc, s[b]) != COLON
    requires Scan(enc, InAtt(AttName(colon)), s, b, end).Tok?
    ensures Blanks(before) && Blanks(after) && (quote == 0x22 || quote == 0x27) && ItemsOk(enc, quote, value)
    ensures
      var e := b + |before|;
      var q := e + 1 + |after|;
      var z := q + 1 + |ItemsText(value)|;
      && At(s, b, before) && z < end && s[e] == EQUAL && At(s, e + 1, after) && s[q] == quote
      && At(s, q + 1, ItemsText(value)) && s[z] == quote
      && Scan(enc, InAtt(AttName(colon)), s, b, end) == Scan(enc, InAtt(AttEnd), s, z + 1, end)
  {
    hide Scan, ByteType, ItemsOk, ItemsText, Blanks, Blank, Special, At, QuoteClass;
    before, after, quote := EqualsFrom(enc, colon, s, b, end);
    value := ItemsFrom(enc, quote, s, b + |before| + 1 + |after| + 1, end);
  }

  /** An attribute, after the blanks before it. */
  lemma AttFrom(enc: Enc, st: State, gap: Text, s: Text, i: nat, end: nat) returns (a: Att)
    requires st == InTag(TagSpace) || st == InAtt(AttBetween)
    requires gap != [] && Blanks(gap) && At(s, i, gap) && i + |gap| < end <= |s|
    requires !Blank(s[i + |gap|]) && s[i + |gap|] != SLASH && s[i + |gap|] != GREATER
    requires Scan(enc, st, s, i + |gap|, end).Tok?
    ensures AttOk(enc, a) && At(s, i, AttText(a)) && |AttText(a)| >= 1 && i + |AttText(a)| <= end
    ensures Scan(enc, st, s, i + |gap|, end) == Scan(enc, InAtt(AttEnd), s, i + |AttText(a)|, end)
  {
    hide Scan, ByteType, Look, CharStep, NameText, NameOk, ItemsOk, ItemsText, AttText, Blanks, Blank, Special, At;
    hide Takes;
    hide NameState;
    var n := i + |gap|;
    AttBegins(enc, st, s, n, end);
    var name := QFrom(enc, st, s, n, end);
    var before, after, quote, value := AttRest(enc, name.prefix != [], s, n + |NameText(name)|, end);
    a := Att(gap, name, before, after, quote, value);
    AttJoined(s, i, a);
  }

  /** What is left of a tag after its name: attributes, blanks, and its end. */
  lemma {:induction false} AttsFrom(enc: Enc, st: State, s: Text, i: nat, end: nat)
      returns (atts: seq<Att>, gap: Text, empty: bool)
    requires i < end <= |s| && Between(st) && Scan(enc, st, s, i, end).Tok?
    requires st.InTag? ==> Special(ByteType(enc, s[i])) && ByteType(enc, s[i]) != COLON
    ensures AttsOk(enc, atts) && Blanks(gap) && At(s, i, AttsText(atts)) && At(s, i + |AttsText(atts)|, gap)
    ensures
      var z, flag := i + |AttsText(atts)| + |gap|, st.InAtt? || atts != [];
      && At(s, z, if empty then [SLASH, GREATER] else [GREATER])
      && Scan(enc, st, s, i, end) ==
         Tok(if empty then EmptyElement(flag) else StartTag(flag), z + if empty then 2 else 1)
    decreases end - i
  {
    hide Scan, ByteType, AttText, AttOk, Blanks, Blank, Special, AttsText, AttsOk, At;
    BetweenSpacing(st);
    var blanks := BlanksFrom(enc, st, s, i, end);
    var n, mid := i + |blanks|, AfterBlanks(st, blanks);
    AttsNone(enc, s, i);
    if s[n] == SLASH || s[n] == GREATER {
      atts, gap := [], blanks;
      empty := TagEnds(enc, mid, s, n, end);
    } else {
      GapNeeded(enc, st, s, n, end, blanks);
      var a := AttFrom(enc, mid, blanks, s, i, end);
      var m := i + |AttText(a)|;
      ScanEmpty(enc, InAtt(AttEnd), s, end);
      var more, rest, slash := AttsFrom(enc, InAtt(AttEnd), s, m, end);
      AttsCons(enc, s, i, a, more);
      atts, gap, empty := [a] + more, rest, slash;
    }
  }

  lemma BetweenSpacing(st: State)
    requires Between(st)
    ensures Spacing(st) && (Spaced(st) == InTag(TagSpace) || Spaced(st) == InAtt(AttBetween))
    ensures Spaced(st).InAtt? <==> st.InAtt?
  {
  }

  lemma AttsNone(enc: Enc, s: Text, i: nat)
    requires i <= |s|
    ensures AttsOk(enc, []) && At(s, i, AttsText([])) && |AttsText([])| == 0
  {
    AtSlice(s, i, i);
  }

  lemma AttsCons(enc: Enc, s: Text, i: nat, a: Att, more: seq<Att>)
    requires AttOk(enc, a) && At(s, i, AttText(a)) && AttsOk(enc, more) && At(s, i + |AttText(a)|, AttsText(more))
    ensures AttsOk(enc, [a] + more) && At(s, i, AttsText([a] + more))
    ensures |AttsText([a] + more)| == |AttText(a)| + |AttsText(more)|
  {
    hide AttOk, AttText, At;
    var atts := [a] + more;
    AtJoin(s, i, AttText(a), AttsText(more));
    assert atts[0] == a && atts[1..] == more;
  }

  /** A slash or a `>` where the attributes end. */
  lemma TagEnds(enc: Enc, st: State, s: Text, i: nat, end: nat) returns (empty: bool)
    requires i < end <= |s| && (s[i] == SLASH || s[i] == GREATER) && Scan(enc, st, s, i, end).Tok?
    requires
      match st
      case InTag(TagName(_)) => true
      case InTag(TagSpace) => true
      case InAtt(AttEnd) => true
      case InAtt(AttBetween) => true
      case _ => false
    ensures At(s, i, if empty then [SLASH, GREATER] else [GREATER])
    ensures Scan(enc, st, s, i, end) ==
      Tok(if empty then EmptyElement(st.InAtt?) else StartTag(st.InAtt?), i + if empty then 2 else 1)
  {
    hide Scan, Look;
    MarkView(enc, s, i, end);
    ScanMove(enc, st, s, i, end);
    empty := s[i] == SLASH;
    AtOne(s, i, s[i]);
    if empty {
      var sol := InTag(TagSol(st.InAtt?));
      ScanEmpty(enc, sol, s, end);
      MarkView(enc, s, i + 1, end);
      ScanMove(enc, sol, s, i + 1, end);
      AtOne(s, i + 1, GREATER);
      AtJoin(s, i, [SLASH], [GREATER]);
    }
  }

  /** Before an attribute there is a blank. */
  lemma GapNeeded(enc: Enc, st: State, s: Text, i: nat, end: nat, blanks: Text)
    requires i < end <= |s| && Between(st) && !Blank(s[i]) && s[i] != SLASH && s[i] != GREATER
    requires Scan(enc, AfterBlanks(st, blanks), s, i, end).Tok?
    requires st.InTag? && blanks == [] ==> Special(ByteType(enc, s[i])) && ByteType(enc, s[i]) != COLON
    ensures blanks != []
  {
    hide Scan, ByteType, TestChar;
    if blanks == [] {
      ScanMove(enc, st, s, i, end);
      ClassBytes(enc, s[i]);
      SpecialTest(enc, s, i, end);
      assert false;
    }
  }

  lemma LtTakes(enc: Enc, s: Text, i: nat, end: nat)
    requires i < end <= |s| && s[i] != 0x21 && s[i] != 0x3F && s[i] != SLASH
    ensures Takes(Lt, Look(enc, s, i, end))
  {
    hide TestChar;
  }

  lemma TagJoined(s: Text, i: nat, p: Piece)
    requires p.STag? && i < |s| && s[i] == 0x3C
    requires
      var n := i + 1 + |NameText(p.name)|;
      var g := n + |AttsText(p.atts)|;
      && At(s, i + 1, NameText(p.name)) && At(s, n, AttsText(p.atts)) && At(s, g, p.gap)
      && At(s, g + |p.gap|, if p.empty then [SLASH, GREATER] else [GREATER])
    ensures At(s, i, PieceText(p))
    ensures |PieceText(p)| == 1 + |NameText(p.name)| + |AttsText(p.atts)| + |p.gap| + if p.empty then 2 else 1
  {
    hide NameText, AttsText, At;
    AtOne(s, i, 0x3C);
    var last := if p.empty then [SLASH, GREATER] else [GREATER];
    var t1: Text := [0x3C] + NameText(p.name);
    var t2 := t1 + AttsText(p.atts);
    AtJoin(s, i, [0x3C], NameText(p.name));
    AtJoin(s, i, t1, AttsText(p.atts));
    AtJoin(s, i, t2, p.gap);
    AtJoin(s, i, t2 + p.gap, last);
  }

  /** A tag that is accepted is one of the grammar. */
  lemma TagFrom(enc: Enc, s: Text, i: nat, end: nat) returns (p: Piece)
    requires i + 1 < end <= |s| && s[i] == 0x3C && s[i + 1] != 0x21 && s[i + 1] != 0x3F && s[i + 1] != SLASH
    requires Scan(enc, Lt, s, i + 1, end).Tok?
    ensures p.STag? && PieceOk(enc, p) && At(s, i, PieceText(p))
    ensures Scan(enc, Lt, s, i + 1, end) == Tok(TagToken(p), i + |PieceText(p)|)
  {
    hide Scan, ByteType, Look, CharStep, NameText, NameOk, AttsText, AttsOk, Blanks, Special, Takes, PieceText, At;
    LtTakes(enc, s, i + 1, end);
    var name := QFrom(enc, Lt, s, i + 1, end);
    var n := i + 1 + |NameText(name)|;
    var atts, gap, empty := AttsFrom(enc, InTag(TagName(name.prefix != [])), s, n, end);
    p := STag(name, atts, gap, empty);
    TagJoined(s, i, p);
  }

  // ---------------------------------------------------------------- end tags

  /** One character of a name in an end tag. */
  lemma EndNameStep(enc: Enc, s: Text, i: nat, end: nat)
    requires i < end <= |s| && !Blank(s[i]) && s[i] != GREATER && Scan(enc, InEnd(EndName), s, i, end).Tok?
    ensures
      var w := Width(s[i]);
      && 1 <= w && i + w <= end && Scan(enc, InEnd(EndName), s, i, end) == Scan(enc, InEnd(EndName), s, i + w, end)
      && (NameAscii(s[i]) || s[i] == COLON_BYTE || (0xC0 <= s[i] < 0xF0 && enc.name(s[i..i + w])))
  {
    hide ByteType, Look, Scan, NameAscii, Width, Blank;
    ScanMove(enc, InEnd(EndName), s, i, end);
    LookIs(enc, s, i, end);
    ClassBytes(enc, s[i]);
    ColonIs(enc, s[i]);
    ColonWidth();
    if s[i] != COLON_BYTE { NameChar(enc, s, i, end); }
  }

  lemma {:induction false} EndRestFrom(enc: Enc, s: Text, i: nat, end: nat) returns (t: Text)
    requires i <= end <= |s| && Scan(enc, InEnd(EndName), s, i, end).Tok?
    ensures EndRest(enc, t) && At(s, i, t) && i + |t| < end && (Blank(s[i + |t|]) || s[i + |t|] == GREATER)
    ensures Scan(enc, InEnd(EndName), s, i, end) == Scan(enc, InEnd(EndName), s, i + |t|, end)
    decreases end - i
  {
    hide Look, Scan, EndRest, NameAscii, Width, Blank, At, CharStep;
    ScanEmpty(enc, InEnd(EndName), s, end);
    t := [];
    AtNothing(s, i);
    EndRestNone(enc);
    if !Blank(s[i]) && s[i] != GREATER {
      EndNameStep(enc, s, i, end);
      var w := Width(s[i]);
      var rest := EndRestFrom(enc, s, i + w, end);
      EndRestCons(enc, s, i, rest);
      t := s[i..i + w] + rest;
    }
  }

  lemma EndRestNone(enc: Enc)
    ensures EndRest(enc, [])
  {
  }

  lemma ColonWidth()
    ensures Width(COLON_BYTE) == 1
  {
  }

  lemma EndRestCons(enc: Enc, s: Text, i: nat, t: Text)
    requires i < |s| && 1 <= Width(s[i]) && At(s, i + Width(s[i]), t) && EndRest(enc, t)
    requires NameAscii(s[i]) || s[i] == COLON_BYTE || (0xC0 <= s[i] < 0xF0 && enc.name(s[i..i + Width(s[i])]))
    ensures At(s, i, s[i..i + Width(s[i])] + t) && EndRest(enc, s[i..i + Width(s[i])] + t)
  {
    var w := Width(s[i]);
    var c := s[i..i + w];
    AtSlice(s, i, i + w);
    AtJoin(s, i, c, t);
    assert (c + t)[..w] == c && (c + t)[w..] == t && (c + t)[0] == s[i];
    hide NameAscii, Width, At;
  }

  /** The name in an end tag. */
  lemma ClosingFrom(enc: Enc, s: Text, i: nat, end: nat) returns (t: Text)
    requires i < end <= |s| && Scan(enc, InEnd(EndStart), s, i, end).Tok?
    ensures ClosingName(enc, t) && At(s, i, t) && i + |t| < end && (Blank(s[i + |t|]) || s[i + |t|] == GREATER)
    ensures Scan(enc, InEnd(EndStart), s, i, end) == Scan(enc, InEnd(EndName), s, i + |t|, end)
  {
    hide ByteType, Look, Scan, EndRest, Letter, Width, Blank, At;
    ScanMove(enc, InEnd(EndStart), s, i, end);
    StartChar(enc, s, i, end);
    var w := Width(s[i]);
    var c := s[i..i + w];
    var rest := EndRestFrom(enc, s, i + w, end);
    t := c + rest;
    AtSlice(s, i, i + w);
    AtJoin(s, i, c, rest);
    assert t[..w] == c && t[w..] == rest && t[0] == s[i];
  }

  /** An end tag that is accepted is one of the grammar. */
  lemma EndFrom(enc: Enc, s: Text, i: nat, end: nat) returns (p: Piece)
    requires i + 1 < end <= |s| && s[i] == 0x3C && s[i + 1] == SLASH && Scan(enc, Lt, s, i + 1, end).Tok?
    ensures p.ETag? && PieceOk(enc, p) && At(s, i, PieceText(p))
    ensures Scan(enc, Lt, s, i + 1, end) == Tok(EndTag, i + |PieceText(p)|)
  {
    hide Scan, ClosingName, Blanks, At;
    SlashGoes(enc, s, i + 1, end);
    ScanEmpty(enc, InEnd(EndStart), s, end);
    var name := ClosingFrom(enc, s, i + 2, end);
    var n, named := i + 2 + |name|, InEnd(EndName);
    var gap := BlanksFrom(enc, named, s, n, end);
    var z := n + |gap|;
    EndNext(enc, AfterBlanks(named, gap), s, z, end, gap == []);
    EndCloses(enc, AfterBlanks(named, gap), s, z, end);
    p := ETag(name, gap);
    AtOne(s, i, 0x3C);
    AtOne(s, i + 1, SLASH);
    AtJoin(s, i, [0x3C], [SLASH]);
    assert [0x3C] + [SLASH] == [0x3C, SLASH];
    AtJoin(s, i, [0x3C, SLASH], name);
    AtJoin(s, i, [0x3C, SLASH] + name, gap);
    AtOne(s, z, GREATER);
    AtJoin(s, i, [0x3C, SLASH] + name + gap, [GREATER]);
  }

  lemma EndNext(enc: Enc, st: State, s: Text, i: nat, end: nat, named: bool)
    requires st == (if named then InEnd(EndName) else InEnd(EndSpace)) && i < end <= |s| && !Blank(s[i])
    requires named ==> Blank(s[i]) || s[i] == GREATER
    requires Scan(enc, st, s, i, end).Tok?
    ensures s[i] == GREATER
  {
    hide Scan, ByteType, TestChar;
    ScanMove(enc, st, s, i, end);
    ClassBytes(enc, s[i]);
  }

  // ------------------------------------------------------------ comments

  lemma WithoutCons(c: int, cs: seq<int>, a: int, b: int)
    requires Without(cs, [a, b]) && !(c == a && cs != [] && cs[0] == b)
    ensures Without([c] + cs, [a, b])
  {
    var t := [c] + cs;
    forall k: nat ensures !HoldsAt(t, [a, b], k) {
      if k > 0 {
        assert !HoldsAt(cs, [a, b], k - 1);
        assert k + 2 <= |t| ==> t[k..k + 2] == cs[k - 1..k + 1];
      } else if 2 <= |t| {
        assert t[0..2] == [t[0], t[1]];
      }
    }
  }

  lemma WithoutNone(bad: seq<int>)
    requires bad != []
    ensures Without([], bad)
  {
  }

  /** One character more, in front. */
  lemma EncodeCons(s: Text, i: nat, c: int, cs: seq<int>, last: Text)
    requires At(s, i, Utf8Encode(c)) && At(s, i + Len(c), Utf.Encode8(cs) + last)
    ensures At(s, i, Utf.Encode8([c] + cs) + last) && |Utf.Encode8([c] + cs)| == Len(c) + |Utf.Encode8(cs)|
  {
    hide Utf8Encode, At;
    AtJoin(s, i, Utf8Encode(c), Utf.Encode8(cs) + last);
    EncodeStep([c] + cs);
    assert ([c] + cs)[1..] == cs;
    assert Utf8Encode(c) + (Utf.Encode8(cs) + last) == Utf.Encode8([c] + cs) + last;
  }

  /** A character of a comment or an instruction. */
  lemma FreeFrom(enc: Enc, st: State, s: Text, i: nat, end: nat) returns (c: int)
    requires st == InComment(Body) || st == InComment(Minus) || (st.InPi? && (st.pi.PiBody? || st.pi.PiQuest?))
    requires i < end <= |s| && Scan(enc, st, s, i, end).Tok? && !(st.InPi? && st.pi.PiQuest? && s[i] == 0x3E)
    ensures Utf.XmlChar(c) && At(s, i, Utf8Encode(c)) && i + Len(c) <= end && 1 <= Len(c)
    ensures !(st.InPi? && st.pi.PiQuest? && c == 0x3E)
    ensures (c < 0x80 ==> c == s[i]) && (s[i] < 0x80 ==> c == s[i])
  {
    hide Scan, TestChar, ByteType, Utf8Encode, At;
    ScanMove(enc, st, s, i, end);
    MarkBytes(enc, s, i, end);
    c := CharFrom(enc, s, i, end);
    AsciiChar(enc, c);
    CharView(enc, s, i, c, end);
    if c >= 0x80 { HighBytes(enc, s[i]); }
  }

  lemma HighBytes(enc: Enc, b: Byte)
    requires LeadLen(ByteType(enc, b)) > 0
    ensures b >= 0xC0
  {
  }

  lemma MarkBytes(enc: Enc, s: Text, i: nat, end: nat)
    requires i < end <= |s|
    ensures ByteType(enc, s[i]) == MINUS || ByteType(enc, s[i]) == QUEST ==>
      TestChar(enc, DataChar, s, i, end) == NotCovered
  {
  }

  /** The rest of a comment, from its body or from behind a hyphen. */
  lemma {:induction false} CommentFrom(enc: Enc, hyphen: bool, s: Text, i: nat, end: nat)
      returns (done: bool, cs: seq<int>)
    requires i <= end <= |s| && Scan(enc, InComment(if hyphen then Minus else Body), s, i, end).Tok?
    ensures
      var r := Scan(enc, InComment(if hyphen then Minus else Body), s, i, end);
      if done then hyphen && r == Tok(Comment, i + 2) && At(s, i, [0x2D, GREATER])
      else
        && Utf.XmlChars(cs) && Without(cs, [0x2D, 0x2D]) && (cs != [] ==> cs[|cs| - 1] != 0x2D)
        && (hyphen ==> cs != [] && cs[0] != 0x2D)
        && At(s, i, Utf.Encode8(cs) + [0x2D, 0x2D, GREATER]) && r == Tok(Comment, i + |Utf.Encode8(cs)| + 3)
    decreases end - i
  {
    hide Scan, Utf8Encode, Without, Utf.Encode8, Utf.XmlChar, At;
    var st := InComment(if hyphen then Minus else Body);
    ScanEmpty(enc, st, s, end);
    done, cs := false, [];
    if hyphen && s[i] == 0x2D {
      CommentEnds(enc, s, i, end);
      done := true;
    } else {
      var c := FreeFrom(enc, st, s, i, end);
      FreeGoes(enc, st, s, i, c, end);
      var over, rest := CommentFrom(enc, c == 0x2D, s, i + Len(c), end);
      var last := [0x2D, 0x2D, GREATER];
      if over {
        AsciiChar(enc, c);
        assert At(s, i + 1, [0x2D, GREATER]);
        HyphenLast(s, i);
      } else {
        EncodeCons(s, i, c, rest, last);
        WithoutCons(c, rest, 0x2D, 0x2D);
        cs := [c] + rest;
      }
    }
  }

  /** The second hyphen and what has to follow it. */
  lemma CommentEnds(enc: Enc, s: Text, i: nat, end: nat)
    requires i < end <= |s| && s[i] == 0x2D && Scan(enc, InComment(Minus), s, i, end).Tok?
    ensures At(s, i, [0x2D, GREATER]) && Scan(enc, InComment(Minus), s, i, end) == Tok(Comment, i + 2)
  {
    hide Scan, TestChar;
    ScanMove(enc, InComment(Minus), s, i, end);
    ScanEmpty(enc, InComment(MinusMinus), s, end);
    ScanMove(enc, InComment(MinusMinus), s, i + 1, end);
  }

  lemma HyphenLast(s: Text, i: nat)
    requires i < |s| && s[i] == 0x2D && At(s, i + 1, [0x2D, GREATER])
    ensures At(s, i, Utf.Encode8([]) + [0x2D, 0x2D, GREATER]) && |Utf.Encode8([])| == 0
    ensures Without([], [0x2D, 0x2D])
  {
    EncodeNone([]);
    WithoutNone([0x2D, 0x2D]);
    AtOne(s, i, 0x2D);
    AtJoin(s, i, [0x2D], [0x2D, GREATER]);
    assert Utf.Encode8([]) + [0x2D, 0x2D, GREATER] == [0x2D] + [0x2D, GREATER];
  }

  /** A comment that is accepted is one of the grammar. */
  lemma RemarkFrom(enc: Enc, s: Text, i: nat, end: nat) returns (p: Piece)
    requires i + 2 < end <= |s| && s[i] == 0x3C && s[i + 1] == 0x21 && s[i + 2] == 0x2D
    requires Scan(enc, Lt, s, i + 1, end).Tok?
    ensures p.Remark? && PieceOk(enc, p) && At(s, i, PieceText(p))
    ensures Scan(enc, Lt, s, i + 1, end) == Tok(Comment, i + |PieceText(p)|)
  {
    hide Scan, Utf.Encode8, Without, Utf.XmlChars, At;
    DashNext(enc, s, i, end);
    OpensComment(enc, s, i, end);
    var done, cs := CommentFrom(enc, false, s, i + 4, end);
    p := Remark(cs);
    var head, body, last := [0x3C, 0x21, 0x2D, 0x2D], Utf.Encode8(cs), [0x2D, 0x2D, GREATER];
    AtJoin(s, i, head, body + last);
    assert PieceText(p) == head + (body + last);
  }

  lemma DashNext(enc: Enc, s: Text, i: nat, end: nat)
    requires i + 2 < end <= |s| && s[i] == 0x3C && s[i + 1] == 0x21 && s[i + 2] == 0x2D
    requires Scan(enc, Lt, s, i + 1, end).Tok?
    ensures i + 3 < end && s[i + 3] == 0x2D && At(s, i, [0x3C, 0x21, 0x2D, 0x2D])
  {
    hide Scan, Look;
    BangView(enc, s, i + 1, end);
    BangView(enc, s, i + 2, end);
    ScanMove(enc, Lt, s, i + 1, end);
    ScanMove(enc, Excl, s, i + 2, end);
    ScanEmpty(enc, InComment(Dash), s, end);
    BangView(enc, s, i + 3, end);
    ScanMove(enc, InComment(Dash), s, i + 3, end);
    assert s[i..i + 4] == [s[i], s[i + 1], s[i + 2], s[i + 3]];
  }

  // ------------------------------------------------------------ instructions

  /** The rest of an instruction, from its body or from behind a question mark. */
  lemma {:induction false} BodyFrom(enc: Enc, tok: Token, quest: bool, s: Text, i: nat, end: nat)
      returns (done: bool, cs: seq<int>)
    requires i <= end <= |s| && Scan(enc, InPi(if quest then PiQuest(tok) else PiBody(tok)), s, i, end).Tok?
    ensures
      var r := Scan(enc, InPi(if quest then PiQuest(tok) else PiBody(tok)), s, i, end);
      if done then quest && r == Tok(tok, i + 1) && At(s, i, [GREATER])
      else
        && Utf.XmlChars(cs) && Without(cs, [0x3F, 0x3E]) && (quest && cs != [] ==> cs[0] != 0x3E)
        && At(s, i, Utf.Encode8(cs) + [0x3F, GREATER]) && r == Tok(tok, i + |Utf.Encode8(cs)| + 2)
    decreases end - i
  {
    hide Scan, Utf8Encode, Without, Utf.Encode8, Utf.XmlChar, At;
    var st := InPi(if quest then PiQuest(tok) else PiBody(tok));
    ScanEmpty(enc, st, s, end);
    done, cs := false, [];
    if quest && s[i] == 0x3E {
      BodyCloses(enc, tok, s, i, end);
      done := true;
    } else {
      var c := FreeFrom(enc, st, s, i, end);
      FreeGoes(enc, st, s, i, c, end);
      var over, rest := BodyFrom(enc, tok, c == 0x3F, s, i + Len(c), end);
      if over {
        AsciiChar(enc, c);
        assert At(s, i + 1, [GREATER]);
        QuestLast(s, i);
      } else {
        EncodeCons(s, i, c, rest, [0x3F, GREATER]);
        WithoutCons(c, rest, 0x3F, 0x3E);
        cs := [c] + rest;
      }
    }
  }

  lemma BodyCloses(enc: Enc, tok: Token, s: Text, i: nat, end: nat)
    requires i < end <= |s| && s[i] == 0x3E
    ensures At(s, i, [GREATER]) && Scan(enc, InPi(PiQuest(tok)), s, i, end) == Tok(tok, i + 1)
  {
    hide Scan, Look;
    MarkView(enc, s, i, end);
    ScanMove(enc, InPi(PiQuest(tok)), s, i, end);
  }

  lemma QuestLast(s: Text, i: nat)
    requires i < |s| && s[i] == 0x3F && At(s, i + 1, [GREATER])
    ensures At(s, i, Utf.Encode8([]) + [0x3F, GREATER]) && |Utf.Encode8([])| == 0
    ensures Without([], [0x3F, 0x3E])
  {
    EncodeNone([]);
    WithoutNone([0x3F, 0x3E]);
    AtOne(s, i, 0x3F);
    AtJoin(s, i, [0x3F], [GREATER]);
    assert Utf.Encode8([]) + [0x3F, GREATER] == [0x3F] + [GREATER];
  }

  /** The blanks that some characters begin with, and the others. */
  lemma {:induction false} SplitBlanks(cs: seq<int>) returns (gap: Text, body: seq<int>)
    requires Utf.XmlChars(cs) && Without(cs, [0x3F, 0x3E])
    ensures Utf.Encode8(cs) == gap + Utf.Encode8(body) && Blanks(gap) && Utf.XmlChars(body)
    ensures Without(body, [0x3F, 0x3E])
    ensures body != [] ==> Utf8Encode(body[0]) != [] && !Blank(Utf8Encode(body[0])[0])
    decreases |cs|
  {
    hide Utf8Encode, Without, Utf.Encode8, Utf.XmlChar, Blank;
    if cs == [] {
      gap, body := [], cs;
    } else {
      var first := Utf8Encode(cs[0]);
      BlankByte(cs[0]);
      if Blank(first[0]) {
        EncodeStep(cs);
        WithoutRest(cs, [0x3F, 0x3E]);
        var more, rest := SplitBlanks(cs[1..]);
        gap, body := first + more, rest;
        assert first + (more + Utf.Encode8(rest)) == gap + Utf.Encode8(rest);
      } else {
        gap, body := [], cs;
        assert [] + Utf.Encode8(cs) == Utf.Encode8(cs);
      }
    }
  }

  lemma BlankByte(c: int)
    requires Utf.XmlChar(c)
    ensures Utf8Encode(c) != [] && (Blank(Utf8Encode(c)[0]) ==> |Utf8Encode(c)| == 1)
  {
  }

  /** The end of a target: a blank or a question mark, and the target is not kept for others. */
  lemma TargetNext(enc: Enc, target: Text, s: Text, i: nat, end: nat) returns (tok: Token)
    requires i < end <= |s| && Special(ByteType(enc, s[i])) && Scan(enc, InPi(PiName(target)), s, i, end).Tok?
    ensures s[i] == 0x3F || Blank(s[i])
    ensures tok == TargetToken(target) && (tok == Pi ==> !Reserved(target))
    ensures Scan(enc, InPi(PiName(target)), s, i, end) ==
      Scan(enc, InPi(if s[i] == 0x3F then PiNameQuest(tok) else PiBody(tok)), s, i + 1, end)
  {
    hide Scan, ByteType, TestChar, CheckPiTarget;
    tok := TargetToken(target);
    ScanMove(enc, InPi(PiName(target)), s, i, end);
    TargetIs(target);
    QuestClass(enc, s[i]);
    SpecialTest(enc, s, i, end);
  }

  lemma PiTakes(v: View)
    ensures Takes(InPi(PiStart), v)
  {
  }

  lemma TargetState(t: Text)
    requires t != [] && Width(t[0]) <= |t|
    ensures Starting(InPi(PiStart))
    ensures Grown(Started(InPi(PiStart), t[..Width(t[0])]), t[Width(t[0])..]) == InPi(PiName(t))
  {
    assert t[..Width(t[0])] + t[Width(t[0])..] == t;
  }

  /** The target of an instruction. */
  lemma TargetFrom(enc: Enc, s: Text, i: nat, end: nat) returns (t: Text, tok: Token)
    requires i + 2 <= end <= |s| && s[i + 1] == 0x3F && Scan(enc, Lt, s, i + 1, end).Tok?
    ensures NcName(enc, t) && At(s, i + 2, t)
    ensures tok == TargetToken(t) && (tok == Pi ==> !Reserved(t))
    ensures
      var n := i + 2 + |t|;
      && n < end && (s[n] == 0x3F || Blank(s[n]))
      && Scan(enc, Lt, s, i + 1, end) ==
        Scan(enc, InPi(if s[n] == 0x3F then PiNameQuest(tok) else PiBody(tok)), s, n + 1, end)
  {
    hide Scan, Look, CharStep, NcName, Width, Special, Takes, ByteType, Blank, Reserved, At;
    QuestionGoes(enc, s, i + 1, end);
    ScanEmpty(enc, InPi(PiStart), s, end);
    PiTakes(Look(enc, s, i + 2, end));
    t := NcFrom(enc, InPi(PiStart), s, i + 2, end);
    NotEmpty(enc, t);
    TargetState(t);
    tok := TargetNext(enc, t, s, i + 2 + |t|, end);
  }

  lemma InstructionJoined(s: Text, i: nat, p: Piece)
    requires p.Instruction? && i + 1 < |s| && s[i] == 0x3C && s[i + 1] == 0x3F && At(s, i + 2, p.target)
    requires
      var n := i + 2 + |p.target|;
      At(s, n, p.pgap) && At(s, n + |p.pgap|, Utf.Encode8(p.body) + [0x3F, GREATER])
    ensures At(s, i, PieceText(p))
    ensures |PieceText(p)| == 2 + |p.target| + |p.pgap| + |Utf.Encode8(p.body)| + 2
  {
    hide Utf.Encode8, At;
    AtOne(s, i, 0x3C);
    AtOne(s, i + 1, 0x3F);
    AtJoin(s, i, [0x3C], [0x3F]);
    assert [0x3C] + [0x3F] == [0x3C, 0x3F];
    AtJoin(s, i, [0x3C, 0x3F], p.target);
    AtJoin(s, i, [0x3C, 0x3F] + p.target, p.pgap);
    AtJoin(s, i, [0x3C, 0x3F] + p.target + p.pgap, Utf.Encode8(p.body) + [0x3F, GREATER]);
    assert PieceText(p) == ([0x3C, 0x3F] + p.target + p.pgap) + (Utf.Encode8(p.body) + [0x3F, GREATER]);
  }

  /** An instruction that is accepted is one of the grammar, but for the XML declaration. */
  lemma InstructionFrom(enc: Enc, s: Text, i: nat, end: nat) returns (p: Piece)
    requires i + 2 <= end <= |s| && s[i] == 0x3C && s[i + 1] == 0x3F && Scan(enc, Lt, s, i + 1, end).Tok?
    requires Scan(enc, Lt, s, i + 1, end).tok == Pi
    ensures p.Instruction? && PieceOk(enc, p) && At(s, i, PieceText(p))
    ensures Scan(enc, Lt, s, i + 1, end) == Tok(Pi, i + |PieceText(p)|)
  {
    hide Scan, NcName, Utf.Encode8, Utf8Encode, Without, Reserved, PieceText, At, Blank, TargetToken, Utf.XmlChars;
    var target, tok := TargetFrom(enc, s, i, end);
    var n := i + 2 + |target|;
    if s[n] == 0x3F {
      ScanKind(enc, InPi(PiNameQuest(tok)), s, n + 1, end);
      NameQuest(enc, tok, s, n + 1, end);
      p := Instruction(target, [], []);
      NoBody(s, n);
    } else {
      ScanKind(enc, InPi(PiBody(tok)), s, n + 1, end);
      var done, cs := BodyFrom(enc, tok, false, s, n + 1, end);
      var more, body := SplitBlanks(cs);
      p := Instruction(target, [s[n]] + more, body);
      GapJoined(s, n, more, Utf.Encode8(body), Utf.Encode8(cs));
    }
    InstructionJoined(s, i, p);
  }

  lemma NoBody(s: Text, n: nat)
    requires n + 1 < |s| && s[n] == 0x3F && s[n + 1] == GREATER
    ensures Utf.XmlChars([]) && Without([], [0x3F, 0x3E]) && At(s, n, []) && At(s, n, Utf.Encode8([]) + [0x3F, GREATER])
    ensures |Utf.Encode8([])| == 0
  {
    WithoutNone([0x3F, 0x3E]);
    EncodeNone([]);
    AtOne(s, n, 0x3F);
    AtOne(s, n + 1, GREATER);
    AtJoin(s, n, [0x3F], [GREATER]);
    assert Utf.Encode8([]) + [0x3F, GREATER] == [0x3F] + [GREATER];
    AtSlice(s, n, n);
  }

  lemma GapJoined(s: Text, n: nat, more: Text, body: Text, all: Text)
    requires n < |s| && Blank(s[n]) && Blanks(more) && all == more + body && At(s, n + 1, all + [0x3F, GREATER])
    ensures Blanks([s[n]] + more) && At(s, n, [s[n]] + more) && At(s, n + 1 + |more|, body + [0x3F, GREATER])
    ensures |all| == |more| + |body|
  {
    hide Blank, At;
    assert all + [0x3F, GREATER] == more + (body + [0x3F, GREATER]);
    AtParts(s, n + 1, more, body + [0x3F, GREATER]);
    AtOne(s, n, s[n]);
    AtJoin(s, n, [s[n]], more);
  }

  lemma NameQuest(enc: Enc, tok: Token, s: Text, i: nat, end: nat)
    requires i <= end <= |s| && Scan(enc, InPi(PiNameQuest(tok)), s, i, end).Tok?
    ensures i < end && s[i] == GREATER && Scan(enc, InPi(PiNameQuest(tok)), s, i, end) == Tok(tok, i + 1)
  {
    hide Scan, Look;
    ScanEmpty(enc, InPi(PiNameQuest(tok)), s, end);
    MarkView(enc, s, i, end);
    ScanMove(enc, InPi(PiNameQuest(tok)), s, i, end);
  }

  // ---------------------------------------------------------- CDATA sections

  lemma {:induction false} CdataMatched(s: Text, i: nat, k: nat)
    requires k <= 6 && i + 6 <= |s| && CdataMatch(s, i, k) == 6
    ensures forall j :: k <= j < 6 ==> s[i + j] == CDATA_LSQB[j]
    decreases 6 - k
  {
    if k < 6 && s[i + k] == CDATA_LSQB[k] { CdataMatched(s, i, k + 1); }
  }

  lemma CdataIs(s: Text, i: nat)
    requires i + 6 <= |s| && CdataMatch(s, i, 0) == 6
    ensures At(s, i, CDATA_LSQB)
  {
    hide CdataMatch;
    CdataMatched(s, i, 0);
    assert s[i..i + 6] == CDATA_LSQB;
  }

  /** A section that is opened begins as the grammar says. */
  lemma SectionFrom(enc: Enc, s: Text, i: nat, end: nat)
    requires i + 2 < end <= |s| && s[i] == 0x3C && s[i + 1] == 0x21 && s[i + 2] == 0x5B
    requires Scan(enc, Lt, s, i + 1, end).Tok?
    ensures At(s, i, CDATA_START) && Scan(enc, Lt, s, i + 1, end) == Tok(CdataOpen, i + 9)
  {
    hide Scan, CdataMatch, CharStep, Look, At;
    OpensCdata(enc, s, i, end);
    ScanEmpty(enc, Cdata, s, end);
    ScanUnfold(enc, Cdata, s, i + 3, end);
    CdataIs(s, i + 3);
    AtOne(s, i, 0x3C);
    AtOne(s, i + 1, 0x21);
    AtOne(s, i + 2, 0x5B);
    AtJoin(s, i, [0x3C], [0x21]);
    AtJoin(s, i, [0x3C] + [0x21], [0x5B]);
    AtJoin(s, i, [0x3C] + [0x21] + [0x5B], CDATA_LSQB);
    assert [0x3C] + [0x21] + [0x5B] + CDATA_LSQB == CDATA_START;
  }

  // ------------------------------------------------------------------ markup

  /** The piece of markup that a token of content is. */
  predicate IsPiece(tok: Token, p: Piece)
  {
    match p
    case STag(_, _, _, _) => tok == TagToken(p)
    case ETag(_, _) => tok == EndTag
    case Ref(item) => tok == RefToken(item)
    case Instruction(_, _, _) => tok == Pi
    case Remark(_) => tok == Comment
    case _ => false
  }

  /** Every token of markup that contentTok accepts is a piece of the grammar, or opens a CDATA section. */
  lemma MarkupFrom(enc: Enc, s: Text, i: nat, end: nat) returns (p: Piece)
    requires i < end <= |s| && (s[i] == 0x3C || s[i] == 0x26) && ContentTok(enc, s, i, end).Tok?
    ensures
      var r := ContentTok(enc, s, i, end);
      if r.tok == CdataOpen then At(s, i, CDATA_START) && r.next == i + 9
      else if r.tok == XmlDecl then true
      else PieceOk(enc, p) && IsPiece(r.tok, p) && At(s, i, PieceText(p)) && r.next == i + |PieceText(p)|
  {
    hide Scan, ByteType, ContentTok, PieceOk, PieceText, At, ItemText;
    Begins(enc, s, i, end);
    ScanEmpty(enc, Lt, s, end);
    p := Chars([]);
    if s[i] == 0x26 {
      var item := RefFrom(enc, NoQuote, s, i, end);
      RefPiece(enc, item);
      p := Ref(item);
    } else if s[i + 1] == 0x21 {
      ExclNext(enc, s, i, end);
      if s[i + 2] == 0x2D {
        p := RemarkFrom(enc, s, i, end);
      } else {
        SectionFrom(enc, s, i, end);
      }
    } else if s[i + 1] == 0x3F {
      ScanEmpty(enc, Lt, s, end);
      PiKind(enc, s, i, end);
      if ContentTok(enc, s, i, end).tok == Pi {
        p := InstructionFrom(enc, s, i, end);
      }
    } else if s[i + 1] == SLASH {
      p := EndFrom(enc, s, i, end);
    } else {
      p := TagFrom(enc, s, i, end);
    }
  }

  lemma RefPiece(enc: Enc, item: Item)
    requires RefOk(enc, item)
    ensures PieceOk(enc, Ref(item)) && PieceText(Ref(item)) == ItemText(item)
  {
  }

  lemma PiKind(enc: Enc, s: Text, i: nat, end: nat)
    requires i + 1 < end <= |s| && s[i + 1] == 0x3F && Scan(enc, Lt, s, i + 1, end).Tok?
    ensures Scan(enc, Lt, s, i + 1, end).tok == Pi || Scan(enc, Lt, s, i + 1, end).tok == XmlDecl
  {
    hide Scan;
    QuestionGoes(enc, s, i + 1, end);
    ScanKind(enc, InPi(PiStart), s, i + 2, end);
  }

  lemma ExclNext(enc: Enc, s: Text, i: nat, end: nat)
    requires i + 1 < end <= |s| && s[i + 1] == 0x21 && Scan(enc, Lt, s, i + 1, end).Tok?
    ensures i + 2 < end && (s[i + 2] == 0x2D || s[i + 2] == 0x5B)
  {
    hide Scan, Look;
    BangView(enc, s, i + 1, end);
    ScanMove(enc, Lt, s, i + 1, end);
    ScanEmpty(enc, Excl, s, end);
    ExclMove(enc, s, i + 2, end);
    ScanMove(enc, Excl, s, i + 2, end);
  }
}
