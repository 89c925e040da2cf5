/**
  The content tokenizer of xmltok_impl.c for UTF-8 (MINBPC = 1, namespaces on), as a
  specification.

  Every scan function of the source walks over the text one character at a time, so
  all of them are one automaton: a state for each place in a scan function where a
  character is read, and `StepAt` for what that place does with it. `Scan` runs the
  automaton; the methods in Tokenizer.dfy are the source's loops, proved equal to it.
  `ContentTok` and `CdataTok` are the two entry points.
*/
module Scanner {

  type Byte = b: int | 0 <= b < 256

  type Text = seq<Byte>

  /** BT_... of xmltok_impl.h, those that occur in the UTF-8 tables. */
  datatype ByteClass =
    | NONXML | MALFORM | LT | AMP | RSQB | LEAD2 | LEAD3 | LEAD4 | TRAIL | CR | LF | GT | QUOT | APOS
    | EQUALS | QUEST | EXCL | SOL | SEMI | NUM | LSQB | S | NMSTRT | COLON | HEX | DIGIT | NAME | MINUS | OTHER

  /**
    An encoding: document text or already normalised internal text, and the tests for
    multi-byte name characters, which stay abstract (the source keeps them in bitmaps).
  */
  datatype Enc = Enc(internal: bool, nmstrt: Text -> bool, name: Text -> bool)

  /** asciitab.h, iasciitab.h and utf8tab.h */
  function ByteType(enc: Enc, b: Byte): ByteClass
  {
    if b < 0x20 then
      if b == 0x9 then S else if b == 0xA then LF
      else if b == 0xD then (if enc.internal then S else CR) else NONXML
    else if b >= 0x80 then
      if b < 0xC0 then TRAIL else if b < 0xE0 then LEAD2 else if b < 0xF0 then LEAD3
      else if b < 0xF5 then LEAD4 else if b < 0xFE then NONXML else MALFORM
    else if 0x30 <= b <= 0x39 then DIGIT
    else if 0x41 <= b <= 0x46 || 0x61 <= b <= 0x66 then HEX
    else if 0x47 <= b <= 0x5A || 0x67 <= b <= 0x7A || b == 0x5F then NMSTRT
    else if b == 0x20 then S
    else if b == 0x21 then EXCL
    else if b == 0x22 then QUOT
    else if b == 0x23 then NUM
    else if b == 0x26 then AMP
    else if b == 0x27 then APOS
    else if b == 0x2D then MINUS
    else if b == 0x2E then NAME
    else if b == 0x2F then SOL
    else if b == 0x3A then COLON
    else if b == 0x3B then SEMI
    else if b == 0x3C then LT
    else if b == 0x3D then EQUALS
    else if b == 0x3E then GT
    else if b == 0x3F then QUEST
    else if b == 0x5B then LSQB
    else if b == 0x5D then RSQB
    else OTHER
  }

  const MINUS_CHAR: Byte := 0x2D
  const GT_CHAR: Byte := 0x3E
  const RSQB_CHAR: Byte := 0x5D
  const X_CHAR: Byte := 0x78

  /** "CDATA[" */
  const CDATA_LSQB: Text := [0x43, 0x44, 0x41, 0x54, 0x41, 0x5B]

  // ------------------------------------------------------------- characters

  /** UTF8_INVALID2; (b & 0x80) == 0 is b < 0x80, (b & 0xC0) == 0xC0 is b >= 0xC0. */
  predicate Invalid2(a: Byte, b: Byte) { a < 0xC2 || b < 0x80 || b >= 0xC0 }

  /** UTF8_INVALID3 */
  predicate Invalid3(a: Byte, b: Byte, c: Byte)
  {
    || c < 0x80
    || (if a == 0xEF && b == 0xBF then c > 0xBD else c >= 0xC0)
    || (if a == 0xE0 then b < 0xA0 || b >= 0xC0
        else b < 0x80 || (if a == 0xED then b > 0x9F else b >= 0xC0))
  }

  /** UTF8_INVALID4 */
  predicate Invalid4(a: Byte, b: Byte, c: Byte, d: Byte)
  {
    || d < 0x80 || d >= 0xC0
    || c < 0x80 || c >= 0xC0
    || (if a == 0xF0 then b < 0x90 || b >= 0xC0
        else b < 0x80 || (if a == 0xF4 then b > 0x8F else b >= 0xC0))
  }

  function LeadLen(c: ByteClass): nat
  {
    if c == LEAD2 then 2 else if c == LEAD3 then 3 else if c == LEAD4 then 4 else 0
  }

  predicate InvalidChar(s: Text, i: nat, n: nat)
    requires 2 <= n <= 4 && i + n <= |s|
  {
    if n == 2 then Invalid2(s[i], s[i + 1])
    else if n == 3 then Invalid3(s[i], s[i + 1], s[i + 2])
    else Invalid4(s[i], s[i + 1], s[i + 2], s[i + 3])
  }

  /** How many bytes a character has that begins with this one. */
  function CharLen(enc: Enc, b: Byte): (n: nat)
    ensures n >= 1
  {
    if LeadLen(ByteType(enc, b)) > 0 then LeadLen(ByteType(enc, b)) else 1
  }

  lemma ValidTrails(s: Text, i: nat, n: nat)
    requires 2 <= n <= 4 && i + n <= |s| && !InvalidChar(s, i, n)
    ensures forall k :: i < k < i + n ==> 0x80 <= s[k] < 0xC0
  {
  }

  datatype CharKind = NmstrtChar | NameChar | DataChar

  /** CHECK_NMSTRT_CASES, CHECK_NAME_CASES, INVALID_CASES: the character takes n bytes,
      is cut off by the end of input, is refused, or is none of the macro's cases. */
  datatype CharTest = Fits(n: nat) | CutOff | Refused | NotCovered

  function TestChar(enc: Enc, kind: CharKind, s: Text, i: nat, end: nat): (r: CharTest)
    requires i < end <= |s|
    ensures r.Fits? ==> 1 <= r.n <= 4 && i + r.n <= end
  {
    var c := ByteType(enc, s[i]);
    var n := LeadLen(c);
    if n > 0 then
      if end - i < n then CutOff
      else if (match kind
               case NmstrtChar => n < 4 && enc.nmstrt(s[i..i + n])
               case NameChar => n < 4 && enc.name(s[i..i + n])
               case DataChar => !InvalidChar(s, i, n)) then Fits(n)
      else Refused
    else match kind
      case NmstrtChar => if c == NMSTRT || c == HEX then Fits(1) else NotCovered
      case NameChar => if c in {NMSTRT, HEX, DIGIT, NAME, MINUS} then Fits(1) else NotCovered
      case DataChar => if c in {NONXML, MALFORM, TRAIL} then Refused else NotCovered
  }

  // ------------------------------------------------------------------ tokens

  datatype Token =
    | StartTag(atts: bool) | EmptyElement(eatts: bool) | EndTag
    | DataChars | DataNewline | CdataOpen | CdataClose
    | EntityRef | CharRef | Pi | XmlDecl | Comment

  /** What a tokenizer call returns, with *nextTokPtr where the source sets it. */
  datatype Result =
    | Tok(tok: Token, next: nat)
    | Invalid(at: nat)
    | Partial
    | PartialChar
    | NoTok
    | TrailingCr
    | TrailingRsqb

  /** A value's quote, or none outside attribute values. */
  datatype Quote = NoQuote | Quote(q: ByteClass)

  /** Places in the scan functions where a character is about to be read. */
  datatype CommentPlace = Dash | Body | Minus | MinusMinus
  datatype PiPlace =
    | PiStart | PiName(target: Text) | PiNameQuest(ptok: Token) | PiBody(ptok: Token) | PiQuest(ptok: Token)
  datatype EndPlace = EndStart | EndName | EndSpace
  datatype RefPlace = RefStart | RefName | CharRefStart | CharRefDec | CharRefHex0 | CharRefHex
  datatype TagPlace = TagName(hadColon: bool) | TagColon | TagSpace | TagSol(atts: bool)
  datatype AttPlace =
    | AttName(hadColon: bool) | AttColon | AttSpace | AttEq | AttValue(open: ByteClass) | AttEnd | AttBetween

  datatype State =
    | Lt | Excl | Cdata
    | InComment(comment: CommentPlace)
    | InPi(pi: PiPlace)
    | InEnd(endTag: EndPlace)
    | InTag(tag: TagPlace)
    | InAtt(att: AttPlace)
    | InRef(ref: RefPlace, ctx: Quote)

  datatype Move =
    | Go(st: State, n: nat)
    | Accept(tok: Token, an: nat)
    | Bad(bn: nat)
    | More
    | MoreChar

  predicate IsSpace(c: ByteClass) { c == S || c == CR || c == LF }

  /** All that a scan function can see of the character at hand. */
  datatype View = View(c: ByteClass, b: Byte, nmstrt: CharTest, name: CharTest, data: CharTest, raw: Text)

  function Look(enc: Enc, s: Text, i: nat, end: nat): View
    requires i < end <= |s|
  {
    var c := ByteType(enc, s[i]);
    var n := if LeadLen(c) > 0 then LeadLen(c) else 1;
    View(c, s[i], TestChar(enc, NmstrtChar, s, i, end), TestChar(enc, NameChar, s, i, end),
      TestChar(enc, DataChar, s, i, end),
         if end - i < n then [] else s[i..i + n])
  }

  /** Read the character if the test allows it and go to `st`, or give up. */
  function Take(t: CharTest, st: State, other: Move): Move
  {
    match t
    case Fits(n) => Go(st, n)
    case CutOff => MoreChar
    case Refused => Bad(0)
    case NotCovered => other
  }

  function CommentStep(p: CommentPlace, v: View): Move
  {
    match p
    case Dash => if v.b == MINUS_CHAR then Go(InComment(Body), 1) else Bad(0)
    case MinusMinus => if v.b == GT_CHAR then Accept(Comment, 1) else Bad(0)
    case _ =>
      if v.c == MINUS then Go(InComment(if p == Minus then MinusMinus else Minus), 1)
      else Take(v.data, InComment(Body), Go(InComment(Body), 1))
  }

  /** checkPiTarget: "xml" is the declaration, its other spellings are refused. */
  datatype PiTarget = PlainTarget | XmlTarget | BadTarget

  function CheckPiTarget(t: Text): PiTarget
  {
    if |t| != 3 || t[0] !in {0x78, 0x58} || t[1] !in {0x6D, 0x4D} || t[2] !in {0x6C, 0x4C} then PlainTarget
    else if t == [0x78, 0x6D, 0x6C] then XmlTarget
    else BadTarget
  }

  function AfterTarget(t: Text, quest: bool): Move
  {
    match CheckPiTarget(t)
    case BadTarget => Bad(0)
    case PlainTarget => Go(InPi(if quest then PiNameQuest(Pi) else PiBody(Pi)), 1)
    case XmlTarget => Go(InPi(if quest then PiNameQuest(XmlDecl) else PiBody(XmlDecl)), 1)
  }

  function PiStep(p: PiPlace, v: View): Move
  {
    match p
    case PiStart => Take(v.nmstrt, InPi(PiName(v.raw)), Bad(0))
    case PiName(target) =>
      if IsSpace(v.c) then AfterTarget(target, false)
      else if v.c == QUEST then AfterTarget(target, true)
      else Take(v.name, InPi(PiName(target + v.raw)), Bad(0))
    case PiNameQuest(tok) => if v.b == GT_CHAR then Accept(tok, 1) else Bad(0)
    case PiBody(tok) =>
      if v.c == QUEST then Go(InPi(PiQuest(tok)), 1) else Take(v.data, InPi(p), Go(InPi(p), 1))
    case PiQuest(tok) =>
      if v.b == GT_CHAR then Accept(tok, 1)
      else if v.c == QUEST then Go(InPi(PiQuest(tok)), 1)
      else Take(v.data, InPi(PiBody(tok)), Go(InPi(PiBody(tok)), 1))
  }

  /** How many of the first six characters match CDATA_LSQB. */
  function CdataMatch(s: Text, i: nat, k: nat): (r: nat)
    requires k <= 6 && i + 6 <= |s|
    ensures k <= r <= 6
    decreases 6 - k
  {
    if k == 6 || s[i + k] != CDATA_LSQB[k] then k else CdataMatch(s, i, k + 1)
  }

  function EndStep(p: EndPlace, v: View): Move
  {
    match p
    case EndStart => Take(v.nmstrt, InEnd(EndName), Bad(0))
    case EndName =>
      if IsSpace(v.c) then Go(InEnd(EndSpace), 1)
      else if v.c == COLON then Go(InEnd(EndName), 1)
      else if v.c == GT then Accept(EndTag, 1)
      else Take(v.name, InEnd(EndName), Bad(0))
    case EndSpace =>
      if IsSpace(v.c) then Go(InEnd(EndSpace), 1) else if v.c == GT then Accept(EndTag, 1) else Bad(0)
  }

  /** A finished reference is a token of its own, or part of an attribute value. */
  function RefDone(ctx: Quote, tok: Token): Move
  {
    if ctx.NoQuote? then Accept(tok, 1) else Go(InAtt(AttValue(ctx.q)), 1)
  }

  function RefStep(p: RefPlace, ctx: Quote, v: View): Move
  {
    match p
    case RefStart =>
      if v.c == NUM then Go(InRef(CharRefStart, ctx), 1) else Take(v.nmstrt, InRef(RefName, ctx), Bad(0))
    case RefName => if v.c == SEMI then RefDone(ctx, EntityRef) else Take(v.name, InRef(RefName, ctx), Bad(0))
    case CharRefStart =>
      if v.b == X_CHAR then Go(InRef(CharRefHex0, ctx), 1)
      else if v.c == DIGIT then Go(InRef(CharRefDec, ctx), 1)
      else Bad(0)
    case CharRefDec =>
      if v.c == DIGIT then Go(InRef(p, ctx), 1) else if v.c == SEMI then RefDone(ctx, CharRef) else Bad(0)
    case CharRefHex0 => if v.c == DIGIT || v.c == HEX then Go(InRef(CharRefHex, ctx), 1) else Bad(0)
    case CharRefHex =>
      if v.c == DIGIT || v.c == HEX then Go(InRef(p, ctx), 1)
      else if v.c == SEMI then RefDone(ctx, CharRef)
      else Bad(0)
  }

  function TagStep(p: TagPlace, v: View): Move
  {
    match p
    case TagName(hadColon) =>
      if v.c == COLON then (if hadColon then Bad(0) else Go(InTag(TagColon), 1))
      else if IsSpace(v.c) then Go(InTag(TagSpace), 1)
      else if v.c == GT then Accept(StartTag(false), 1)
      else if v.c == SOL then Go(InTag(TagSol(false)), 1)
      else Take(v.name, InTag(p), Bad(0))
    case TagColon => Take(v.nmstrt, InTag(TagName(true)), Bad(0))
    case TagSpace =>
      if v.c == GT then Accept(StartTag(false), 1)
      else if v.c == SOL then Go(InTag(TagSol(false)), 1)
      else if IsSpace(v.c) then Go(InTag(TagSpace), 1)
      else Take(v.nmstrt, InAtt(AttName(false)), Bad(0))
    case TagSol(atts) => if v.b == GT_CHAR then Accept(EmptyElement(atts), 1) else Bad(0)
  }

  function AttStep(p: AttPlace, v: View): Move
  {
    match p
    case AttName(hadColon) =>
      if v.c == COLON then (if hadColon then Bad(0) else Go(InAtt(AttColon), 1))
      else if IsSpace(v.c) then Go(InAtt(AttSpace), 1)
      else if v.c == EQUALS then Go(InAtt(AttEq), 1)
      else Take(v.name, InAtt(p), Bad(0))
    case AttColon => Take(v.nmstrt, InAtt(AttName(true)), Bad(0))
    case AttSpace =>
      if v.c == EQUALS then Go(InAtt(AttEq), 1) else if IsSpace(v.c) then Go(InAtt(AttSpace), 1) else Bad(0)
    case AttEq =>
      if v.c == QUOT || v.c == APOS then Go(InAtt(AttValue(v.c)), 1)
      else if IsSpace(v.c) then Go(InAtt(AttEq), 1)
      else Bad(0)
    case AttValue(open) =>
      if v.c == open then Go(InAtt(AttEnd), 1)
      else if v.c == AMP then Go(InRef(RefStart, Quote(open)), 1)
      else if v.c == LT then Bad(0)
      else Take(v.data, InAtt(p), Go(InAtt(p), 1))
    case AttEnd => if IsSpace(v.c) then Go(InAtt(AttBetween), 1) else TagEnd(v.c, Bad(0))
    case AttBetween =>
      if IsSpace(v.c) then Go(InAtt(AttBetween), 1)
      else TagEnd(v.c, Take(v.nmstrt, InAtt(AttName(false)), Bad(0)))
  }

  function TagEnd(c: ByteClass, other: Move): Move
  {
    if c == SOL then Go(InTag(TagSol(true)), 1) else if c == GT then Accept(StartTag(true), 1) else other
  }

  function LtStep(v: View): Move
  {
    if v.c == EXCL then Go(Excl, 1)
    else if v.c == QUEST then Go(InPi(PiStart), 1)
    else if v.c == SOL then Go(InEnd(EndStart), 1)
    else Take(v.nmstrt, InTag(TagName(false)), Bad(0))
  }

  function ExclStep(v: View): Move
  {
    if v.c == MINUS then Go(InComment(Dash), 1) else if v.c == LSQB then Go(Cdata, 1) else Bad(0)
  }

  /** scanCdataSection wants all six characters before it compares any. */
  function CdataStep(s: Text, i: nat, end: nat): Move
    requires i < end <= |s|
  {
    if end - i < 6 then More
    else var k := CdataMatch(s, i, 0); if k == 6 then Accept(CdataOpen, 6) else Bad(k)
  }

  function StepAt(enc: Enc, st: State, s: Text, i: nat, end: nat): Move
    requires i < end <= |s|
  {
    if st.Cdata? then CdataStep(s, i, end)
    else
      var v := Look(enc, s, i, end);
      CharStep(st, v)
  }

  function CharStep(st: State, v: View): Move
  {
    match st
    case Lt => LtStep(v)
    case Excl => ExclStep(v)
    case InComment(p) => CommentStep(p, v)
    case InPi(p) => PiStep(p, v)
    case InEnd(p) => EndStep(p, v)
    case InTag(p) => TagStep(p, v)
    case InAtt(p) => AttStep(p, v)
    case InRef(p, ctx) => RefStep(p, ctx, v)
    case Cdata => Bad(0)
  }

  /** Each move reads at least one byte and no byte past the end. */
  predicate Progress(m: Move, i: nat, end: nat)
  {
    match m
    case Go(_, n) => 1 <= n && i + n <= end
    case Accept(_, n) => 1 <= n && i + n <= end
    case _ => true
  }

  predicate TestOk(t: CharTest, room: nat) { t.Fits? ==> 1 <= t.n <= room }

  predicate ViewOk(v: View, room: nat) { TestOk(v.nmstrt, room) && TestOk(v.name, room) && TestOk(v.data, room) }

  lemma CharProgress(st: State, v: View, i: nat, end: nat)
    requires i < end && ViewOk(v, end - i)
    ensures Progress(CharStep(st, v), i, end)
  {
    hide AttStep, PiStep, RefStep, TagStep;
    match st
    case InAtt(p) => AttProgress(p, v, i, end);
    case InTag(p) => TagProgress(p, v, i, end);
    case InPi(p) => PiProgress(p, v, i, end);
    case InRef(p, ctx) => RefProgress(p, ctx, v, i, end);
    case _ =>
  }

  lemma AttProgress(p: AttPlace, v: View, i: nat, end: nat)
    requires i < end && ViewOk(v, end - i)
    ensures Progress(AttStep(p, v), i, end)
  {
  }

  lemma TagProgress(p: TagPlace, v: View, i: nat, end: nat)
    requires i < end && ViewOk(v, end - i)
    ensures Progress(TagStep(p, v), i, end)
  {
  }

  lemma PiProgress(p: PiPlace, v: View, i: nat, end: nat)
    requires i < end && ViewOk(v, end - i)
    ensures Progress(PiStep(p, v), i, end)
  {
    hide CheckPiTarget;
  }

  lemma RefProgress(p: RefPlace, ctx: Quote, v: View, i: nat, end: nat)
    requires i < end && ViewOk(v, end - i)
    ensures Progress(RefStep(p, ctx, v), i, end)
  {
  }

  lemma StepProgress(enc: Enc, st: State, s: Text, i: nat, end: nat)
    requires i < end <= |s|
    ensures Progress(StepAt(enc, st, s, i, end), i, end)
  {
    hide ByteType, TestChar, CdataMatch, CharStep;
    CharProgress(st, Look(enc, s, i, end), i, end);
  }

  /** Run the automaton from state `st` at `i` over text that ends at `end`. */
  function Scan(enc: Enc, st: State, s: Text, i: nat, end: nat): (r: Result)
    requires i <= end <= |s|
    ensures r.Tok? ==> i < r.next <= end
    ensures r.Tok? || r.Invalid? || r.Partial? || r.PartialChar?
    decreases end - i
  {
    if i == end then Partial
    else
      StepProgress(enc, st, s, i, end);
      match StepAt(enc, st, s, i, end)
      case Go(st', n) => Scan(enc, st', s, i + n, end)
      case Accept(tok, n) => Tok(tok, i + n)
      case Bad(n) => Invalid(i + n)
      case More => Partial
      case MoreChar => PartialChar
  }

  lemma ScanEmpty(enc: Enc, st: State, s: Text, i: nat)
    requires i <= |s|
    ensures Scan(enc, st, s, i, i) == Partial
  {
  }

  lemma ScanUnfold(enc: Enc, st: State, s: Text, i: nat, end: nat)
    requires i < end <= |s|
    ensures Progress(StepAt(enc, st, s, i, end), i, end)
    ensures Scan(enc, st, s, i, end) ==
            match StepAt(enc, st, s, i, end)
            case Go(st', n) => Scan(enc, st', s, i + n, end)
            case Accept(tok, n) => Tok(tok, i + n)
            case Bad(n) => Invalid(i + n)
            case More => Partial
            case MoreChar => PartialChar
  {
    hide StepAt;
    StepProgress(enc, st, s, i, end);
  }

  /** The second loop of contentTok: on through plain character data. */
  function DataTail(enc: Enc, s: Text, i: nat, end: nat): (r: Result)
    requires i <= end <= |s|
    ensures r.Tok? || r.Invalid?
    ensures r.Tok? ==> r.tok == DataChars && i <= r.next <= end
    decreases end - i
  {
    if i == end then Tok(DataChars, i)
    else
      var c := ByteType(enc, s[i]);
      match TestChar(enc, DataChar, s, i, end)
      case Fits(n) => DataTail(enc, s, i + n, end)
      case CutOff => Tok(DataChars, i)
      case Refused => Tok(DataChars, i)
      case NotCovered =>
        if c == RSQB then
          if i + 1 == end then Tok(DataChars, i)
          else if s[i + 1] != RSQB_CHAR then DataTail(enc, s, i + 1, end)
          else if i + 2 == end then Tok(DataChars, i)
          else if s[i + 2] != GT_CHAR then DataTail(enc, s, i + 1, end)
          else Invalid(i + 2)
        else if c in {AMP, LT, CR, LF} then Tok(DataChars, i)
        else DataTail(enc, s, i + 1, end)
  }

  /** contentTok */
  function ContentTok(enc: Enc, s: Text, i: nat, end: nat): (r: Result)
    requires i <= end <= |s|
    ensures r.Tok? ==> i < r.next <= end
    ensures r.NoTok? <==> i == end
  {
    if i == end then NoTok
    else
      var c := ByteType(enc, s[i]);
      if c == LT then Scan(enc, Lt, s, i + 1, end)
      else if c == AMP then Scan(enc, InRef(RefStart, NoQuote), s, i + 1, end)
      else if c == CR then
        if i + 1 == end then TrailingCr
        else Tok(DataNewline, if ByteType(enc, s[i + 1]) == LF then i + 2 else i + 1)
      else if c == LF then Tok(DataNewline, i + 1)
      else if c == RSQB then
        if i + 1 == end then TrailingRsqb
        else if s[i + 1] != RSQB_CHAR then DataTail(enc, s, i + 1, end)
        else if i + 2 == end then TrailingRsqb
        else if s[i + 2] != GT_CHAR then DataTail(enc, s, i + 1, end)
        else Invalid(i + 2)
      else
        match TestChar(enc, DataChar, s, i, end)
        case Fits(n) => DataTail(enc, s, i + n, end)
        case CutOff => PartialChar
        case Refused => Invalid(i)
        case NotCovered => DataTail(enc, s, i + 1, end)
  }

  /** The second loop of cdataSectionTok. */
  function CdataTail(enc: Enc, s: Text, i: nat, end: nat): (next: nat)
    requires i <= end <= |s|
    ensures i <= next <= end
    decreases end - i
  {
    if i == end then i
    else
      match TestChar(enc, DataChar, s, i, end)
      case Fits(n) => CdataTail(enc, s, i + n, end)
      case CutOff => i
      case Refused => i
      case NotCovered =>
        if ByteType(enc, s[i]) in {CR, LF, RSQB} then i else CdataTail(enc, s, i + 1, end)
  }

  /** cdataSectionTok */
  function CdataTok(enc: Enc, s: Text, i: nat, end: nat): (r: Result)
    requires i <= end <= |s|
    ensures r.Tok? ==> i < r.next <= end && r.tok in {DataChars, DataNewline, CdataClose}
    ensures r.NoTok? <==> i == end
    ensures !r.TrailingCr? && !r.TrailingRsqb?
  {
    if i == end then NoTok
    else
      var c := ByteType(enc, s[i]);
      if c == RSQB then
        if i + 1 == end then Partial
        else if s[i + 1] != RSQB_CHAR then Tok(DataChars, CdataTail(enc, s, i + 1, end))
        else if i + 2 == end then Partial
        else if s[i + 2] != GT_CHAR then Tok(DataChars, CdataTail(enc, s, i + 1, end))
        else Tok(CdataClose, i + 3)
      else if c == CR then
        if i + 1 == end then Partial
        else Tok(DataNewline, if ByteType(enc, s[i + 1]) == LF then i + 2 else i + 1)
      else if c == LF then Tok(DataNewline, i + 1)
      else
        match TestChar(enc, DataChar, s, i, end)
        case Fits(n) => Tok(DataChars, CdataTail(enc, s, i + n, end))
        case CutOff => PartialChar
        case Refused => Invalid(i)
        case NotCovered => Tok(DataChars, CdataTail(enc, s, i + 1, end))
  }

  // ------------------------------------- more input never changes a decision

  predicate Decided(r: Result) { r.Tok? || r.Invalid? }

  /** Only a character cut off by the end of input can change its test. */
  lemma TestCharStable(enc: Enc, kind: CharKind, s: Text, i: nat, end: nat, end': nat)
    requires i < end <= end' <= |s|
    ensures
      var t := TestChar(enc, kind, s, i, end);
      && (t != CutOff ==> TestChar(enc, kind, s, i, end') == t)
      && (t == CutOff ==> TestChar(enc, kind, s, i, end') != NotCovered)
      && (kind == DataChar && t != NotCovered ==> ByteType(enc, s[i]) !in {LT, AMP, CR, LF, RSQB})
  {
    hide InvalidChar;
  }

  predicate CutLead(v: View, v': View)
  {
    && LeadLen(v.c) > 0 && v'.c == v.c && v'.b == v.b && v.b >= 0x80
    && v.nmstrt == v.name == v.data == CutOff
  }

  /** A lead byte whose character is cut off is handled like any other byte, or waits. */
  lemma LeadStep(st: State, v: View, v': View)
    requires CutLead(v, v')
    ensures CharStep(st, v).MoreChar? || CharStep(st, v) == CharStep(st, v')
  {
    hide CheckPiTarget;
    match st
    case InAtt(_) =>
    case InTag(_) =>
    case InPi(_) =>
    case InRef(_, _) =>
    case _ =>
  }

  lemma LookStable(enc: Enc, s: Text, i: nat, end: nat, end': nat)
    requires i < end <= end' <= |s|
    ensures
      var v, v' := Look(enc, s, i, end), Look(enc, s, i, end');
      v == v' || CutLead(v, v')
  {
    hide InvalidChar;
  }

  lemma StepStable(enc: Enc, st: State, s: Text, i: nat, end: nat, end': nat)
    requires i < end <= end' <= |s|
    requires !StepAt(enc, st, s, i, end).More? && !StepAt(enc, st, s, i, end).MoreChar?
    ensures StepAt(enc, st, s, i, end') == StepAt(enc, st, s, i, end)
  {
    hide Look, CdataMatch, CharStep;
    LookStable(enc, s, i, end, end');
    if Look(enc, s, i, end) != Look(enc, s, i, end') {
      LeadStep(st, Look(enc, s, i, end), Look(enc, s, i, end'));
    }
  }

  lemma {:induction false} ScanStable(enc: Enc, st: State, s: Text, i: nat, end: nat, end': nat)
    requires i <= end <= end' <= |s|
    requires Decided(Scan(enc, st, s, i, end))
    ensures Scan(enc, st, s, i, end') == Scan(enc, st, s, i, end)
    decreases end - i
  {
    hide StepAt, Scan;
    ScanEmpty(enc, st, s, i);
    if i < end {
      ScanUnfold(enc, st, s, i, end);
      ScanUnfold(enc, st, s, i, end');
      StepStable(enc, st, s, i, end, end');
      match StepAt(enc, st, s, i, end)
      case Go(st', n) => ScanStable(enc, st', s, i + n, end, end');
      case _ =>
    }
  }

  /**
    Character data that stopped at `n` for want of input goes on as if `n` had been its
    beginning: the token that starts at `n` in the longer text ends as the longer one does.
  */
  ghost predicate Continues(enc: Enc, s: Text, r: Result, end': nat, r': Result)
    requires end' <= |s|
  {
    || r' == r
    || (&& r.Tok? && r.tok == DataChars && r.next < end'
        && ContentTok(enc, s, r.next, end') == r'
        && (r'.Invalid? || (r'.Tok? && r'.tok == DataChars && r.next < r'.next)))
  }

  /** A tail that gets on from `i` is a token of character data. */
  lemma TailIsTok(enc: Enc, s: Text, i: nat, end: nat)
    requires i < end <= |s|
    ensures
      var r := DataTail(enc, s, i, end);
      r == Tok(DataChars, i) || (ContentTok(enc, s, i, end) == r && (r.Invalid? || i < r.next))
  {
    hide TestChar, Scan, ByteType;
    TestCharStable(enc, DataChar, s, i, end, end);
  }

  /** Where the tail goes next, if it does not stop. */
  lemma TailStep(enc: Enc, s: Text, i: nat, end: nat, end': nat) returns (next: nat)
    requires i < end <= end' <= |s| && DataTail(enc, s, i, end) != Tok(DataChars, i)
    ensures DataTail(enc, s, i, end) == DataTail(enc, s, i, end') || i < next <= end
    ensures i < next <= end ==>
      && DataTail(enc, s, i, end) == DataTail(enc, s, next, end)
      && DataTail(enc, s, i, end') == DataTail(enc, s, next, end')
  {
    hide TestChar, ByteType;
    TestCharStable(enc, DataChar, s, i, end, end');
    var t := TestChar(enc, DataChar, s, i, end);
    var closes := ByteType(enc, s[i]) == RSQB && i + 2 < end && s[i + 1] == RSQB_CHAR && s[i + 2] == GT_CHAR;
    next := if t.Fits? then i + t.n else if closes then i else i + 1;
  }

  lemma {:induction false} DataTailResumes(enc: Enc, s: Text, i: nat, end: nat, end': nat)
    requires i <= end <= end' <= |s|
    ensures Continues(enc, s, DataTail(enc, s, i, end), end', DataTail(enc, s, i, end'))
    decreases end - i
  {
    hide DataTail, ContentTok;
    TailAtEnd(enc, s, end);
    if DataTail(enc, s, i, end) == Tok(DataChars, i) {
      if i < end' {
        TailIsTok(enc, s, i, end');
      }
    } else {
      var next := TailStep(enc, s, i, end, end');
      if i < next <= end {
        DataTailResumes(enc, s, next, end, end');
      }
    }
  }

  lemma TailAtEnd(enc: Enc, s: Text, end: nat)
    requires end <= |s|
    ensures DataTail(enc, s, end, end) == Tok(DataChars, end)
  {
  }

  lemma CdataTailIsTok(enc: Enc, s: Text, i: nat, end: nat)
    requires i < end <= |s|
    ensures CdataTail(enc, s, i, end) == i || CdataTok(enc, s, i, end) == Tok(DataChars, CdataTail(enc, s, i, end))
  {
    hide TestChar, ByteType;
    TestCharStable(enc, DataChar, s, i, end, end);
  }

  lemma CdataTailStep(enc: Enc, s: Text, i: nat, end: nat, end': nat) returns (next: nat)
    requires i < end <= end' <= |s| && CdataTail(enc, s, i, end) != i
    ensures i < next <= end
    ensures CdataTail(enc, s, i, end) == CdataTail(enc, s, next, end)
    ensures CdataTail(enc, s, i, end') == CdataTail(enc, s, next, end')
  {
    hide TestChar, ByteType;
    TestCharStable(enc, DataChar, s, i, end, end');
    var t := TestChar(enc, DataChar, s, i, end);
    next := if t.Fits? then i + t.n else i + 1;
  }

  lemma {:induction false} CdataTailResumes(enc: Enc, s: Text, i: nat, end: nat, end': nat)
    requires i <= end <= end' <= |s|
    ensures
      var n, n' := CdataTail(enc, s, i, end), CdataTail(enc, s, i, end');
      n <= n' && (n < n' ==> CdataTok(enc, s, n, end') == Tok(DataChars, n'))
    decreases end - i
  {
    hide CdataTail, CdataTok;
    if CdataTail(enc, s, i, end) == i {
      if i < end' {
        CdataTailIsTok(enc, s, i, end');
      }
    } else {
      var next := CdataTailStep(enc, s, i, end, end');
      CdataTailResumes(enc, s, next, end, end');
    }
  }

  /** A decided content token is decided for good, unless it is character data. */
  lemma ContentTokStable(enc: Enc, s: Text, i: nat, end: nat, end': nat)
    requires i <= end <= end' <= |s|
    requires Decided(ContentTok(enc, s, i, end))
    ensures Continues(enc, s, ContentTok(enc, s, i, end), end', ContentTok(enc, s, i, end'))
  {
    hide DataTail, Continues, ContentTok;
    ContinuesSame(enc, s, end', ContentTok(enc, s, i, end'));
    var next := ContentTokFirst(enc, s, i, end, end');
    if next <= end {
      DataTailResumes(enc, s, next, end, end');
    }
  }

  lemma ContentTokFirst(enc: Enc, s: Text, i: nat, end: nat, end': nat) returns (next: nat)
    requires i < end <= end' <= |s| && Decided(ContentTok(enc, s, i, end))
    ensures next > end ==> ContentTok(enc, s, i, end') == ContentTok(enc, s, i, end)
    ensures next <= end ==>
      && ContentTok(enc, s, i, end) == DataTail(enc, s, next, end)
      && ContentTok(enc, s, i, end') == DataTail(enc, s, next, end')
  {
    hide TestChar, Scan, DataTail, ByteType;
    TestCharStable(enc, DataChar, s, i, end, end');
    var c, t := ByteType(enc, s[i]), TestChar(enc, DataChar, s, i, end);
    next := end + 1;
    if c == LT {
      ScanStable(enc, Lt, s, i + 1, end, end');
    } else if c == AMP {
      ScanStable(enc, InRef(RefStart, NoQuote), s, i + 1, end, end');
    } else {
      var closes := c == RSQB && i + 2 < end && s[i + 1] == RSQB_CHAR && s[i + 2] == GT_CHAR;
      if !closes && c != CR && c != LF && !t.Refused? {
        next := if t.Fits? then i + t.n else i + 1;
      }
    }
  }

  lemma ContinuesSame(enc: Enc, s: Text, end': nat, r: Result)
    requires end' <= |s|
    ensures Continues(enc, s, r, end', r)
  {
  }

  lemma CdataTokStable(enc: Enc, s: Text, i: nat, end: nat, end': nat)
    requires i <= end <= end' <= |s|
    requires Decided(CdataTok(enc, s, i, end))
    ensures
      var r, r' := CdataTok(enc, s, i, end), CdataTok(enc, s, i, end');
      || r' == r
      || (&& r.Tok? && r.tok == DataChars && r'.Tok? && r'.tok == DataChars && r.next < r'.next
          && CdataTok(enc, s, r.next, end') == r')
  {
    hide CdataTail, CdataTok;
    var next := CdataTokFirst(enc, s, i, end, end');
    if next <= end {
      CdataTailResumes(enc, s, next, end, end');
    }
  }

  /** A decided token is the same in the longer text, or character data with a tail from `next` on. */
  lemma CdataTokFirst(enc: Enc, s: Text, i: nat, end: nat, end': nat) returns (next: nat)
    requires i < end <= end' <= |s| && Decided(CdataTok(enc, s, i, end))
    ensures next > end ==> CdataTok(enc, s, i, end') == CdataTok(enc, s, i, end)
    ensures next <= end ==>
      && CdataTok(enc, s, i, end) == Tok(DataChars, CdataTail(enc, s, next, end))
      && CdataTok(enc, s, i, end') == Tok(DataChars, CdataTail(enc, s, next, end'))
  {
    hide TestChar, CdataTail, ByteType;
    TestCharStable(enc, DataChar, s, i, end, end');
    var c, t := ByteType(enc, s[i]), TestChar(enc, DataChar, s, i, end);
    var closes := c == RSQB && i + 2 < end && s[i + 1] == RSQB_CHAR && s[i + 2] == GT_CHAR;
    next := if closes || c == CR || c == LF || t.Refused? then end + 1 else if t.Fits? then i + t.n else i + 1;
  }

  // ------------------------------------------------------------------ locality

  /** The two texts agree on what a call may look at. */
  predicate Alike(s: Text, s': Text, end: nat) { end <= |s| && end <= |s'| && s[..end] == s'[..end] }

  lemma AlikeAt(s: Text, s': Text, end: nat)
    requires Alike(s, s', end)
    ensures forall k :: 0 <= k < end ==> s[k] == s'[k]
    ensures forall i, j :: 0 <= i <= j <= end ==> s[i..j] == s'[i..j]
  {
    forall k | 0 <= k < end ensures s[k] == s'[k] {
      assert s[k] == s[..end][k] == s'[..end][k];
    }
  }

  lemma TestCharLocal(enc: Enc, kind: CharKind, s: Text, s': Text, i: nat, end: nat)
    requires Alike(s, s', end) && i < end
    ensures TestChar(enc, kind, s, i, end) == TestChar(enc, kind, s', i, end)
  {
    hide ByteType;
    AlikeAt(s, s', end);
  }

  lemma LookLocal(enc: Enc, s: Text, s': Text, i: nat, end: nat)
    requires Alike(s, s', end) && i < end
    ensures Look(enc, s, i, end) == Look(enc, s', i, end)
  {
    hide ByteType, TestChar;
    AlikeAt(s, s', end);
    TestCharLocal(enc, NmstrtChar, s, s', i, end);
    TestCharLocal(enc, NameChar, s, s', i, end);
    TestCharLocal(enc, DataChar, s, s', i, end);
  }

  lemma {:induction false} CdataMatchLocal(s: Text, s': Text, i: nat, k: nat, end: nat)
    requires Alike(s, s', end) && k <= 6 && i + 6 <= end
    ensures CdataMatch(s, i, k) == CdataMatch(s', i, k)
    decreases 6 - k
  {
    AlikeAt(s, s', end);
    if k < 6 { CdataMatchLocal(s, s', i, k + 1, end); }
  }

  lemma StepLocal(enc: Enc, st: State, s: Text, s': Text, i: nat, end: nat)
    requires Alike(s, s', end) && i < end
    ensures StepAt(enc, st, s, i, end) == StepAt(enc, st, s', i, end)
  {
    hide CharStep, Look, CdataMatch;
    LookLocal(enc, s, s', i, end);
    if end - i >= 6 { CdataMatchLocal(s, s', i, 0, end); }
  }

  /** A scan depends on no byte from `end` on. */
  lemma {:induction false} ScanLocal(enc: Enc, st: State, s: Text, s': Text, i: nat, end: nat)
    requires Alike(s, s', end) && i <= end
    ensures Scan(enc, st, s, i, end) == Scan(enc, st, s', i, end)
    decreases end - i
  {
    hide StepAt, Scan;
    ScanEmpty(enc, st, s, end);
    ScanEmpty(enc, st, s', end);
    if i < end {
      ScanUnfold(enc, st, s, i, end);
      ScanUnfold(enc, st, s', i, end);
      StepLocal(enc, st, s, s', i, end);
      var m := StepAt(enc, st, s, i, end);
      if m.Go? { ScanLocal(enc, m.st, s, s', i + m.n, end); }
    }
  }

  lemma {:induction false} DataTailLocal(enc: Enc, s: Text, s': Text, i: nat, end: nat)
    requires Alike(s, s', end) && i <= end
    ensures DataTail(enc, s, i, end) == DataTail(enc, s', i, end)
    decreases end - i
  {
    hide TestChar, ByteType;
    if i < end {
      AlikeAt(s, s', end);
      TestCharLocal(enc, DataChar, s, s', i, end);
      var t := TestChar(enc, DataChar, s, i, end);
      DataTailLocal(enc, s, s', if t.Fits? then i + t.n else i + 1, end);
    }
  }

  lemma DataTokLocal(enc: Enc, s: Text, s': Text, i: nat, end: nat)
    requires Alike(s, s', end) && i < end && ByteType(enc, s[i]) != LT && ByteType(enc, s[i]) != AMP
    ensures ContentTok(enc, s, i, end) == ContentTok(enc, s', i, end)
  {
    hide TestChar, ByteType, Scan, DataTail, Alike;
    AlikeHere(s, s', i, end);
    DataTailLocal(enc, s, s', i + 1, end);
    TestCharLocal(enc, DataChar, s, s', i, end);
    var t := TestChar(enc, DataChar, s, i, end);
    if t.Fits? { DataTailLocal(enc, s, s', i + t.n, end); }
  }

  lemma ContentTokLocal(enc: Enc, s: Text, s': Text, i: nat, end: nat)
    requires Alike(s, s', end) && i <= end
    ensures ContentTok(enc, s, i, end) == ContentTok(enc, s', i, end)
  {
    hide TestChar, ByteType, Scan, DataTail, Alike;
    if i < end {
      AlikeHere(s, s', i, end);
      var c := ByteType(enc, s[i]);
      if c == LT {
        ScanLocal(enc, Lt, s, s', i + 1, end);
      } else if c == AMP {
        ScanLocal(enc, InRef(RefStart, NoQuote), s, s', i + 1, end);
      } else {
        DataTokLocal(enc, s, s', i, end);
      }
    }
  }

  /** The three bytes that a tokenizer looks at. */
  lemma AlikeHere(s: Text, s': Text, i: nat, end: nat)
    requires Alike(s, s', end) && i < end
    ensures end <= |s| && end <= |s'| && s[i] == s'[i] && (i + 1 < end ==> s[i + 1] == s'[i + 1])
    ensures i + 2 < end ==> s[i + 2] == s'[i + 2]
  {
    AlikeAt(s, s', end);
  }

  lemma {:induction false} CdataTailLocal(enc: Enc, s: Text, s': Text, i: nat, end: nat)
    requires Alike(s, s', end) && i <= end
    ensures CdataTail(enc, s, i, end) == CdataTail(enc, s', i, end)
    decreases end - i
  {
    hide TestChar, ByteType;
    if i < end {
      AlikeAt(s, s', end);
      TestCharLocal(enc, DataChar, s, s', i, end);
      var t := TestChar(enc, DataChar, s, i, end);
      CdataTailLocal(enc, s, s', if t.Fits? then i + t.n else i + 1, end);
    }
  }

  lemma CdataTokLocal(enc: Enc, s: Text, s': Text, i: nat, end: nat)
    requires Alike(s, s', end) && i <= end
    ensures CdataTok(enc, s, i, end) == CdataTok(enc, s', i, end)
  {
    hide TestChar, ByteType, CdataTail;
    if i < end {
      AlikeAt(s, s', end);
      TestCharLocal(enc, DataChar, s, s', i, end);
      var t := TestChar(enc, DataChar, s, i, end);
      CdataTailLocal(enc, s, s', if t.Fits? then i + t.n else i + 1, end);
      CdataTailLocal(enc, s, s', i + 1, end);
    }
  }

  // --------------------------------------------------------------------- shift

  function Shifted(r: Result, k: nat): Result
  {
    match r
    case Tok(tok, next) => Tok(tok, next + k)
    case Invalid(at) => Invalid(at + k)
    case _ => r
  }

  lemma LookShift(enc: Enc, pre: Text, s: Text, i: nat)
    requires i < |s|
    ensures Look(enc, pre + s, |pre| + i, |pre| + |s|) == Look(enc, s, i, |s|)
  {
    hide ByteType, TestChar;
    TestCharShift(enc, NmstrtChar, pre, s, i);
    TestCharShift(enc, NameChar, pre, s, i);
    TestCharShift(enc, DataChar, pre, s, i);
    var n := CharLen(enc, s[i]);
    if i + n <= |s| {
      SliceShift(pre, s, i, n);
    }
  }

  lemma InnerSlice(s: Text, i: nat, next: nat, a: nat, b: nat)
    requires i <= next <= |s| && a <= b <= next - i
    ensures s[i..next][a..b] == s[i + a..i + b]
  {
    var t := s[i..next];
    assert forall k :: 0 <= k < b - a ==> t[a..b][k] == t[a + k] == s[i + (a + k)];
  }

  lemma SliceShift(pre: Text, s: Text, i: nat, n: nat)
    requires i + n <= |s|
    ensures (pre + s)[|pre| + i..|pre| + i + n] == s[i..i + n]
  {
  }

  lemma TestCharShift(enc: Enc, kind: CharKind, pre: Text, s: Text, i: nat)
    requires i < |s|
    ensures TestChar(enc, kind, pre + s, |pre| + i, |pre| + |s|) == TestChar(enc, kind, s, i, |s|)
  {
    hide ByteType, Invalid2, Invalid3, Invalid4;
    var n := LeadLen(ByteType(enc, s[i]));
    if i + n <= |s| {
      SliceShift(pre, s, i, n);
    }
  }

  lemma {:induction false} CdataMatchShift(pre: Text, s: Text, i: nat, k: nat)
    requires k <= 6 && i + 6 <= |s|
    ensures CdataMatch(pre + s, |pre| + i, k) == CdataMatch(s, i, k)
    decreases 6 - k
  {
    if k < 6 {
      assert (pre + s)[|pre| + i + k] == s[i + k];
      CdataMatchShift(pre, s, i, k + 1);
    }
  }

  lemma StepShift(enc: Enc, st: State, pre: Text, s: Text, i: nat)
    requires i < |s|
    ensures StepAt(enc, st, pre + s, |pre| + i, |pre| + |s|) == StepAt(enc, st, s, i, |s|)
  {
    hide Look, CharStep, CdataMatch;
    LookShift(enc, pre, s, i);
    if |s| - i >= 6 {
      CdataMatchShift(pre, s, i, 0);
    }
  }

  /** Where a text stands in a buffer does not matter. */
  lemma {:induction false} ScanShift(enc: Enc, st: State, pre: Text, s: Text, i: nat)
    requires i <= |s|
    ensures Scan(enc, st, pre + s, |pre| + i, |pre| + |s|) == Shifted(Scan(enc, st, s, i, |s|), |pre|)
    decreases |s| - i
  {
    hide StepAt, Scan;
    var t, end := pre + s, |pre| + |s|;
    ScanEmpty(enc, st, s, |s|);
    ScanEmpty(enc, st, t, end);
    if i < |s| {
      ScanUnfold(enc, st, s, i, |s|);
      ScanUnfold(enc, st, t, |pre| + i, end);
      StepShift(enc, st, pre, s, i);
      var m := StepAt(enc, st, s, i, |s|);
      if m.Go? {
        ScanShift(enc, m.st, pre, s, i + m.n);
      }
    }
  }
}
