/**
  The grammar of content, apart from any scanner: section 2 to 4 of XML 1.0 and section 4 of
  Namespaces in XML, as data and as the text that writes it. Names beyond ASCII are those
  that the encoding's two tests know.
*/
module Grammar {
  import opened Scanner
  import opened References
  import opened CharRefs
  import opened TagNames
  import opened Tokens
  import Utf

  // ------------------------------------------------------------------- names

  const COLON_BYTE: Byte := 0x3A

  predicate Blanks(t: Text) { forall k :: 0 <= k < |t| ==> Blank(t[k]) }

  /** An ASCII character of a name. */
  predicate NameAscii(b: Byte) { Letter(b) || 0x30 <= b <= 0x39 || b == 0x5F || b == 0x2D || b == 0x2E }

  /** The text begins with a character beyond ASCII that the test knows. */
  predicate Beyond(test: Text -> bool, t: Text)
  {
    t != [] && 0xC0 <= t[0] < 0xF0 && Width(t[0]) <= |t| && test(t[..Width(t[0])])
  }

  predicate NameRest(enc: Enc, t: Text)
  {
    t == [] || ((NameAscii(t[0]) || Beyond(enc.name, t)) && Width(t[0]) <= |t| && NameRest(enc, t[Width(t[0])..]))
  }

  predicate Starts(enc: Enc, t: Text)
  {
    t != [] && (Letter(t[0]) || t[0] == 0x5F || Beyond(enc.nmstrt, t)) && Width(t[0]) <= |t|
  }

  /** A name without a colon: a character that one may begin with, and characters that may stand in one. */
  predicate NcName(enc: Enc, t: Text) { Starts(enc, t) && NameRest(enc, t[Width(t[0])..]) }

  /** In an end tag colons count as characters of the name; it has to spell that of a start tag anyway. */
  predicate EndRest(enc: Enc, t: Text)
  {
    || t == []
    || ((NameAscii(t[0]) || t[0] == COLON_BYTE || Beyond(enc.name, t)) && Width(t[0]) <= |t| &&
      EndRest(enc, t[Width(t[0])..]))
  }

  predicate ClosingName(enc: Enc, t: Text) { Starts(enc, t) && EndRest(enc, t[Width(t[0])..]) }

  /** A name, or two with a colon between them. */
  datatype QName = QName(prefix: Text, local: Text)

  function NameText(q: QName): Text { if q.prefix == [] then q.local else q.prefix + [COLON_BYTE] + q.local }

  predicate NameOk(enc: Enc, q: QName) { (q.prefix == [] || NcName(enc, q.prefix)) && NcName(enc, q.local) }

  // -------------------------------------------------------------- references, values

  /** A character, or a reference to one by its number or to an entity by its name. */
  datatype Item = Plain(c: int) | ByNumber(digits: Text, ds: seq<nat>, hex: bool) | ByName(name: Text)

  function ItemText(item: Item): Text
  {
    match item
    case Plain(c) => Utf8Encode(c)
    case ByNumber(digits, _, hex) => (if hex then [0x26, 0x23, 0x78] else [0x26, 0x23]) + digits + [0x3B]
    case ByName(name) => [0x26] + name + [0x3B]
  }

  function ItemsText(items: seq<Item>): Text
  {
    if items == [] then [] else ItemText(items[0]) + ItemsText(items[1..])
  }

  /** A reference of either kind. */
  predicate RefOk(enc: Enc, item: Item)
  {
    match item
    case Plain(_) => false
    case ByNumber(digits, ds, hex) => ds != [] && Written(digits, ds, Radix(hex))
    case ByName(name) => NcName(enc, name)
  }

  /** What may stand between two quotes: no `<`, no `&` but in references, and not the quote. */
  predicate ItemOk(enc: Enc, quote: Byte, item: Item)
  {
    if item.Plain? then Utf.XmlChar(item.c) && item.c != 0x3C && item.c != 0x26 && item.c != quote
    else RefOk(enc, item)
  }

  predicate ItemsOk(enc: Enc, quote: Byte, items: seq<Item>)
  {
    forall k :: 0 <= k < |items| ==> ItemOk(enc, quote, items[k])
  }

  // -------------------------------------------------------------------- tags

  datatype Att = Att(gap: Text, name: QName, before: Text, after: Text, quote: Byte, value: seq<Item>)

  function AttText(a: Att): Text
  {
    a.gap + NameText(a.name) + a.before + [EQUAL] + a.after + [a.quote] + ItemsText(a.value) + [a.quote]
  }

  predicate AttOk(enc: Enc, a: Att)
  {
    && a.gap != [] && Blanks(a.gap) && NameOk(enc, a.name) && Blanks(a.before) && Blanks(a.after)
    && (a.quote == 0x22 || a.quote == 0x27) && ItemsOk(enc, a.quote, a.value)
  }

  function AttsText(atts: seq<Att>): Text
  {
    if atts == [] then [] else AttText(atts[0]) + AttsText(atts[1..])
  }

  predicate AttsOk(enc: Enc, atts: seq<Att>) { forall k :: 0 <= k < |atts| ==> AttOk(enc, atts[k]) }

  // ------------------------------------------------------------------ content

  datatype Piece =
    | STag(name: QName, atts: seq<Att>, gap: Text, empty: bool)
    | ETag(ename: Text, egap: Text)
    | Chars(cs: seq<int>)
    | Ref(item: Item)
    | CdSect(cdata: seq<int>)
    | Instruction(target: Text, pgap: Text, body: seq<int>)
    | Remark(comment: seq<int>)

  const CDATA_START: Text := [0x3C, 0x21, 0x5B, 0x43, 0x44, 0x41, 0x54, 0x41, 0x5B]

  const CDATA_END: Text := [0x5D, 0x5D, 0x3E]

  function PieceText(p: Piece): Text
  {
    match p
    case STag(name, atts, gap, empty) =>
      [0x3C] + NameText(name) + AttsText(atts) + gap + if empty then [SLASH, GREATER] else [GREATER]
    case ETag(name, gap) => [0x3C, SLASH] + name + gap + [GREATER]
    case Chars(cs) => Utf.Encode8(cs)
    case Ref(item) => ItemText(item)
    case CdSect(cs) => CDATA_START + Utf.Encode8(cs) + CDATA_END
    case Instruction(target, gap, body) => [0x3C, 0x3F] + target + gap + Utf.Encode8(body) + [0x3F, GREATER]
    case Remark(cs) => [0x3C, 0x21, 0x2D, 0x2D] + Utf.Encode8(cs) + [0x2D, 0x2D, GREATER]
  }

  predicate HoldsAt(cs: seq<int>, bad: seq<int>, k: nat) { k + |bad| <= |cs| && cs[k..k + |bad|] == bad }

  ghost predicate Without(cs: seq<int>, bad: seq<int>) { forall k: nat :: !HoldsAt(cs, bad, k) }

  ghost predicate PieceOk(enc: Enc, p: Piece)
  {
    match p
    case STag(name, atts, gap, _) => NameOk(enc, name) && AttsOk(enc, atts) && Blanks(gap)
    case ETag(name, gap) => ClosingName(enc, name) && Blanks(gap)
    case Chars(cs) =>
      Utf.XmlChars(cs) && cs != [] && 0x3C !in cs && 0x26 !in cs && Without(cs, [0x5D, 0x5D, 0x3E])
    case Ref(item) => RefOk(enc, item)
    case CdSect(cs) => Utf.XmlChars(cs) && Without(cs, [0x5D, 0x5D, 0x3E])
    case Instruction(target, gap, body) =>
      && NcName(enc, target) && !Reserved(target) && Blanks(gap) && Utf.XmlChars(body)
      && (body != [] ==> gap != [] && Utf8Encode(body[0]) != [] && !Blank(Utf8Encode(body[0])[0]))
      && Without(body, [0x3F, 0x3E])
    case Remark(cs) => Utf.XmlChars(cs) && Without(cs, [0x2D, 0x2D]) && (cs == [] || cs[|cs| - 1] != 0x2D)
  }

  function PiecesText(ps: seq<Piece>): Text
  {
    if ps == [] then [] else PieceText(ps[0]) + PiecesText(ps[1..])
  }

  /** Pieces as they are found: no two runs of characters next to each other. */
  ghost predicate PiecesOk(enc: Enc, ps: seq<Piece>)
  {
    && (forall k :: 0 <= k < |ps| ==> PieceOk(enc, ps[k]))
    && (forall k :: 0 <= k < |ps| - 1 ==> !(ps[k].Chars? && ps[k + 1].Chars?))
  }
}
