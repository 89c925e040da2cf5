/**
  References: character references and the five predefined entities (charRefNumber,
  checkCharRefNumber, XmlUtf8Encode, predefinedEntityName), and the table of general
  entities with the measure that ends every expansion.
*/
module References {
  import opened Scanner

  function HexDigit(b: Byte): nat
  {
    if 0x30 <= b <= 0x39 then b - 0x30
    else if 0x41 <= b <= 0x46 then 10 + b - 0x41
    else if 0x61 <= b <= 0x66 then 10 + b - 0x61
    else 0
  }

  /** The digits from `i` to the semicolon before `next`; None when the value overflows Unicode. */
  function Digits(s: Text, i: nat, semi: nat, radix: nat, acc: nat): int
    requires i <= semi <= |s|
    decreases semi - i
  {
    if i == semi then acc
    else
      var v := acc * radix + HexDigit(s[i]);
      if v >= 0x110000 then -1 else Digits(s, i + 1, semi, radix, v)
  }

  /** checkCharRefNumber: an XML Char, or -1. */
  function CheckCharRef(n: int): int
  {
    if 0xD800 <= n <= 0xDFFF then -1
    else if n == 0xFFFE || n == 0xFFFF then -1
    else if 0 <= n < 0x20 && n != 0x9 && n != 0xA && n != 0xD then -1
    else n
  }

  /** charRefNumber of the reference that starts at `i` and ends before `next`. */
  function CharRefNumber(s: Text, i: nat, next: nat): int
    requires i + 4 <= next <= |s|
  {
    var n := if s[i + 2] == X_CHAR then Digits(s, i + 3, next - 1, 16, 0) else Digits(s, i + 2, next - 1, 10, 0);
    if n < 0 then -1 else CheckCharRef(n)
  }

  /** XmlUtf8Encode; shifts and masks of non-negative numbers as / and %. */
  function Utf8Encode(c: int): Text
  {
    if c < 0 then []
    else if c < 0x80 then [c]
    else if c < 0x800 then [0xC0 + c / 0x40, 0x80 + c % 0x40]
    else if c < 0x10000 then [0xE0 + c / 0x1000, 0x80 + (c / 0x40) % 0x40, 0x80 + c % 0x40]
    else if c < 0x110000 then
      [0xF0 + c / 0x40000, 0x80 + (c / 0x1000) % 0x40, 0x80 + (c / 0x40) % 0x40, 0x80 + c % 0x40]
    else []
  }

  /** predefinedEntityName: lt, gt, amp, quot, apos; 0 for any other name. */
  function Predefined(name: Text): Byte
  {
    if name == [0x6C, 0x74] then 0x3C
    else if name == [0x67, 0x74] then 0x3E
    else if name == [0x61, 0x6D, 0x70] then 0x26
    else if name == [0x71, 0x75, 0x6F, 0x74] then 0x22
    else if name == [0x61, 0x70, 0x6F, 0x73] then 0x27
    else 0
  }

  // ------------------------------------------------------------------ entities

  /** A general entity; `inside` is is_internal, declared in the internal subset outside PEs. */
  datatype Entity = Internal(text: Text, inside: bool) | External(inside: bool) | Unparsed(inside: bool)

  /** The entities that can still be opened. */
  ghost function Unopened(entities: map<Text, Entity>, open: set<Text>): nat { |entities.Keys - open| }

  lemma OpenOne(entities: map<Text, Entity>, open: set<Text>, name: Text)
    requires name in entities && name !in open
    ensures Unopened(entities, open + {name}) < Unopened(entities, open)
  {
    assert entities.Keys - (open + {name}) == (entities.Keys - open) - {name};
  }
}
