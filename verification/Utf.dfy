/**
  UTF-8 and UTF-16 in xmltok.c: what the byte types and the UTF8_INVALID macros let
  through, and the two converters. Shifts and masks of non-negative numbers are written
  as quotients and remainders, and the OR of disjoint bits as a sum.
*/
module Utf {
  import opened Scanner
  import opened References

  /** Char of section 2.2 of XML 1.0. */
  predicate XmlChar(c: int)
  {
    c == 0x9 || c == 0xA || c == 0xD || 0x20 <= c <= 0xD7FF || 0xE000 <= c <= 0xFFFD || 0x10000 <= c <= 0x10FFFF
  }

  predicate XmlChars(cs: seq<int>) { forall k :: 0 <= k < |cs| ==> XmlChar(cs[k]) }

  function Encode8(cs: seq<int>): Text
  {
    if cs == [] then [] else Utf8Encode(cs[0]) + Encode8(cs[1..])
  }

  // -------------------------------------------------------------- what is let through

  /** The length of the character at `i`, or 0 if it is refused or cut off. */
  function CharAt(enc: Enc, s: Text, i: nat): (n: nat)
    requires i < |s|
    ensures i + n <= |s|
  {
    match TestChar(enc, DataChar, s, i, |s|)
    case Fits(n) => n
    case CutOff => 0
    case Refused => 0
    case NotCovered => 1
  }

  /** The scanners' walk over character data gets to the end. */
  predicate Walks(enc: Enc, s: Text, i: nat)
    requires i <= |s|
    decreases |s| - i
  {
    i == |s| || (CharAt(enc, s, i) > 0 && Walks(enc, s, i + CharAt(enc, s, i)))
  }

  /** The code point of a character of `n` bytes. */
  function Decode(s: Text, i: nat, n: nat): int
    requires 1 <= n <= 4 && i + n <= |s|
  {
    var a: int := s[i];
    if n == 1 then a
    else
      var b: int := s[i + 1];
      if n == 2 then (a - 0xC0) * 0x40 + (b - 0x80)
      else
        var c: int := s[i + 2];
        if n == 3 then ((a - 0xE0) * 0x40 + (b - 0x80)) * 0x40 + (c - 0x80)
        else
          var d: int := s[i + 3];
          (((a - 0xF0) * 0x40 + (b - 0x80)) * 0x40 + (c - 0x80)) * 0x40 + (d - 0x80)
  }

  /** A character let through encodes an XML character. */
  lemma CharSound(enc: Enc, s: Text, i: nat)
    requires i < |s| && CharAt(enc, s, i) > 0
    ensures
      var n := CharAt(enc, s, i);
      1 <= n <= 4 && XmlChar(Decode(s, i, n)) && s[i..i + n] == Utf8Encode(Decode(s, i, n))
  {
    var n := CharAt(enc, s, i);
    if n == 2 {
      Sound2(s, i);
    } else if n == 3 {
      Sound3(s, i);
    } else if n == 4 {
      Sound4(s, i);
    }
  }

  lemma Sound2(s: Text, i: nat)
    requires i + 2 <= |s| && s[i] < 0xE0 && !Invalid2(s[i], s[i + 1])
    ensures XmlChar(Decode(s, i, 2)) && s[i..i + 2] == Utf8Encode(Decode(s, i, 2))
  {
  }

  lemma Sound3(s: Text, i: nat)
    requires i + 3 <= |s| && 0xE0 <= s[i] < 0xF0 && !Invalid3(s[i], s[i + 1], s[i + 2])
    ensures XmlChar(Decode(s, i, 3)) && s[i..i + 3] == Utf8Encode(Decode(s, i, 3))
  {
    var a: int, b: int, c: int := s[i], s[i + 1], s[i + 2];
    a, b, c := a - 0xE0, b - 0x80, c - 0x80;
    Digits(0, a, b, c);
    assert 0x800 <= (a * 0x40 + b) * 0x40 + c < 0x10000;
  }

  lemma Sound4(s: Text, i: nat)
    requires i + 4 <= |s| && 0xF0 <= s[i] < 0xF5 && !Invalid4(s[i], s[i + 1], s[i + 2], s[i + 3])
    ensures XmlChar(Decode(s, i, 4)) && s[i..i + 4] == Utf8Encode(Decode(s, i, 4))
  {
    var a: int, b: int, c: int, d: int := s[i], s[i + 1], s[i + 2], s[i + 3];
    a, b, c, d := a - 0xF0, b - 0x80, c - 0x80, d - 0x80;
    Digits(a, b, c, d);
    assert 0x10000 <= ((a * 0x40 + b) * 0x40 + c) * 0x40 + d < 0x110000;
  }

  lemma Digits(a: nat, b: nat, c: nat, d: nat)
    requires b < 0x40 && c < 0x40 && d < 0x40
    ensures
      var n := ((a * 0x40 + b) * 0x40 + c) * 0x40 + d;
      && n % 0x40 == d && (n / 0x40) % 0x40 == c && (n / 0x1000) % 0x40 == b && n / 0x40000 == a
      && n / 0x1000 == a * 0x40 + b
  {
    var n := ((a * 0x40 + b) * 0x40 + c) * 0x40 + d;
    assert n / 0x40 == (a * 0x40 + b) * 0x40 + c;
    assert n / 0x1000 == a * 0x40 + b;
  }

  /** Every XML character is let through, whole. */
  lemma CharComplete(enc: Enc, c: int, rest: Text)
    requires XmlChar(c)
    ensures
      var s := Utf8Encode(c) + rest;
      s != [] && CharAt(enc, s, 0) == |Utf8Encode(c)|
  {
    hide Invalid2, Invalid3, Invalid4;
    Complete2(c);
    Complete3(c);
    Complete4(c);
  }

  lemma Complete2(c: int)
    requires XmlChar(c)
    ensures 0x80 <= c < 0x800 ==>
      var s := Utf8Encode(c);
      |s| == 2 && 0xC0 <= s[0] < 0xE0 && !Invalid2(s[0], s[1])
  {
  }

  lemma Complete3(c: int)
    requires XmlChar(c)
    ensures 0x800 <= c < 0x10000 ==>
      var s := Utf8Encode(c);
      |s| == 3 && 0xE0 <= s[0] < 0xF0 && !Invalid3(s[0], s[1], s[2])
  {
  }

  lemma Complete4(c: int)
    requires XmlChar(c)
    ensures 0x10000 <= c ==>
      var s := Utf8Encode(c);
      |s| == 4 && 0xF0 <= s[0] < 0xF5 && !Invalid4(s[0], s[1], s[2], s[3])
  {
  }

  lemma WalkFront(enc: Enc, pre: Text, s: Text, i: nat)
    requires i < |s|
    ensures CharAt(enc, pre + s, |pre| + i) == CharAt(enc, s, i)
  {
    var t := pre + s;
    assert forall k :: i <= k < |s| ==> t[|pre| + k] == s[k];
    hide ByteType;
  }

  lemma {:induction false} WalkShift(enc: Enc, pre: Text, s: Text, i: nat)
    requires i <= |s|
    ensures Walks(enc, pre + s, |pre| + i) <==> Walks(enc, s, i)
    decreases |s| - i
  {
    hide CharAt;
    if i < |s| {
      WalkFront(enc, pre, s, i);
      if CharAt(enc, s, i) > 0 {
        WalkShift(enc, pre, s, i + CharAt(enc, s, i));
      }
    }
  }

  lemma {:induction false} EncodedWalks(enc: Enc, cs: seq<int>)
    requires XmlChars(cs)
    ensures Walks(enc, Encode8(cs), 0)
  {
    hide CharAt, Utf8Encode;
    if cs != [] {
      var first, rest := Utf8Encode(cs[0]), Encode8(cs[1..]);
      CharComplete(enc, cs[0], rest);
      EncodedWalks(enc, cs[1..]);
      WalkShift(enc, first, rest, 0);
    }
  }

  lemma {:induction false} WalksEncoded(enc: Enc, s: Text, i: nat) returns (cs: seq<int>)
    requires i <= |s| && Walks(enc, s, i)
    ensures XmlChars(cs) && s[i..] == Encode8(cs)
    decreases |s| - i
  {
    hide CharAt, Utf8Encode, Decode;
    if i == |s| {
      cs := [];
    } else {
      var n := CharAt(enc, s, i);
      CharSound(enc, s, i);
      var rest := WalksEncoded(enc, s, i + n);
      cs := [Decode(s, i, n)] + rest;
      assert s[i..] == s[i..i + n] + s[i + n..];
    }
  }

  /** The walk accepts exactly the UTF-8 encodings of XML characters. */
  lemma WalkIff(enc: Enc, s: Text)
    ensures Walks(enc, s, 0) <==> exists cs :: XmlChars(cs) && s == Encode8(cs)
  {
    hide Walks;
    if Walks(enc, s, 0) {
      var cs := WalksEncoded(enc, s, 0);
      assert s[0..] == s;
    }
    forall cs | XmlChars(cs) && s == Encode8(cs) ensures Walks(enc, s, 0) {
      EncodedWalks(enc, cs);
    }
  }

  // ---------------------------------------------------------------- converters

  type Unit = u: int | 0 <= u < 0x10000

  predicate Scalar(c: int) { 0 <= c < 0xD800 || 0xE000 <= c < 0x110000 }

  predicate Scalars(cs: seq<int>) { forall k :: 0 <= k < |cs| ==> Scalar(cs[k]) }

  /** XmlUtf16Encode */
  function Utf16Encode(c: int): seq<Unit>
  {
    if c < 0 then []
    else if c < 0x10000 then [c]
    else if c < 0x110000 then [(c - 0x10000) / 0x400 + 0xD800, (c - 0x10000) % 0x400 + 0xDC00]
    else []
  }

  function Encode16(cs: seq<int>): seq<Unit>
  {
    if cs == [] then [] else Utf16Encode(cs[0]) + Encode16(cs[1..])
  }

  /** How many units a character takes that starts with this one. */
  function Units(u: Unit): (n: nat)
    ensures n >= 1
  {
    if 0xD800 <= u < 0xDC00 then 2 else 1
  }

  /** The four bytes of a surrogate pair. */
  function PairBytes(hi: Byte, lo: Byte, hi2: Byte, lo2: Byte): Text
  {
    var plane := (hi % 4) * 4 + lo / 0x40 + 1;
    [plane / 4 + 0xF0, (lo / 4) % 0x10 + (plane % 4) * 0x10 + 0x80,
     (lo % 4) * 0x10 + (hi2 % 4) * 4 + lo2 / 0x40 + 0x80, lo2 % 0x40 + 0x80]
  }

  /** One turn of the UTF-16 to UTF-8 loop: the bytes it writes, from the halves of the units. */
  function Bytes(us: seq<Unit>, i: nat): (b: Text)
    requires i + (if i < |us| then Units(us[i]) else 1) <= |us|
    ensures 1 <= |b| <= 4
  {
    var hi, lo := us[i] / 0x100, us[i] % 0x100;
    if hi == 0 && lo < 0x80 then [lo]
    else if hi < 8 then [lo / 0x40 + hi * 4 + 0xC0, lo % 0x40 + 0x80]
    else if 0xD8 <= hi < 0xDC then PairBytes(hi, lo, us[i + 1] / 0x100, us[i + 1] % 0x100)
    else [hi / 0x10 + 0xE0, (hi % 0x10) * 4 + lo / 0x40 + 0x80, lo % 0x40 + 0x80]
  }

  function ByteLen(b: Byte): (n: nat)
    ensures 1 <= n <= 4
  {
    if b < 0xC0 then 1 else if b < 0xE0 then 2 else if b < 0xF0 then 3 else if b < 0xF5 then 4 else 1
  }

  /** One turn of utf8_toUtf16; a byte that is no lead is copied as the plain char it is, which may be signed. */
  function From8(signed: bool, s: Text, i: nat): (u: seq<Unit>)
    requires i + (if i < |s| then ByteLen(s[i]) else 1) <= |s|
    ensures 1 <= |u| <= 2
  {
    var n, a: int := ByteLen(s[i]), s[i];
    if n == 1 then [if signed && a >= 0x80 then 0xFF00 + a else a]
    else
      var b: int := s[i + 1];
      if n == 2 then [(a % 0x20) * 0x40 + b % 0x40]
      else
        var c: int := s[i + 2];
        if n == 3 then [(a % 0x10) * 0x1000 + (b % 0x40) * 0x40 + c % 0x40]
        else
          var d: int := s[i + 3];
          // the subtraction is of 32-bit unsigned numbers
          var v := (a % 8) * 0x40000 + (b % 0x40) * 0x1000 + (c % 0x40) * 0x40 + d % 0x40;
          var m := if v >= 0x10000 then v - 0x10000 else v - 0x10000 + 0x1_0000_0000;
          [HighUnit((m / 0x400) % 0x10000), m % 0x400 + 0xDC00]
  }

  /** x | 0xD800: the bits of 0xD800 are set, bit 13 and the low eleven are those of x. */
  function HighUnit(x: Unit): Unit { 0xD800 + x % 0x800 + (x / 0x2000) % 2 * 0x2000 }

  predicate Whole16(us: seq<Unit>, i: nat)
    requires i <= |us|
    decreases |us| - i
  {
    i == |us| || (i + Units(us[i]) <= |us| && Whole16(us, i + Units(us[i])))
  }

  predicate Whole8(s: Text, i: nat)
    requires i <= |s|
    decreases |s| - i
  {
    i == |s| || (i + ByteLen(s[i]) <= |s| && Whole8(s, i + ByteLen(s[i])))
  }

  /** Output and position after converting from `i` with this much room. */
  datatype Conv<T> = Conv(out: seq<T>, pos: nat)

  function To8(us: seq<Unit>, i: nat, room: nat): (r: Conv<Byte>)
    requires i <= |us| && Whole16(us, i)
    ensures |r.out| <= room && i <= r.pos <= |us| && Whole16(us, r.pos)
    decreases |us| - i
  {
    if i == |us| || |Bytes(us, i)| > room then Conv([], i)
    else
      var b := Bytes(us, i);
      var rest := To8(us, i + Units(us[i]), room - |b|);
      Conv(b + rest.out, rest.pos)
  }

  function To16(signed: bool, s: Text, i: nat, room: nat): (r: Conv<Unit>)
    requires i <= |s| && Whole8(s, i)
    ensures |r.out| <= room && i <= r.pos <= |s| && Whole8(s, r.pos)
    decreases |s| - i
  {
    if i == |s| || |From8(signed, s, i)| > room then Conv([], i)
    else
      var u := From8(signed, s, i);
      var rest := To16(signed, s, i + ByteLen(s[i]), room - |u|);
      Conv(u + rest.out, rest.pos)
  }

  lemma To8Step(us: seq<Unit>, i: nat, room: nat)
    requires i <= |us| && Whole16(us, i)
    ensures i < |us| ==> i + Units(us[i]) <= |us| && Whole16(us, i + Units(us[i]))
    ensures To8(us, i, room) ==
      if i == |us| || |Bytes(us, i)| > room then Conv([], i)
      else
        var rest := To8(us, i + Units(us[i]), room - |Bytes(us, i)|);
        Conv(Bytes(us, i) + rest.out, rest.pos)
  {
    hide Bytes;
  }

  lemma To16Step(signed: bool, s: Text, i: nat, room: nat)
    requires i <= |s| && Whole8(s, i)
    ensures i < |s| ==> i + ByteLen(s[i]) <= |s| && Whole8(s, i + ByteLen(s[i]))
    ensures To16(signed, s, i, room) ==
      if i == |s| || |From8(signed, s, i)| > room then Conv([], i)
      else
        var rest := To16(signed, s, i + ByteLen(s[i]), room - |From8(signed, s, i)|);
        Conv(From8(signed, s, i) + rest.out, rest.pos)
  {
    hide From8;
  }

  /** Stopping at any limit and going on with more room makes no difference. */
  lemma {:induction false} Resume8(us: seq<Unit>, i: nat, room: nat, more: nat)
    requires i <= |us| && Whole16(us, i) && room <= more
    ensures
      var first := To8(us, i, room);
      var second := To8(us, first.pos, more - |first.out|);
      To8(us, i, more) == Conv(first.out + second.out, second.pos)
    decreases |us| - i
  {
    hide Bytes, To8, Whole16, Units;
    To8Step(us, i, room);
    To8Step(us, i, more);
    if i < |us| && |Bytes(us, i)| <= room {
      var b := Bytes(us, i);
      Resume8(us, i + Units(us[i]), room - |b|, more - |b|);
      var first := To8(us, i + Units(us[i]), room - |b|);
      var second := To8(us, first.pos, more - |b| - |first.out|);
      assert b + (first.out + second.out) == (b + first.out) + second.out;
    }
  }

  lemma {:induction false} Resume16(signed: bool, s: Text, i: nat, room: nat, more: nat)
    requires i <= |s| && Whole8(s, i) && room <= more
    ensures
      var first := To16(signed, s, i, room);
      var second := To16(signed, s, first.pos, more - |first.out|);
      To16(signed, s, i, more) == Conv(first.out + second.out, second.pos)
    decreases |s| - i
  {
    hide From8, To16, Whole8, ByteLen;
    To16Step(signed, s, i, room);
    To16Step(signed, s, i, more);
    if i < |s| && |From8(signed, s, i)| <= room {
      var u := From8(signed, s, i);
      Resume16(signed, s, i + ByteLen(s[i]), room - |u|, more - |u|);
      var first := To16(signed, s, i + ByteLen(s[i]), room - |u|);
      var second := To16(signed, s, first.pos, more - |u| - |first.out|);
      assert u + (first.out + second.out) == (u + first.out) + second.out;
    }
  }

  // ----------------------------------------------------------------- round trip

  /** Quotient and remainder are what they should be. */
  lemma DivIs(n: int, k: int, q: int, r: int)
    requires k > 0 && n == q * k + r && 0 <= r < k
    ensures n / k == q && n % k == r
  {
    var q', r' := n / k, n % k;
    Same(q, q', k, r, r');
  }

  lemma Same(q: int, q': int, k: int, r: int, r': int)
    requires k > 0 && q * k + r == q' * k + r' && 0 <= r < k && 0 <= r' < k
    ensures q == q' && r == r'
  {
    Spread(q, q', k);
    OnlyZero(q - q', k);
  }

  lemma Spread(a: int, b: int, k: int)
    ensures (a - b) * k == a * k - b * k
  {
  }

  lemma OnlyZero(d: int, k: int)
    requires -k < d * k < k
    ensures d == 0
  {
    Spread(d, 1, k);
    Spread(d, -1, k);
    assert d >= 1 ==> (d - 1) * k >= 0;
    assert d <= -1 ==> (d + 1) * k <= 0;
  }

  /** The bits of a character of three bytes or fewer, as the loops deal them out. */
  lemma SmallBits(h: nat, l: nat, k: nat, e: nat)
    requires h < 0x10 && l < 0x10 && k < 4 && e < 0x40
    ensures
      var c := ((h * 0x10 + l) * 4 + k) * 0x40 + e;
      && c / 0x100 == h * 0x10 + l && c % 0x100 == k * 0x40 + e
      && (c % 0x100) / 0x40 == k && (c % 0x100) % 0x40 == e
      && (c / 0x100) / 0x10 == h && (c / 0x100) % 0x10 == l
      && c / 0x40 == (h * 0x10 + l) * 4 + k && c % 0x40 == e && c / 0x1000 == h && (c / 0x40) % 0x40 == l * 4 + k
  {
    var c := ((h * 0x10 + l) * 4 + k) * 0x40 + e;
    DivIs(c, 0x100, h * 0x10 + l, k * 0x40 + e);
    DivIs(k * 0x40 + e, 0x40, k, e);
    DivIs(h * 0x10 + l, 0x10, h, l);
    DivIs(c, 0x40, (h * 0x10 + l) * 4 + k, e);
    DivIs(c, 0x1000, h, (l * 4 + k) * 0x40 + e);
    DivIs((h * 0x10 + l) * 4 + k, 0x40, h, l * 4 + k);
  }

  lemma Deal(c: int) returns (h: nat, l: nat, k: nat, e: nat)
    requires 0 <= c < 0x10000
    ensures h < 0x10 && l < 0x10 && k < 4 && e < 0x40 && c == ((h * 0x10 + l) * 4 + k) * 0x40 + e
  {
    e := c % 0x40;
    var t := c / 0x40;
    k := t % 4;
    var w := t / 4;
    l, h := w % 0x10, w / 0x10;
  }

  lemma SmallBytes(c: int)
    requires Scalar(c) && c < 0x10000
    ensures Units(c) == 1 && Bytes([c], 0) == Utf8Encode(c)
  {
    var h, l, k, e := Deal(c);
    SmallBits(h, l, k, e);
    DivIs(h * 0x10 + l, 0x10, h, l);
  }

  lemma SmallUnits(signed: bool, c: int)
    requires Scalar(c) && c < 0x10000
    ensures |Utf8Encode(c)| == ByteLen(Utf8Encode(c)[0]) && From8(signed, Utf8Encode(c), 0) == [c]
  {
    if 0x80 <= c < 0x800 {
      TwoUnits(signed, c);
    } else if c >= 0x800 {
      ThreeUnits(signed, c);
    }
  }

  lemma TwoUnits(signed: bool, c: int)
    requires 0x80 <= c < 0x800
    ensures |Utf8Encode(c)| == ByteLen(Utf8Encode(c)[0]) && From8(signed, Utf8Encode(c), 0) == [c]
  {
    DivIs(0xC0 + c / 0x40, 0x20, 6, c / 0x40);
    DivIs(0x80 + c % 0x40, 0x40, 2, c % 0x40);
  }

  lemma ThreeUnits(signed: bool, c: int)
    requires 0x800 <= c < 0x10000
    ensures |Utf8Encode(c)| == ByteLen(Utf8Encode(c)[0]) && From8(signed, Utf8Encode(c), 0) == [c]
  {
    DivIs(0xE0 + c / 0x1000, 0x10, 14, c / 0x1000);
    DivIs(0x80 + (c / 0x40) % 0x40, 0x40, 2, (c / 0x40) % 0x40);
    DivIs(0x80 + c % 0x40, 0x40, 2, c % 0x40);
  }

  /** The parts of a supplementary character: 3, 2, 4, 2, 2, 2 and 6 bits. */
  datatype Parts = Parts(a: nat, q: nat, l: nat, d1: nat, d2: nat, d3: nat, e: nat, g: nat, h: nat)

  predicate Dealt(p: Parts, c: int)
  {
    && p.a <= 4 && p.q < 4 && p.l < 0x10 && p.d1 < 4 && p.d2 < 4 && p.d3 < 4 && p.e < 0x40 && p.g < 4 && p.h < 4
    && 4 * p.g + p.h + 1 == 4 * p.a + p.q
    && c == ((p.a * 0x40 + (0x10 * p.q + p.l)) * 0x40 + (0x10 * p.d1 + 4 * p.d2 + p.d3)) * 0x40 + p.e
  }

  lemma DealLarge(c: int) returns (p: Parts)
    requires 0x10000 <= c < 0x110000
    ensures Dealt(p, c)
  {
    var e, t := c % 0x40, c / 0x40;
    var d, w := t % 0x40, t / 0x40;
    var b, a := w % 0x40, w / 0x40;
    var q, l := b / 0x10, b % 0x10;
    var d1, r := d / 0x10, d % 0x10;
    var m := 4 * a + q - 1;
    assert 0 <= m < 16;
    p := Parts(a, q, l, d1, r / 4, r % 4, e, m / 4, m % 4);
  }

  function High(p: Parts): int { 0xD800 + 0x100 * p.g + 0x40 * p.h + 4 * p.l + p.d1 }

  function Low(p: Parts): int { 0xDC00 + 0x100 * p.d2 + 0x40 * p.d3 + p.e }

  lemma LargeEncoded(p: Parts, c: int)
    requires Dealt(p, c) && 0x10000 <= c < 0x110000
    ensures Utf16Encode(c) == [High(p), Low(p)]
    ensures Utf8Encode(c) == [0xF0 + p.a, 0x80 + (0x10 * p.q + p.l), 0x80 + (0x10 * p.d1 + 4 * p.d2 + p.d3), 0x80 + p.e]
  {
    DivIs(c - 0x10000, 0x400, High(p) - 0xD800, Low(p) - 0xDC00);
    Digits(p.a, 0x10 * p.q + p.l, 0x10 * p.d1 + 4 * p.d2 + p.d3, p.e);
  }

  lemma LargeBytes(p: Parts, c: int)
    requires Dealt(p, c) && 0x10000 <= c < 0x110000
    ensures Units(High(p)) == 2
    ensures Bytes([High(p), Low(p)], 0)
      == [0xF0 + p.a, 0x80 + (0x10 * p.q + p.l), 0x80 + (0x10 * p.d1 + 4 * p.d2 + p.d3), 0x80 + p.e]
  {
    var lo := 0x40 * p.h + 4 * p.l + p.d1;
    DivIs(High(p), 0x100, 0xD8 + p.g, lo);
    DivIs(0xD8 + p.g, 4, 54, p.g);
    DivIs(lo, 0x40, p.h, 4 * p.l + p.d1);
    DivIs(lo, 4, 0x10 * p.h + p.l, p.d1);
    DivIs(0x10 * p.h + p.l, 0x10, p.h, p.l);
    DivIs(4 * p.g + p.h + 1, 4, p.a, p.q);
    DivIs(Low(p), 0x100, 0xDC + p.d2, 0x40 * p.d3 + p.e);
    DivIs(0xDC + p.d2, 4, 55, p.d2);
    DivIs(0x40 * p.d3 + p.e, 0x40, p.d3, p.e);
  }

  lemma LargeUnits(signed: bool, p: Parts, c: int, s: Text)
    requires Dealt(p, c) && 0x10000 <= c < 0x110000
    requires s == [0xF0 + p.a, 0x80 + (0x10 * p.q + p.l), 0x80 + (0x10 * p.d1 + 4 * p.d2 + p.d3), 0x80 + p.e]
    ensures ByteLen(s[0]) == 4 && From8(signed, s, 0) == [High(p), Low(p)]
  {
    DivIs(0xF0 + p.a, 8, 30, p.a);
    DivIs(0x80 + (0x10 * p.q + p.l), 0x40, 2, 0x10 * p.q + p.l);
    DivIs(0x80 + (0x10 * p.d1 + 4 * p.d2 + p.d3), 0x40, 2, 0x10 * p.d1 + 4 * p.d2 + p.d3);
    DivIs(0x80 + p.e, 0x40, 2, p.e);
    DivIs(c - 0x10000, 0x400, High(p) - 0xD800, Low(p) - 0xDC00);
    hide HighUnit;
    HighIs(High(p) - 0xD800);
  }

  lemma HighIs(x: int)
    requires 0 <= x < 0x400
    ensures HighUnit(x % 0x10000) == 0xD800 + x
  {
  }

  /** Units and bytes of one character correspond, whatever follows. */
  lemma CharConverts(signed: bool, c: int)
    requires Scalar(c)
    ensures Utf16Encode(c) != [] && |Utf16Encode(c)| == Units(Utf16Encode(c)[0])
    ensures Bytes(Utf16Encode(c), 0) == Utf8Encode(c)
    ensures Utf8Encode(c) != [] && |Utf8Encode(c)| == ByteLen(Utf8Encode(c)[0])
    ensures From8(signed, Utf8Encode(c), 0) == Utf16Encode(c)
  {
    if c < 0x10000 {
      SmallBytes(c);
      SmallUnits(signed, c);
    } else {
      hide Bytes, From8, Dealt, Utf8Encode, Utf16Encode;
      var p := DealLarge(c);
      LargeEncoded(p, c);
      LargeBytes(p, c);
      LargeUnits(signed, p, c, Utf8Encode(c));
    }
  }

  lemma BytesThere(us: seq<Unit>, i: nat, ch: seq<Unit>)
    requires ch != [] && |ch| == Units(ch[0]) && i + |ch| <= |us| && us[i..i + |ch|] == ch
    ensures Units(us[i]) == |ch| && Bytes(us, i) == Bytes(ch, 0)
  {
    var there := us[i..i + |ch|];
    assert us[i] == there[0] && (|ch| == 2 ==> us[i + 1] == there[1]);
  }

  lemma From8There(signed: bool, s: Text, i: nat, ch: Text)
    requires ch != [] && |ch| == ByteLen(ch[0]) && i + |ch| <= |s| && s[i..i + |ch|] == ch
    ensures ByteLen(s[i]) == |ch| && From8(signed, s, i) == From8(signed, ch, 0)
  {
    var there := s[i..i + |ch|];
    assert s[i] == there[0] && (|ch| >= 2 ==> s[i + 1] == there[1]);
    assert (|ch| >= 3 ==> s[i + 2] == there[2]) && (|ch| == 4 ==> s[i + 3] == there[3]);
  }

  /** What stands at the front of a suffix, and what is left. */
  lemma Front<T>(s: seq<T>, i: nat, ch: seq<T>, rest: seq<T>)
    requires i <= |s| && s[i..] == ch + rest
    ensures i + |ch| <= |s| && s[i..i + |ch|] == ch && s[i + |ch|..] == rest
  {
    assert |s| - i == |ch| + |rest|;
    assert s[i..i + |ch|] == s[i..][..|ch|] && s[i + |ch|..] == s[i..][|ch|..];
  }

  lemma EncodeCons(cs: seq<int>)
    requires cs != []
    ensures Encode8(cs) == Utf8Encode(cs[0]) + Encode8(cs[1..])
    ensures Encode16(cs) == Utf16Encode(cs[0]) + Encode16(cs[1..])
  {
    hide Utf8Encode, Utf16Encode;
  }

  lemma EncodeNone()
    ensures Encode8([]) == [] && Encode16([]) == []
  {
  }

  lemma Whole16Cons(us: seq<Unit>, i: nat)
    requires i <= |us| && (i == |us| || (i + Units(us[i]) <= |us| && Whole16(us, i + Units(us[i]))))
    ensures Whole16(us, i)
  {
  }

  lemma Whole8Cons(s: Text, i: nat)
    requires i <= |s| && (i == |s| || (i + ByteLen(s[i]) <= |s| && Whole8(s, i + ByteLen(s[i]))))
    ensures Whole8(s, i)
  {
    hide ByteLen;
  }

  /** Well-formed UTF-16 converts to the UTF-8 of the same characters. */
  lemma {:induction false} To8Encodes(us: seq<Unit>, i: nat, cs: seq<int>, room: nat)
    requires i <= |us| && Scalars(cs) && us[i..] == Encode16(cs) && room >= |Encode8(cs)|
    ensures Whole16(us, i) && To8(us, i, room) == Conv(Encode8(cs), |us|)
    decreases |cs|
  {
    hide Bytes, Utf16Encode, Utf8Encode, Units, Scalar, To8, Encode8, Encode16, Whole16;
    EncodeNone();
    if cs != [] {
      var ch := Utf16Encode(cs[0]);
      EncodeCons(cs);
      CharConverts(false, cs[0]);
      Front(us, i, ch, Encode16(cs[1..]));
      BytesThere(us, i, ch);
      To8Encodes(us, i + |ch|, cs[1..], room - |Bytes(us, i)|);
    }
    Whole16Cons(us, i);
    To8Step(us, i, room);
  }

  lemma {:induction false} To16Encodes(signed: bool, s: Text, i: nat, cs: seq<int>, room: nat)
    requires i <= |s| && Scalars(cs) && s[i..] == Encode8(cs) && room >= |Encode16(cs)|
    ensures Whole8(s, i) && To16(signed, s, i, room) == Conv(Encode16(cs), |s|)
    decreases |cs|
  {
    hide From8, Utf16Encode, Utf8Encode, ByteLen, Scalar, To16, Encode8, Encode16, Whole8;
    EncodeNone();
    if cs != [] {
      var ch := Utf8Encode(cs[0]);
      EncodeCons(cs);
      CharConverts(signed, cs[0]);
      Front(s, i, ch, Encode8(cs[1..]));
      From8There(signed, s, i, ch);
      To16Encodes(signed, s, i + |ch|, cs[1..], room - |From8(signed, s, i)|);
    }
    Whole8Cons(s, i);
    To16Step(signed, s, i, room);
  }

  /** UTF-16 to UTF-8 and back is the identity on well-formed text. */
  lemma RoundTrip(signed: bool, cs: seq<int>, room8: nat, room16: nat)
    requires Scalars(cs) && room8 >= |Encode8(cs)| && room16 >= |Encode16(cs)|
    ensures Whole16(Encode16(cs), 0)
    ensures
      var there := To8(Encode16(cs), 0, room8);
      && there == Conv(Encode8(cs), |Encode16(cs)|) && Whole8(there.out, 0)
      && To16(signed, there.out, 0, room16) == Conv(Encode16(cs), |there.out|)
  {
    assert Encode16(cs)[0..] == Encode16(cs) && Encode8(cs)[0..] == Encode8(cs);
    To8Encodes(Encode16(cs), 0, cs, room8);
    To16Encodes(signed, Encode8(cs), 0, cs, room16);
  }

  // ------------------------------------------------------------ the source's loops

  /** DEFINE_UTF16_TO_UTF8 */
  method ConvertTo8(us: seq<Unit>, start: nat, room: nat) returns (from: nat, to: Text)
    requires start <= |us| && Whole16(us, start)
    ensures Conv(to, from) == To8(us, start, room)
  {
    hide Bytes, To8, Units, Whole16;
    from, to := start, [];
    assert [] + To8(us, start, room).out == To8(us, start, room).out;
    while from != |us|
      invariant start <= from <= |us| && Whole16(us, from) && |to| <= room
      invariant
        var rest := To8(us, from, room - |to|);
        To8(us, start, room) == Conv(to + rest.out, rest.pos)
      decreases |us| - from
    {
      To8Step(us, from, room - |to|);
      var b := Bytes(us, from);
      if room - |to| < |b| {
        assert to + [] == to;
        return;
      }
      ghost var rest := To8(us, from + Units(us[from]), room - |to| - |b|);
      assert to + (b + rest.out) == (to + b) + rest.out;
      to := to + b;
      from := from + Units(us[from]);
    }
    To8Step(us, from, room - |to|);
    assert to + [] == to;
  }

  /** utf8_toUtf16 */
  method ConvertTo16(signed: bool, s: Text, start: nat, room: nat) returns (from: nat, to: seq<Unit>)
    requires start <= |s| && Whole8(s, start)
    ensures Conv(to, from) == To16(signed, s, start, room)
  {
    hide From8, To16, ByteLen, Whole8;
    from, to := start, [];
    assert [] + To16(signed, s, start, room).out == To16(signed, s, start, room).out;
    while from != |s| && |to| != room
      invariant start <= from <= |s| && Whole8(s, from) && |to| <= room
      invariant
        var rest := To16(signed, s, from, room - |to|);
        To16(signed, s, start, room) == Conv(to + rest.out, rest.pos)
      decreases |s| - from
    {
      To16Step(signed, s, from, room - |to|);
      var u := From8(signed, s, from);
      if |u| == 2 && |to| + 1 == room {
        assert to + [] == to;
        return;
      }
      ghost var rest := To16(signed, s, from + ByteLen(s[from]), room - |to| - |u|);
      assert to + (u + rest.out) == (to + u) + rest.out;
      to := to + u;
      from := from + ByteLen(s[from]);
    }
    To16Step(signed, s, from, room - |to|);
    assert to + [] == to;
  }
}
