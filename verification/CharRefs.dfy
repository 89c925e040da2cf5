/**
  What a character reference stands for, by the digits that section 4.1 of XML 1.0 allows,
  and what the application gets for it in content and in attribute values.
*/
module CharRefs {
  import opened Scanner
  import opened Tokenizer
  import opened References
  import opened Tokens
  import Utf
  import C = Content
  import A = AttributeValue

  const UPPER: string := "0123456789ABCDEF"

  const LOWER: string := "0123456789abcdef"

  /** The character writes the digit, in either case. */
  predicate Writes(b: Byte, d: nat) { d < 16 && (b == UPPER[d] as int || b == LOWER[d] as int) }

  /** The text writes the digits, in this radix. */
  predicate Written(t: Text, ds: seq<nat>, radix: nat)
  {
    |t| == |ds| && forall k :: 0 <= k < |ds| ==> ds[k] < radix && Writes(t[k], ds[k])
  }

  function Number(ds: seq<nat>, radix: nat): nat
  {
    if ds == [] then 0 else Number(ds[..|ds| - 1], radix) * radix + ds[|ds| - 1]
  }

  /** A reference to the number with these digits: `&#x` or `&#`, the digits, and a semicolon. */
  predicate Refers(ref: Text, ds: seq<nat>, hex: bool)
  {
    var head := if hex then [0x26, 0x23, 0x78] else [0x26, 0x23];
    && ds != [] && |ref| == |head| + |ds| + 1 && ref[..|head|] == head && ref[|ref| - 1] == 0x3B
    && Written(ref[|head|..|ref| - 1], ds, if hex then 16 else 10)
  }

  // ----------------------------------------------------------------- printing

  /** The digits of a number. */
  function Print(n: nat, radix: nat): (ds: seq<nat>)
    requires radix >= 2
    ensures ds != [] && forall k :: 0 <= k < |ds| ==> ds[k] < radix
  {
    if n < radix then [n]
    else
      Quotient(n, radix);
      Print(n / radix, radix) + [n % radix]
  }

  lemma {:induction false} PrintNumber(n: nat, radix: nat)
    requires radix >= 2
    ensures Number(Print(n, radix), radix) == n
  {
    hide Number, Print;
    PrintStep(n, radix);
    if n >= radix {
      var front, last := n / radix, n % radix;
      Quotient(n, radix);
      PrintNumber(front, radix);
      NumberSnoc(Print(front, radix), last, radix);
    } else {
      NumberOne(n, radix);
    }
  }

  lemma PrintStep(n: nat, radix: nat)
    requires radix >= 2
    ensures Print(n, radix) == if n < radix then [n] else Print(n / radix, radix) + [n % radix]
  {
  }

  lemma Quotient(n: nat, radix: nat)
    requires radix >= 2
    ensures n / radix * radix + n % radix == n && (n >= radix ==> 0 <= n / radix < n) && 0 <= n % radix < radix
  {
  }

  lemma NumberOne(d: nat, radix: nat)
    ensures Number([], radix) == 0 && Number([d], radix) == d
  {
    assert [d][..0] == [];
  }

  lemma NumberSnoc(ds: seq<nat>, d: nat, radix: nat)
    ensures Number(ds + [d], radix) == Number(ds, radix) * radix + d
  {
    assert (ds + [d])[..|ds|] == ds;
  }

  function Zeros(k: nat): seq<nat> { seq(k, _ => 0) }

  lemma {:induction false} LeadingZeros(k: nat, ds: seq<nat>, radix: nat)
    ensures Number(Zeros(k) + ds, radix) == Number(ds, radix)
    decreases |ds|, k
  {
    if ds != [] {
      var front, last := ds[..|ds| - 1], ds[|ds| - 1];
      LeadingZeros(k, front, radix);
      assert Zeros(k) + ds == (Zeros(k) + front) + [last] && ds == front + [last];
      NumberSnoc(Zeros(k) + front, last, radix);
      NumberSnoc(front, last, radix);
    } else if k > 0 {
      LeadingZeros(k - 1, [], radix);
      assert Zeros(k) + [] == (Zeros(k - 1) + []) + [0];
      NumberSnoc(Zeros(k - 1) + [], 0, radix);
    }
  }

  // -------------------------------------------------------- what the code computes

  lemma DigitIs(b: Byte, d: nat)
    requires Writes(b, d)
    ensures HexDigit(b) == d
  {
  }

  lemma {:induction false} NumberGrows(ds: seq<nat>, more: seq<nat>, radix: nat)
    requires radix >= 1
    ensures Number(ds, radix) <= Number(ds + more, radix)
  {
    if more == [] {
      assert ds + more == ds;
    } else {
      var front, last := more[..|more| - 1], more[|more| - 1];
      NumberGrows(ds, front, radix);
      assert ds + more == (ds + front) + [last];
      NumberSnoc(ds + front, last, radix);
      AtLeast(Number(ds + front, radix), radix);
    }
  }

  lemma AtLeast(n: nat, radix: nat)
    requires radix >= 1
    ensures n * radix >= n
  {
  }

  lemma WrittenFront(s: Text, i: nat, semi: nat, ds: seq<nat>, radix: nat)
    requires i < semi <= |s| && Written(s[i..semi], ds, radix)
    ensures ds != [] && Writes(s[i], ds[0]) && ds[0] < radix && Written(s[i + 1..semi], ds[1..], radix)
  {
    hide Writes;
    var t := s[i..semi];
    assert t[0] == s[i] && t[1..] == s[i + 1..semi];
    assert forall k :: 0 <= k < |ds| - 1 ==> t[1..][k] == t[k + 1] && ds[1..][k] == ds[k + 1];
  }

  /** The loop over the digits, when those in `done` have been read. */
  lemma {:induction false} DigitsAre(s: Text, i: nat, semi: nat, radix: nat, done: seq<nat>, ds: seq<nat>)
    requires i <= semi <= |s| && Written(s[i..semi], ds, radix) && radix >= 1 && Number(done, radix) < 0x110000
    ensures
      var n := Number(done + ds, radix);
      Digits(s, i, semi, radix, Number(done, radix)) == if n < 0x110000 then n else -1
    decreases semi - i
  {
    hide Number, HexDigit, Writes;
    if i == semi {
      assert done + ds == done;
    } else {
      var rest := ds[1..];
      WrittenFront(s, i, semi, ds, radix);
      DigitIs(s[i], ds[0]);
      NumberSnoc(done, ds[0], radix);
      assert done + ds == (done + [ds[0]]) + rest;
      if Number(done + [ds[0]], radix) < 0x110000 {
        DigitsAre(s, i + 1, semi, radix, done + [ds[0]], rest);
      } else {
        NumberGrows(done + [ds[0]], rest, radix);
      }
    }
  }

  /** A reference denotes the XML character with its number, and nothing otherwise. */
  lemma NumberIs(s: Text, i: nat, next: nat, ds: seq<nat>, hex: bool)
    requires i <= next <= |s| && Refers(s[i..next], ds, hex)
    ensures
      var n := Number(ds, if hex then 16 else 10);
      i + 4 <= next && CharRefNumber(s, i, next) == if Utf.XmlChar(n) then n else -1
  {
    hide Number, Digits, Written, Writes;
    var radix := if hex then 16 else 10;
    RefersParts(s, i, next, ds, hex);
    NumberOne(0, radix);
    assert [] + ds == ds;
    DigitsAre(s, if hex then i + 3 else i + 2, next - 1, radix, [], ds);
  }

  /** Where the digits are, and that the third byte tells a hexadecimal reference. */
  lemma RefersParts(s: Text, i: nat, next: nat, ds: seq<nat>, hex: bool)
    requires i <= next <= |s| && Refers(s[i..next], ds, hex)
    ensures
      var start := if hex then i + 3 else i + 2;
      && start < next - 1 && s[i] == 0x26 && s[i + 1] == 0x23 && s[next - 1] == 0x3B && (s[i + 2] == 0x78 <==> hex)
      && Written(s[start..next - 1], ds, if hex then 16 else 10)
  {
    hide Writes;
    var ref, n := s[i..next], if hex then 3 else 2;
    InnerSlice(s, i, next, n, |ref| - 1);
    assert ref[0] == ref[..n][0] && ref[1] == ref[..n][1];
    assert ref[0] == s[i] && ref[1] == s[i + 1] && ref[2] == s[i + 2] && ref[|ref| - 1] == s[next - 1];
    if hex {
      assert ref[2] == ref[..3][2];
    } else {
      assert ref[2..|ref| - 1][0] == ref[2];
      NoX(ref[2], ds[0]);
    }
  }

  lemma NoX(b: Byte, d: nat)
    requires Writes(b, d)
    ensures b != 0x78
  {
  }

  // ------------------------------------------------------------------ the token

  /** The byte classes of digits. */
  lemma DigitClass(enc: Enc, b: Byte) returns (d: nat)
    ensures ByteType(enc, b) == DIGIT ==> d < 10 && Writes(b, d)
    ensures ByteType(enc, b) == HEX ==> d < 16 && Writes(b, d)
    ensures ByteType(enc, b) == SEMI <==> b == 0x3B
  {
    d := if 0x30 <= b <= 0x39 then b - 0x30 else if 0x41 <= b <= 0x46 then b - 0x37
      else if 0x61 <= b <= 0x66 then b - 0x57 else 0;
  }

  lemma ClassOf(enc: Enc, b: Byte, d: nat)
    requires Writes(b, d)
    ensures ByteType(enc, b) == DIGIT || ByteType(enc, b) == HEX
    ensures d < 10 ==> ByteType(enc, b) == DIGIT
  {
  }

  function Place(hex: bool): State { InRef(if hex then CharRefHex else CharRefDec, NoQuote) }

  function Radix(hex: bool): nat { if hex then 16 else 10 }

  /** Digits up to a semicolon make a token. */
  lemma {:induction false} DigitsAccepted(enc: Enc, hex: bool, s: Text, i: nat, semi: nat, end: nat, ds: seq<nat>)
    requires i <= semi < end <= |s| && Written(s[i..semi], ds, Radix(hex)) && s[semi] == 0x3B
    ensures Scan(enc, Place(hex), s, i, end) == Tok(CharRef, semi + 1)
    decreases semi - i
  {
    hide ByteType, Scan, Writes;
    DigitUnfold(enc, hex, s, i, end);
    var d := DigitClass(enc, s[i]);
    if i < semi {
      WrittenFront(s, i, semi, ds, Radix(hex));
      ClassOf(enc, s[i], ds[0]);
      DigitsAccepted(enc, hex, s, i + 1, semi, end, ds[1..]);
    }
  }

  /** And nothing else does. */
  lemma {:induction false} DigitsFound(enc: Enc, hex: bool, s: Text, i: nat, end: nat) returns (ds: seq<nat>)
    requires i <= end <= |s| && Scan(enc, Place(hex), s, i, end).Tok?
    ensures
      var r := Scan(enc, Place(hex), s, i, end);
      r.tok == CharRef && i < r.next && s[r.next - 1] == 0x3B && Written(s[i..r.next - 1], ds, Radix(hex))
    decreases end - i
  {
    hide ByteType, Scan, Writes;
    ScanEmpty(enc, Place(hex), s, i);
    DigitUnfold(enc, hex, s, i, end);
    var d := DigitClass(enc, s[i]);
    ds := [];
    if ByteType(enc, s[i]) != SEMI {
      var rest := DigitsFound(enc, hex, s, i + 1, end);
      var semi := Scan(enc, Place(hex), s, i, end).next - 1;
      ds := [d] + rest;
      assert s[i..semi] == [s[i]] + s[i + 1..semi];
    }
  }

  /** The steps before the digits. */
  lemma HeadUnfold(enc: Enc, s: Text, i: nat, end: nat)
    requires i + 1 < end <= |s| && s[i] == 0x23
    ensures
      var c := ByteType(enc, s[i + 1]);
      Scan(enc, InRef(RefStart, NoQuote), s, i, end) ==
        if s[i + 1] == 0x78 then Scan(enc, InRef(CharRefHex0, NoQuote), s, i + 2, end)
        else if c == DIGIT then Scan(enc, Place(false), s, i + 2, end)
        else Invalid(i + 1)
  {
    hide Scan, Look;
    RefView(enc, s, i, end);
    RefView(enc, s, i + 1, end);
    ScanMove(enc, InRef(RefStart, NoQuote), s, i, end);
    ScanMove(enc, InRef(CharRefStart, NoQuote), s, i + 1, end);
  }

  lemma RefView(enc: Enc, s: Text, i: nat, end: nat)
    requires i < end <= |s|
    ensures Look(enc, s, i, end).b == s[i] && Look(enc, s, i, end).c == ByteType(enc, s[i])
    ensures s[i] == 0x23 ==> Look(enc, s, i, end).c == NUM
  {
    hide TestChar;
  }

  lemma HexUnfold(enc: Enc, s: Text, i: nat, end: nat)
    requires i < end <= |s|
    ensures
      var c := ByteType(enc, s[i]);
      Scan(enc, InRef(CharRefHex0, NoQuote), s, i, end) ==
        if c == DIGIT || c == HEX then Scan(enc, Place(true), s, i + 1, end) else Invalid(i)
  {
    hide Scan, TestChar, ByteType;
    ScanMove(enc, InRef(CharRefHex0, NoQuote), s, i, end);
  }

  /** A reference is a token, whatever follows it. */
  lemma RefAccepted(enc: Enc, s: Text, i: nat, next: nat, end: nat, ds: seq<nat>, hex: bool)
    requires i <= next <= end <= |s| && Refers(s[i..next], ds, hex)
    ensures Scan(enc, InRef(RefStart, NoQuote), s, i + 1, end) == Tok(CharRef, next)
  {
    hide ByteType, Scan, Writes, Refers, Written;
    RefersParts(s, i, next, ds, hex);
    HeadUnfold(enc, s, i + 1, end);
    var start := if hex then i + 3 else i + 2;
    WrittenFront(s, start, next - 1, ds, Radix(hex));
    ClassOf(enc, s[start], ds[0]);
    if hex {
      HexUnfold(enc, s, start, end);
    }
    DigitsAccepted(enc, hex, s, start + 1, next - 1, end, ds[1..]);
  }

  lemma FirstOfRef(enc: Enc, s: Text, i: nat, end: nat)
    requires i < end <= |s|
    ensures
      var t := TestChar(enc, NmstrtChar, s, i, end);
      Scan(enc, InRef(RefStart, NoQuote), s, i, end) ==
        if ByteType(enc, s[i]) == NUM then Scan(enc, InRef(CharRefStart, NoQuote), s, i + 1, end)
        else if t.Fits? then Scan(enc, InRef(RefName, NoQuote), s, i + t.n, end)
        else if t.CutOff? then PartialChar
        else Invalid(i)
  {
    hide Scan, TestChar, ByteType;
    ScanMove(enc, InRef(RefStart, NoQuote), s, i, end);
  }

  lemma NumClass(enc: Enc, b: Byte)
    ensures ByteType(enc, b) == NUM <==> b == 0x23
    ensures ByteType(enc, b) == AMP <==> b == 0x26
  {
  }

  /** A character reference begins with a number sign. */
  lemma RefBegins(enc: Enc, s: Text, i: nat, end: nat)
    requires i < end <= |s|
    requires
      var r := Scan(enc, InRef(RefStart, NoQuote), s, i + 1, end);
      r.Tok? && r.tok == CharRef
    ensures i + 2 < end && s[i + 1] == 0x23
  {
    hide ByteType, Scan, TestChar;
    ScanEmpty(enc, InRef(RefStart, NoQuote), s, end);
    FirstOfRef(enc, s, i + 1, end);
    NumClass(enc, s[i + 1]);
    var t := TestChar(enc, NmstrtChar, s, i + 1, end);
    if t.Fits? {
      ScanKind(enc, InRef(RefName, NoQuote), s, i + 1 + t.n, end);
    }
    ScanEmpty(enc, InRef(CharRefStart, NoQuote), s, end);
  }

  /** The digits of a character reference. */
  lemma NumeralFound(enc: Enc, hex: bool, s: Text, i: nat, end: nat) returns (ds: seq<nat>)
    requires i < end <= |s| && Scan(enc, Place(hex), s, i + 1, end).Tok?
    requires ByteType(enc, s[i]) == DIGIT || (hex && ByteType(enc, s[i]) == HEX)
    ensures ds != [] && i + 1 < Scan(enc, Place(hex), s, i + 1, end).next
    ensures
      var semi := Scan(enc, Place(hex), s, i + 1, end).next - 1;
      s[semi] == 0x3B && Written(s[i..semi], ds, Radix(hex))
  {
    hide ByteType, Scan, Writes, Written;
    var d := DigitClass(enc, s[i]);
    var rest := DigitsFound(enc, hex, s, i + 1, end);
    ds := [d] + rest;
    WrittenCons(s, i, Scan(enc, Place(hex), s, i + 1, end).next - 1, d, rest, Radix(hex));
  }

  /** Every token of a character reference is `&#` or `&#x`, digits, and a semicolon. */
  lemma RefFound(enc: Enc, s: Text, i: nat, end: nat) returns (ds: seq<nat>, hex: bool)
    requires i < end <= |s| && s[i] == 0x26
    requires
      var r := Scan(enc, InRef(RefStart, NoQuote), s, i + 1, end);
      r.Tok? && r.tok == CharRef
    ensures i < Scan(enc, InRef(RefStart, NoQuote), s, i + 1, end).next <= end
    ensures Refers(s[i..Scan(enc, InRef(RefStart, NoQuote), s, i + 1, end).next], ds, hex)
  {
    hide ByteType, Scan, Written, Refers;
    var next := Scan(enc, InRef(RefStart, NoQuote), s, i + 1, end).next;
    RefBegins(enc, s, i, end);
    HeadUnfold(enc, s, i + 1, end);
    hex := s[i + 2] == 0x78;
    var start := if hex then i + 3 else i + 2;
    if hex {
      ScanEmpty(enc, InRef(CharRefHex0, NoQuote), s, end);
      HexUnfold(enc, s, start, end);
    }
    ds := NumeralFound(enc, hex, s, start, end);
    RefersJoined(s, i, next, ds, hex);
  }

  lemma WrittenCons(s: Text, i: nat, semi: nat, d: nat, rest: seq<nat>, radix: nat)
    requires i < semi <= |s| && Writes(s[i], d) && d < radix && Written(s[i + 1..semi], rest, radix)
    ensures Written(s[i..semi], [d] + rest, radix)
  {
    hide Writes;
    assert s[i..semi] == [s[i]] + s[i + 1..semi];
  }

  lemma RefersJoined(s: Text, i: nat, next: nat, ds: seq<nat>, hex: bool)
    requires i + 3 < next <= |s| && s[i] == 0x26 && s[i + 1] == 0x23 && s[next - 1] == 0x3B
    requires (hex ==> s[i + 2] == 0x78)
    requires ds != [] && Written(s[if hex then i + 3 else i + 2..next - 1], ds, Radix(hex))
    ensures Refers(s[i..next], ds, hex)
  {
    hide Writes;
    var n := if hex then 3 else 2;
    InnerSlice(s, i, next, n, next - i - 1);
    assert s[i..next][..n] == if hex then [0x26, 0x23, 0x78] else [0x26, 0x23];
  }

  // ------------------------------------------------------------ what is delivered

  /** In content: a reference is a token, and its character is reported, or it is refused. */
  lemma InContent(env: C.Env, open: set<Text>, lvl: nat, enc: Enc, s: Text, st: C.Parser, next: nat, end: nat,
      ds: seq<nat>, hex: bool)
    requires st.pos <= next <= end <= |s| && Refers(s[st.pos..next], ds, hex)
    ensures ContentTok(enc, s, st.pos, end) == Tok(CharRef, next)
    ensures
      var n := Number(ds, Radix(hex));
      st.pos < next && C.Act(env, open, lvl, enc, s, st, CharRef, next) ==
        if Utf.XmlChar(n) then C.Move(C.Parser(st.stack, C.InContent, next), [C.Data(Utf8Encode(n))])
        else C.Fail(C.BadCharRef)
  {
    hide ByteType, Scan, Writes, Refers, CharRefNumber, Number, Utf8Encode;
    RefersParts(s, st.pos, next, ds, hex);
    NumClass(enc, s[st.pos]);
    RefAccepted(enc, s, st.pos, next, end, ds, hex);
    NumberIs(s, st.pos, next, ds, hex);
  }

  /** And every token of a character reference in content is one of these. */
  lemma InContentOnly(enc: Enc, s: Text, i: nat, end: nat) returns (ds: seq<nat>, hex: bool)
    requires i <= end <= |s| && ContentTok(enc, s, i, end).Tok? && ContentTok(enc, s, i, end).tok == CharRef
    ensures Refers(s[i..ContentTok(enc, s, i, end).next], ds, hex)
  {
    hide ByteType, Scan, Refers, DataTail;
    NumClass(enc, s[i]);
    ScanKind(enc, Lt, s, i + 1, end);
    ds, hex := RefFound(enc, s, i, end);
  }

  /** In an attribute value: its character is part of the replacement, or the value is refused. */
  lemma InValue(env: A.Env, open: set<Text>, enc: Enc, s: Text, i: nat, next: nat, end: nat, ds: seq<nat>, hex: bool)
    requires i <= next <= end <= |s| && Refers(s[i..next], ds, hex)
    ensures A.ValueTokAt(enc, s, i, end) == A.CharRefTo(next)
    ensures
      var n := Number(ds, Radix(hex));
      A.Replace(env, open, enc, s, i, end) ==
        if Utf.XmlChar(n) then A.Append(Utf8Encode(n), A.Replace(env, open, enc, s, next, end))
        else A.Err(A.BadCharRef)
  {
    hide ByteType, Scan, Writes, Refers, CharRefNumber, Number, Utf8Encode, A.PlainEnd;
    RefersParts(s, i, next, ds, hex);
    NumClass(enc, s[i]);
    RefAccepted(enc, s, i, next, end, ds, hex);
    NumberIs(s, i, next, ds, hex);
  }

  lemma InValueOnly(enc: Enc, s: Text, i: nat, end: nat) returns (ds: seq<nat>, hex: bool)
    requires i <= end <= |s| && A.ValueTokAt(enc, s, i, end).CharRefTo?
    ensures Refers(s[i..A.ValueTokAt(enc, s, i, end).next], ds, hex)
  {
    hide ByteType, Scan, Refers, A.PlainEnd;
    NumClass(enc, s[i]);
    ds, hex := RefFound(enc, s, i, end);
  }
}
