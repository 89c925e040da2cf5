/**
  What a tag of the grammar means to storeAtts: it finds the names written in it and, for
  each, the value that section 3.3.3 of XML 1.0 gives to what stands between the quotes.
*/
module TagMeaning {
  import opened Scanner
  import opened Tokenizer
  import opened References
  import opened CharRefs
  import opened TagNames
  import opened Grammar
  import opened Accepted
  import opened CharData
  import Exact
  import Tokens
  import Documents
  import Utf
  import A = AttributeValue
  import T = StartTag
  import X = Attributes
  import L = AttributeLists
  import C = Content

  // ------------------------------------------------------------ values by items

  /** For some internal entities, what their text writes. */
  ghost predicate Given(env: A.Env, bodies: map<Text, seq<Item>>)
  {
    forall name :: name in bodies ==>
      && name in env.entities && env.entities[name].Internal? && ItemsOk(env.intern, 0, bodies[name])
      && env.entities[name].text == ItemsText(bodies[name])
  }

  /** A carriage return whose line feed follows counts together with that. */
  predicate Doubled(enc: Enc, items: seq<Item>)
  {
    !enc.internal && |items| > 1 && items[0] == Plain(0xD) && items[1] == Plain(0xA)
  }

  /** The value of a declared entity. */
  ghost function Inserted(env: A.Env, bodies: map<Text, seq<Item>>, open: set<Text>, name: Text): A.Value
    requires Given(env, bodies) && name in env.entities && name !in open
    decreases Unopened(env.entities, open), 0, 0
  {
    match env.entities[name]
    case Unparsed(_) => A.Err(A.BinaryRef)
    case External(_) => A.Err(A.ExternalRef)
    case Internal(text, _) =>
      OpenOne(env.entities, open, name);
      if name in bodies then Meant(env, bodies, open + {name}, env.intern, bodies[name])
      else A.Replace(env, open + {name}, env.intern, text, 0, |text|)
  }

  ghost function Named(env: A.Env, bodies: map<Text, seq<Item>>, open: set<Text>, name: Text): A.Value
    requires Given(env, bodies)
    decreases Unopened(env.entities, open), 0, 1
  {
    if Documents.Builtin(name) != "" then A.Val([Documents.Builtin(name)[0] as int])
    else if name !in env.entities then (if env.checkDecl then A.Err(A.UndefinedEntity) else A.Val([]))
    else if env.checkDecl && !env.entities[name].inside then A.Err(A.DeclaredInPe)
    else if name in open then A.Err(A.RecursiveRef)
    else Inserted(env, bodies, open, name)
  }

  /** What one item contributes. */
  ghost function One(env: A.Env, bodies: map<Text, seq<Item>>, open: set<Text>, item: Item): A.Value
    requires Given(env, bodies)
    decreases Unopened(env.entities, open), 0, 2
  {
    match item
    case Plain(c) => A.Val(if BlankCode(c) then [0x20] else Utf8Encode(c))
    case ByNumber(_, ds, hex) =>
      var n := Number(ds, Radix(hex));
      if Utf.XmlChar(n) then A.Val(Utf8Encode(n)) else A.Err(A.BadCharRef)
    case ByName(name) => Named(env, bodies, open, name)
  }

  predicate BlankCode(c: int) { c == 0x20 || c == 0x9 || c == 0xA || c == 0xD }

  /** The value of the items: every line end and other blank a space, every reference what it stands for. */
  ghost function Meant(env: A.Env, bodies: map<Text, seq<Item>>, open: set<Text>, enc: Enc, items: seq<Item>): A.Value
    requires Given(env, bodies)
    decreases Unopened(env.entities, open), |items|, 3
  {
    if items == [] then A.Val([])
    else if Doubled(enc, items) then Meant(env, bodies, open, enc, items[1..])
    else
      var v := One(env, bodies, open, items[0]);
      if v.Err? then v else A.Append(v.bytes, Meant(env, bodies, open, enc, items[1..]))
  }

  // --------------------------------------------------------- values where they stand

  /** The items stand from `i` to `end`, which is where the value ends. */
  predicate Here(enc: Enc, quote: Byte, s: Text, i: nat, items: seq<Item>, end: nat)
  {
    ItemsOk(enc, quote, items) && At(s, i, ItemsText(items)) && i + |ItemsText(items)| == end
  }

  lemma HereRest(enc: Enc, quote: Byte, s: Text, i: nat, items: seq<Item>, end: nat)
    requires Here(enc, quote, s, i, items, end)
    ensures i <= end <= |s| && (items == [] ==> i == end)
    ensures items != [] ==>
      var n := i + |ItemText(items[0])|;
      ItemOk(enc, quote, items[0]) && At(s, i, ItemText(items[0])) && n <= end &&
        Here(enc, quote, s, n, items[1..], end)
  {
    hide ItemOk, ItemText;
    if items != [] { AtParts(s, i, ItemText(items[0]), ItemsText(items[1..])); }
  }

  /** A character of a value, as attributeValueTok sees it. */
  lemma PlainView(enc: Enc, quote: Byte, s: Text, i: nat, item: Item, end: nat)
    requires item.Plain? && ItemOk(enc, quote, item) && At(s, i, ItemText(item)) && i + |ItemText(item)| <= end <= |s|
    ensures i < end && CharLen(enc, s[i]) == |ItemText(item)| && ByteType(enc, s[i]) !in {AMP, LT}
    ensures IsSpace(ByteType(enc, s[i])) <==> BlankCode(item.c)
    ensures BlankCode(item.c) ==> s[i] == item.c && |ItemText(item)| == 1
    ensures if item.c < 0x80 then s[i] == item.c else s[i] >= 0xC0
  {
    hide ByteType, Utf8Encode, TestChar, At;
    CharView(enc, s, i, item.c, end);
    AsciiChar(enc, item.c);
    FirstByte(item.c);
    if item.c >= 0x80 {
      HighByte(enc, s[i]);
      LongChar(enc, item.c);
    }
    ClassBytes(enc, s[i]);
  }

  /** attributeValueTok at a reference. */
  lemma RefAt(enc: Enc, s: Text, i: nat, item: Item, end: nat)
    requires RefOk(enc, item) && At(s, i, ItemText(item)) && i + |ItemText(item)| <= end <= |s|
    ensures
      var n := i + |ItemText(item)|;
      A.ValueTokAt(enc, s, i, end) == if item.ByNumber? then A.CharRefTo(n) else A.EntityRefTo(n)
  {
    hide Scan, A.PlainEnd, RefOk, ItemText, At;
    RefScan(enc, s, i, item, end);
    Tokens.LastClass(enc, s[i]);
  }

  lemma BlankAt(enc: Enc, s: Text, i: nat, end: nat)
    requires i < end <= |s| && IsSpace(ByteType(enc, s[i]))
    ensures A.ValueTokAt(enc, s, i, end) ==
      A.BlankTo(if s[i] == 0xD && !enc.internal && i + 1 < end && s[i + 1] == 0xA then i + 2 else i + 1)
  {
    hide Scan, A.PlainEnd;
  }

  /** Nothing in the items is refused by attributeValueTok. */
  lemma {:induction false} NoFault(enc: Enc, quote: Byte, s: Text, i: nat, items: seq<Item>, end: nat)
    requires Here(enc, quote, s, i, items, end)
    ensures i <= end <= |s| && !A.ValueTokAt(enc, s, i, end).Malformed? && !A.ValueTokAt(enc, s, i, end).Unexpected?
    decreases |items|
  {
    hide A.ValueTokAt, Here, ItemText, ByteType, CharLen, RefOk;
    HereRest(enc, quote, s, i, items, end);
    if items == [] {
      NothingAt(enc, s, i, end);
    } else if items[0].Plain? {
      PlainView(enc, quote, s, i, items[0], end);
      NoFault(enc, quote, s, i + |ItemText(items[0])|, items[1..], end);
      if IsSpace(ByteType(enc, s[i])) {
        BlankAt(enc, s, i, end);
      } else {
        T.PlainStep(enc, s, i, end);
      }
    } else {
      RefAt(enc, s, i, items[0], end);
    }
  }

  lemma NothingAt(enc: Enc, s: Text, i: nat, end: nat)
    requires i == end <= |s|
    ensures A.ValueTokAt(enc, s, i, end) == A.Nothing
  {
    hide A.PlainEnd, Scan;
  }

  lemma AppendTwice(a: Text, b: Text, v: A.Value)
    ensures A.Append(a, A.Append(b, v)) == A.Append(a + b, v)
    ensures A.Append([], v) == v
  {
    if v.Val? {
      assert a + (b + v.bytes) == (a + b) + v.bytes && [] + v.bytes == v.bytes;
    }
  }

  /** Phase one, one plain character at a time. */
  lemma PlainReplaced(env: A.Env, open: set<Text>, enc: Enc, s: Text, i: nat, end: nat)
    requires i < end <= |s|
    requires ByteType(enc, s[i]) !in {AMP, LT} && !IsSpace(ByteType(enc, s[i])) && i + CharLen(enc, s[i]) <= end
    requires !A.ValueTokAt(enc, s, i + CharLen(enc, s[i]), end).Malformed?
    ensures
      var n := i + CharLen(enc, s[i]);
      A.Replace(env, open, enc, s, i, end) == A.Append(s[i..n], A.Replace(env, open, enc, s, n, end))
  {
    hide A.ValueTokAt, ByteType, CharLen, A.Referenced, CharRefNumber;
    T.PlainStep(enc, s, i, end);
    var n := i + CharLen(enc, s[i]);
    var t := A.ValueTokAt(enc, s, n, end);
    ReplaceData(env, open, enc, s, i, end);
    if t.DataTo? {
      ReplaceData(env, open, enc, s, n, end);
      AppendTwice(s[i..n], s[n..t.next], A.Replace(env, open, enc, s, t.next, end));
      assert s[i..n] + s[n..t.next] == s[i..t.next];
    }
  }

  lemma ReplaceData(env: A.Env, open: set<Text>, enc: Enc, s: Text, i: nat, end: nat)
    requires i <= end <= |s| && A.ValueTokAt(enc, s, i, end).DataTo?
    ensures
      var next := A.ValueTokAt(enc, s, i, end).next;
      A.Replace(env, open, enc, s, i, end) == A.Append(s[i..next], A.Replace(env, open, enc, s, next, end))
  {
    hide A.ValueTokAt, A.Referenced, CharRefNumber;
  }

  lemma ReplaceBlank(env: A.Env, open: set<Text>, enc: Enc, s: Text, i: nat, end: nat)
    requires i <= end <= |s| && A.ValueTokAt(enc, s, i, end).BlankTo?
    ensures
      var next := A.ValueTokAt(enc, s, i, end).next;
      A.Replace(env, open, enc, s, i, end) == A.Append([0x20], A.Replace(env, open, enc, s, next, end))
  {
    hide A.ValueTokAt, A.Referenced, CharRefNumber;
  }

  lemma ReplaceEntity(env: A.Env, open: set<Text>, enc: Enc, s: Text, i: nat, end: nat)
    requires i <= end <= |s| && A.ValueTokAt(enc, s, i, end).EntityRefTo?
    ensures
      var next := A.ValueTokAt(enc, s, i, end).next;
      var r := A.Referenced(env, open, s, i, next);
      A.Replace(env, open, enc, s, i, end) ==
        if r.Err? then r else A.Append(r.bytes, A.Replace(env, open, enc, s, next, end))
  {
    hide A.ValueTokAt, A.Referenced, CharRefNumber;
  }

  // ------------------------------------------------------------- the theorem

  lemma InsertedMeans(env: A.Env, bodies: map<Text, seq<Item>>, open: set<Text>, name: Text)
    requires Given(env, bodies) && name in env.entities && name !in open
    ensures Inserted(env, bodies, open, name) ==
      match env.entities[name]
      case Unparsed(_) => A.Err(A.BinaryRef)
      case External(_) => A.Err(A.ExternalRef)
      case Internal(text, _) => A.Replace(env, open + {name}, env.intern, text, 0, |text|)
    decreases Unopened(env.entities, open), 0, 0
  {
    hide A.Replace, Meant, ItemsText, ItemsOk;
    if name in bodies {
      OpenOne(env.entities, open, name);
      var text := env.entities[name].text;
      assert text[0..|text|] == text;
      ReplaceMeans(env, bodies, open + {name}, env.intern, 0, text, 0, bodies[name], |text|);
    }
  }

  /** A reference to an entity. */
  lemma NamedMeans(env: A.Env, bodies: map<Text, seq<Item>>, open: set<Text>, s: Text, i: nat, next: nat, name: Text)
    requires Given(env, bodies) && i < next <= |s| && A.NameOf(s, i, next) == name
    ensures A.Referenced(env, open, s, i, next) == Named(env, bodies, open, name)
    decreases Unopened(env.entities, open), 0, 1
  {
    hide A.Replace, Inserted, Predefined, Documents.Builtin, Documents.Spells, A.NameOf, Given;
    Documents.BuiltinIs(name);
    if Documents.Builtin(name) != "" {
      Documents.OneByte(name);
    } else if name in env.entities && name !in open {
      InsertedMeans(env, bodies, open, name);
    }
  }

  lemma MeantStep(env: A.Env, bodies: map<Text, seq<Item>>, open: set<Text>, enc: Enc, items: seq<Item>)
    requires Given(env, bodies)
    ensures items == [] ==> Meant(env, bodies, open, enc, items) == A.Val([])
    ensures items != [] && Doubled(enc, items) ==>
      Meant(env, bodies, open, enc, items) == Meant(env, bodies, open, enc, items[1..])
    ensures items != [] && !Doubled(enc, items) ==>
      var v := One(env, bodies, open, items[0]);
      Meant(env, bodies, open, enc, items) ==
        if v.Err? then v else A.Append(v.bytes, Meant(env, bodies, open, enc, items[1..]))
  {
    hide One, Given, Doubled;
  }

  /** The next item begins with this byte exactly if it is that character. */
  lemma NextItem(enc: Enc, quote: Byte, s: Text, i: nat, items: seq<Item>, end: nat, b: Byte)
    requires Here(enc, quote, s, i, items, end) && b < 0x80 && b != 0x26
    ensures end <= |s| && i <= end && (i < end && s[i] == b <==> items != [] && items[0] == Plain(b))
  {
    hide Here, ItemText, ByteType, RefOk;
    HereRest(enc, quote, s, i, items, end);
    if items != [] {
      if items[0].Plain? {
        PlainView(enc, quote, s, i, items[0], end);
      } else {
        RefScan(enc, s, i, items[0], end);
      }
    }
  }

  /** Phase one of the value is what its items mean. */
  lemma {:induction false} ReplaceMeans(env: A.Env, bodies: map<Text, seq<Item>>, open: set<Text>, enc: Enc,
      quote: Byte, s: Text, i: nat, items: seq<Item>, end: nat)
    requires Given(env, bodies) && Here(enc, quote, s, i, items, end)
    ensures i <= end <= |s| && A.Replace(env, open, enc, s, i, end) == Meant(env, bodies, open, enc, items)
    decreases Unopened(env.entities, open), |items|, 4
  {
    hide Here, A.Replace, Meant, One, Given, ItemText, RefOk;
    HereRest(enc, quote, s, i, items, end);
    MeantStep(env, bodies, open, enc, items);
    if items == [] {
      NothingAt(enc, s, i, end);
      EmptyValue(env, open, enc, s, i, end);
    } else if items[0].Plain? {
      PlainMeans(env, bodies, open, enc, quote, s, i, items, end);
    } else {
      RefMeans(env, bodies, open, enc, quote, s, i, items, end);
    }
  }

  lemma EmptyValue(env: A.Env, open: set<Text>, enc: Enc, s: Text, i: nat, end: nat)
    requires i <= end <= |s| && A.ValueTokAt(enc, s, i, end).Nothing?
    ensures A.Replace(env, open, enc, s, i, end) == A.Val([])
  {
    hide A.ValueTokAt, A.Referenced, CharRefNumber;
  }

  lemma PlainMeans(env: A.Env, bodies: map<Text, seq<Item>>, open: set<Text>, enc: Enc, quote: Byte, s: Text, i: nat,
      items: seq<Item>, end: nat)
    requires Given(env, bodies) && Here(enc, quote, s, i, items, end) && items != [] && items[0].Plain?
    ensures i <= end <= |s| && A.Replace(env, open, enc, s, i, end) == Meant(env, bodies, open, enc, items)
    decreases Unopened(env.entities, open), |items|, 3
  {
    hide Here, A.Replace, Meant, Given, ItemText, RefOk, ByteType, CharLen, Named, ItemOk, BlankCode, Doubled, One;
    hide A.Append;
    hide At;
    HereRest(enc, quote, s, i, items, end);
    var n := i + |ItemText(items[0])|;
    ReplaceMeans(env, bodies, open, enc, quote, s, n, items[1..], end);
    if Doubled(enc, items) {
      DoubleMeans(env, bodies, open, enc, quote, s, i, items, end);
    } else {
      MeantStep(env, bodies, open, enc, items);
      OnePlain(env, bodies, open, items[0]);
      if BlankCode(items[0].c) {
        BlankMeans(env, open, enc, quote, s, i, items, end);
      } else {
        LetterMeans(env, open, enc, quote, s, i, items, end);
      }
    }
  }

  lemma OnePlain(env: A.Env, bodies: map<Text, seq<Item>>, open: set<Text>, item: Item)
    requires Given(env, bodies) && item.Plain?
    ensures One(env, bodies, open, item) == A.Val(if BlankCode(item.c) then [0x20] else ItemText(item))
  {
    hide Given, Utf8Encode, Named;
  }

  /** A character that is no blank. */
  lemma LetterMeans(env: A.Env, open: set<Text>, enc: Enc, quote: Byte, s: Text, i: nat, items: seq<Item>, end: nat)
    requires Here(enc, quote, s, i, items, end) && items != [] && items[0].Plain? && !BlankCode(items[0].c)
    ensures i + |ItemText(items[0])| <= end <= |s| && A.Replace(env, open, enc, s, i, end) ==
      A.Append(ItemText(items[0]), A.Replace(env, open, enc, s, i + |ItemText(items[0])|, end))
  {
    hide Here, A.Replace, ItemText, ByteType, CharLen, A.ValueTokAt, ItemOk, BlankCode, A.Append, At;
    HereRest(enc, quote, s, i, items, end);
    PlainView(enc, quote, s, i, items[0], end);
    NoFault(enc, quote, s, i + |ItemText(items[0])|, items[1..], end);
    PlainReplaced(env, open, enc, s, i, end);
    AtIs(s, i, ItemText(items[0]));
  }

  /** A blank that does not count together with the next one. */
  lemma BlankMeans(env: A.Env, open: set<Text>, enc: Enc, quote: Byte, s: Text, i: nat, items: seq<Item>, end: nat)
    requires Here(enc, quote, s, i, items, end) && items != [] && items[0].Plain? && BlankCode(items[0].c)
    requires !Doubled(enc, items)
    ensures i + |ItemText(items[0])| <= end <= |s| && A.Replace(env, open, enc, s, i, end) ==
      A.Append([0x20], A.Replace(env, open, enc, s, i + |ItemText(items[0])|, end))
  {
    hide Here, A.Replace, ItemText, ByteType, CharLen, A.ValueTokAt, ItemOk, BlankCode, A.Append, At;
    HereRest(enc, quote, s, i, items, end);
    PlainView(enc, quote, s, i, items[0], end);
    BlankAt(enc, s, i, end);
    NextItem(enc, quote, s, i + 1, items[1..], end, 0xA);
    ReplaceBlank(env, open, enc, s, i, end);
  }

  /** A carriage return and a line feed are one space. */
  lemma DoubleMeans(env: A.Env, bodies: map<Text, seq<Item>>, open: set<Text>, enc: Enc, quote: Byte, s: Text, i: nat,
      items: seq<Item>, end: nat)
    requires Given(env, bodies) && Here(enc, quote, s, i, items, end) && Doubled(enc, items)
    ensures i <= end <= |s| && A.Replace(env, open, enc, s, i, end) == Meant(env, bodies, open, enc, items)
    decreases Unopened(env.entities, open), |items|, 0
  {
    hide Here, A.Replace, Meant, Given, ItemText, RefOk, ByteType, CharLen, A.ValueTokAt, ItemOk;
    HereRest(enc, quote, s, i, items, end);
    PlainView(enc, quote, s, i, items[0], end);
    HereRest(enc, quote, s, i + 1, items[1..], end);
    PlainView(enc, quote, s, i + 1, items[1], end);
    BlankAt(enc, s, i, end);
    ReplaceBlank(env, open, enc, s, i, end);
    ReplaceMeans(env, bodies, open, enc, quote, s, i + 2, items[1..][1..], end);
    MeantStep(env, bodies, open, enc, items);
    MeantStep(env, bodies, open, enc, items[1..]);
  }

  lemma RefMeans(env: A.Env, bodies: map<Text, seq<Item>>, open: set<Text>, enc: Enc, quote: Byte, s: Text, i: nat,
      items: seq<Item>, end: nat)
    requires Given(env, bodies) && Here(enc, quote, s, i, items, end) && items != [] && !items[0].Plain?
    ensures i <= end <= |s| && A.Replace(env, open, enc, s, i, end) == Meant(env, bodies, open, enc, items)
    decreases Unopened(env.entities, open), |items|, 2
  {
    hide Here, A.Replace, Meant, Given, RefOk, One, A.Append, At, ItemText, Doubled;
    HereRest(enc, quote, s, i, items, end);
    MeantStep(env, bodies, open, enc, items);
    NotDoubled(enc, items);
    ReplaceMeans(env, bodies, open, enc, quote, s, i + |ItemText(items[0])|, items[1..], end);
    RefIsOk(enc, quote, items[0]);
    if items[0].ByNumber? {
      NumberMeans(env, bodies, open, enc, s, i, items[0], end);
    } else {
      EntityMeans(env, bodies, open, enc, s, i, items[0], end);
    }
  }

  lemma RefIsOk(enc: Enc, quote: Byte, item: Item)
    requires ItemOk(enc, quote, item) && !item.Plain?
    ensures RefOk(enc, item)
  {
  }

  lemma NotDoubled(enc: Enc, items: seq<Item>)
    requires items != [] && !items[0].Plain?
    ensures !Doubled(enc, items)
  {
  }

  /** A reference by number, before the rest of a value. */
  lemma NumberMeans(env: A.Env, bodies: map<Text, seq<Item>>, open: set<Text>, enc: Enc, s: Text, i: nat, item: Item,
      end: nat)
    requires Given(env, bodies) && item.ByNumber? && RefOk(enc, item) && At(s, i, ItemText(item))
    requires i + |ItemText(item)| <= end <= |s|
    ensures
      var v, n := One(env, bodies, open, item), i + |ItemText(item)|;
      A.Replace(env, open, enc, s, i, end) ==
        if v.Err? then v else A.Append(v.bytes, A.Replace(env, open, enc, s, n, end))
  {
    hide A.Replace, Given, Named, Number, CharRefs.Written, Utf8Encode, Utf.XmlChar, RefOk, ItemText, At, A.Append;
    Documents.NumberRefers(enc, item);
    AtIs(s, i, ItemText(item));
    InValue(env, open, enc, s, i, i + |ItemText(item)|, end, item.ds, item.hex);
  }

  /** A reference by name, before the rest of a value. */
  lemma EntityMeans(env: A.Env, bodies: map<Text, seq<Item>>, open: set<Text>, enc: Enc, s: Text, i: nat, item: Item,
      end: nat)
    requires Given(env, bodies) && item.ByName? && RefOk(enc, item) && At(s, i, ItemText(item))
    requires i + |ItemText(item)| <= end <= |s|
    ensures
      var v, n := One(env, bodies, open, item), i + |ItemText(item)|;
      A.Replace(env, open, enc, s, i, end) ==
        if v.Err? then v else A.Append(v.bytes, A.Replace(env, open, enc, s, n, end))
    decreases Unopened(env.entities, open), 0, 2
  {
    hide A.Replace, Given, Named, RefOk, A.ValueTokAt, A.Referenced, ItemText, At, A.Append;
    RefAt(enc, s, i, item, end);
    RefScan(enc, s, i, item, end);
    NameOfItem(s, i, item);
    NamedMeans(env, bodies, open, s, i, i + |ItemText(item)|, item.name);
    ReplaceEntity(env, open, enc, s, i, end);
  }

  lemma NameOfItem(s: Text, i: nat, item: Item)
    requires item.ByName? && At(s, i, ItemText(item))
    ensures A.NameOf(s, i, i + |ItemText(item)|) == item.name
  {
    AtParts(s, i, [0x26] + item.name, [0x3B]);
    AtParts(s, i, [0x26], item.name);
  }

  // -------------------------------------------------------------------- tags

  function AttNames(atts: seq<Att>): seq<Text>
  {
    seq(|atts|, k requires 0 <= k < |atts| => NameText(atts[k].name))
  }

  /** Where an attribute of the tag stands. */
  lemma {:induction false} PlaceAt(s: Text, i: nat, atts: seq<Att>, k: nat) returns (j: nat)
    requires At(s, i, AttsText(atts)) && k < |atts|
    ensures |Places(i, atts)| == |atts| && Places(i, atts)[k] == SpanOf(j, atts[k])
    ensures i <= j && At(s, j, AttText(atts[k])) && j + |AttText(atts[k])| <= i + |AttsText(atts)|
    decreases |atts|
  {
    hide AttText, SpanOf, At;
    AtParts(s, i, AttText(atts[0]), AttsText(atts[1..]));
    var n := i + |AttText(atts[0])|;
    PlacesCount(n, atts[1..]);
    if k == 0 {
      j := i;
    } else {
      j := PlaceAt(s, n, atts[1..], k - 1);
    }
  }

  lemma {:induction false} PlacesCount(i: nat, atts: seq<Att>)
    ensures |Places(i, atts)| == |atts|
    decreases |atts|
  {
    hide AttText, SpanOf;
    if atts != [] { PlacesCount(i + |AttText(atts[0])|, atts[1..]); }
  }

  /** The text is a tag, of its element, with its attributes where they stand. */
  lemma TagIs(enc: Enc, p: Piece)
    requires p.STag? && PieceOk(enc, p)
    ensures
      var text := PieceText(p);
      && X.IsTag(enc, text) && text != [] && X.NameAt(enc, text, 1) == NameText(p.name)
      && X.SpansOf(enc, text) == Places(1 + |NameText(p.name)|, p.atts)
  {
    hide PieceText, NameText, ContentTok, T.Spans, Places, NameOk, AttsOk, C.NameEnd, AttsText, Blanks, ByteType;
    var text := PieceText(p);
    assert text[0..0 + |text|] == text;
    TagFound(enc, text, 0, p, |text|);
    TagParts(text, 0, p);
    Documents.TagNamed(enc, text, 0, p);
    Documents.NameEndFound(enc, text, 1, p.name, |text|);
    Tokens.LastClass(enc, text[0]);
  }

  lemma AtWhole(t: Text)
    ensures At(t, 0, t)
  {
    assert t[0..0 + |t|] == t;
  }

  /** One attribute of the tag: its name, and its value in place. */
  lemma AttIs(enc: Enc, p: Piece, k: nat)
    requires p.STag? && PieceOk(enc, p) && k < |p.atts|
    ensures
      var text, a, sp := PieceText(p), p.atts[k], Places(1 + |NameText(p.name)|, p.atts);
      && |sp| == |p.atts| && X.NameAt(enc, text, sp[k].name) == NameText(a.name)
      && Here(enc, a.quote, text, sp[k].value, a.value, sp[k].valueEnd)
  {
    hide PieceText, NameText, Places, NameOk, C.NameEnd, AttsText, AttText, Blanks, ItemsText, ItemsOk, At, AttsOk;
    hide Documents.Closing;
    var text := PieceText(p);
    AtWhole(text);
    TagParts(text, 0, p);
    var j := PlaceAt(text, 1 + |NameText(p.name)|, p.atts, k);
    AttParts(text, j, p.atts[k]);
    AttOkAt(enc, p.atts, k);
    AttClosing(enc, text, j, p.atts[k]);
    Documents.NameEndFound(enc, text, j + |p.atts[k].gap|, p.atts[k].name, |text|);
  }

  lemma AttOkAt(enc: Enc, atts: seq<Att>, k: nat)
    requires AttsOk(enc, atts) && k < |atts|
    ensures AttOk(enc, atts[k])
  {
    hide AttOk;
  }

  lemma AttClosing(enc: Enc, s: Text, j: nat, a: Att)
    requires AttOk(enc, a) && At(s, j, AttText(a))
    ensures
      var n := j + |a.gap| + |NameText(a.name)|;
      n < |s| && Documents.Closing(s[n])
  {
    hide AttText, NameText, ItemsText, ItemsOk, NameOk, At;
    AttParts(s, j, a);
    var n := j + |a.gap| + |NameText(a.name)|;
    if a.before != [] { AtByte(s, n, a.before, 0); }
  }

  /** Every text that storeAtts takes for a tag is a tag of the grammar. */
  lemma EveryTag(enc: Enc, text: Text) returns (p: Piece)
    requires X.IsTag(enc, text)
    ensures p.STag? && PieceOk(enc, p) && PieceText(p) == text
  {
    hide ContentTok, PieceText, PieceOk, ByteType;
    Tokens.LastClass(enc, text[0]);
    p := Exact.MarkupFrom(enc, text, 0, |text|);
    IsTagPiece(ContentTok(enc, text, 0, |text|), p);
    assert text[0..0 + |PieceText(p)|] == text;
  }

  lemma IsTagPiece(r: Result, p: Piece)
    requires T.IsTag(r)
    ensures Exact.IsPiece(r.tok, p) ==> p.STag?
  {
  }

  /** The text between the quotes, once references are replaced and blanks made spaces. */
  lemma ValueIs(env: A.Env, bodies: map<Text, seq<Item>>, open: set<Text>, enc: Enc, p: Piece, k: nat)
    requires Given(env, bodies) && p.STag? && PieceOk(enc, p) && k < |p.atts|
    ensures
      var text, sp := PieceText(p), Places(1 + |NameText(p.name)|, p.atts);
      && |sp| == |p.atts| && sp[k].value <= sp[k].valueEnd <= |text|
      && A.Replace(env, open, enc, text, sp[k].value, sp[k].valueEnd) == Meant(env, bodies, open, enc, p.atts[k].value)
  {
    hide PieceText, NameText, Places, A.Replace, Meant, Here, Given, PieceOk, X.NameAt;
    AttIs(enc, p, k);
    var sp := Places(1 + |NameText(p.name)|, p.atts)[k];
    ReplaceMeans(env, bodies, open, enc, p.atts[k].quote, PieceText(p), sp.value, p.atts[k].value, sp.valueEnd);
  }

  /** The value of an attribute, for its declared type. */
  ghost function Typed(env: A.Env, bodies: map<Text, seq<Item>>, open: set<Text>, enc: Enc, defaults: seq<X.Default>,
      a: Att):
    A.Value
    requires Given(env, bodies)
  {
    var v := Meant(env, bodies, open, enc, a.value);
    if v.Err? || !L.TokenisedType(defaults, NameText(a.name)) then v else A.Val(A.Tokenised(v.bytes))
  }

  /**
    Of a tag of the grammar that storeAtts does not refuse: its attributes are those written
    in it, in their order, each with the value of what stands between its quotes; then the
    declared defaults that it says nothing of; and it declares the namespaces that it names.
  */
  lemma TagStored(dtd: X.Dtd, bodies: map<Text, seq<Item>>, enc: Enc, open: set<Text>, stack: seq<C.Tag>, p: Piece)
      returns (items: seq<X.Item>, vals: seq<Text>)
    requires Given(dtd.values, bodies) && p.STag? && PieceOk(enc, p)
    requires X.Attributed(dtd, enc, open, stack, PieceText(p)).Atts?
    ensures
      var r, names := X.Attributed(dtd, enc, open, stack, PieceText(p)), AttNames(p.atts);
      var defaults := X.DefaultsOf(dtd, NameText(p.name));
      && |vals| == |p.atts|
      && (forall k :: 0 <= k < |vals| ==> Typed(dtd.values, bodies, open, enc, defaults, p.atts[k]) == A.Val(vals[k]))
      && L.DifferentNames(names) && L.Different(items) && L.InOrder(items, names)
      && L.ItemsAre(names, vals, defaults, items) && L.DeclsAre(names, vals, defaults, r.bindings)
      && r.values == X.Listed(dtd, dtd.inherited + X.Bindings(stack) + r.bindings, items)
  {
    hide PieceText, NameText, Places, A.Replace, Meant, Given, PieceOk, X.NameAt, X.IsTag, X.Attributed, X.SpansOf;
    hide Here;
    hide L.ItemsAre, L.DeclsAre, L.Different, L.DifferentNames, L.InOrder, X.Listed, X.Bindings, L.TokenisedType;
    var text := PieceText(p);
    TagIs(enc, p);
    items, vals := L.WhichAttributes(dtd, enc, open, stack, text);
    var spans, defaults := X.SpansOf(enc, text), X.DefaultsOf(dtd, NameText(p.name));
    PlacesCount(1 + |NameText(p.name)|, p.atts);
    forall k | 0 <= k < |p.atts|
      ensures Typed(dtd.values, bodies, open, enc, defaults, p.atts[k]) == A.Val(vals[k])
      ensures X.NameAt(enc, text, spans[k].name) == NameText(p.atts[k].name)
    {
      AttIs(enc, p, k);
      ValueIs(dtd.values, bodies, open, enc, p, k);
      ValuedIs(dtd, open, enc, text, defaults, spans, vals, k);
    }
    assert L.NamesOf(enc, text, spans) == AttNames(p.atts);
  }

  lemma ValuedIs(dtd: X.Dtd, open: set<Text>, enc: Enc, text: Text, defaults: seq<X.Default>, spans: seq<T.Span>,
      vals: seq<Text>, k: nat)
    requires forall j :: 0 <= j < |spans| ==> X.InText(text, spans[j])
    requires L.AllValued(dtd, open, enc, text, defaults, spans, vals) && k < |spans|
    ensures |vals| == |spans| && L.Valued(dtd, open, enc, text, defaults, spans[k], vals[k])
  {
    hide L.Valued;
  }
}
