/**
  storeAtts as a whole: the attributes of a tag, specified and defaulted, are found,
  normalised, checked for duplicates, sorted into namespace declarations and others, and
  their names and the element's name expanded.

  `Attributed` is defined from what the parts were proved to compute: the tokenizer's
  spans, the two phases of normalisation, the checks and meanings of namespaces, and the
  verdict on expanded names. Store.StoreAtts is the source's function, made of the parts
  themselves. `ParserEnv` is the environment of content runs with this function in it.
*/
module Attributes {
  import opened Scanner
  import opened References
  import A = AttributeValue
  import T = StartTag
  import N = Namespaces
  import X = NsAtts
  import C = Content

  /** DEFAULT_ATTRIBUTE; an attribute may be declared with a type only. */
  datatype Default = Default(name: Text, isCdata: bool, hasValue: bool, value: Text)

  /** What storeAtts looks up: entities, the attributes declared for an element, and how names are expanded. */
  datatype Dtd = Dtd(
    values: A.Env, defaults: map<Text, seq<Default>>, inherited: seq<N.Decl>, separator: Byte, triplets: bool)

  const XML_ERROR_DUPLICATE_ATTRIBUTE: nat := 8
  const XML_ERROR_UNBOUND_PREFIX: nat := 27

  function ValueCode(e: A.Error): nat
  {
    match e
    case InvalidToken => 4
    case UndefinedEntity => 11
    case RecursiveRef => 12
    case BadCharRef => 14
    case BinaryRef => 15
    case ExternalRef => 16
    case UnexpectedState => 23
    case DeclaredInPe => 24
  }

  function NamespaceCode(e: N.Error): nat
  {
    match e
    case NoError => 0
    case UndeclaringPrefix => 28
    case ReservedPrefixXml => 38
    case ReservedPrefixXmlns => 39
    case ReservedNamespaceUri => 40
  }

  // ------------------------------------------------------------------- names

  const COLON_CHAR: Byte := 0x3A

  const INIT_ATTS_SIZE: nat := 16

  function ColonAt(name: Text): (i: nat)
    ensures i <= |name| && COLON_CHAR !in name[..i] && (i < |name| ==> name[i] == COLON_CHAR)
  {
    if name == [] || name[0] == COLON_CHAR then 0
    else
      var i := ColonAt(name[1..]);
      assert name[..i + 1] == [name[0]] + name[1..][..i];
      i + 1
  }

  /** What getAttributeId makes of a name. */
  datatype Kind = Xmlns(declared: N.Prefix) | Prefixed(prefix: Text, local: Text) | Plain

  function KindOf(name: Text): Kind
  {
    if name == N.XMLNS then Xmlns(N.Default)
    else if N.XMLNS + [COLON_CHAR] <= name then Xmlns(N.Prefix(name[|N.XMLNS| + 1..]))
    else
      var i := ColonAt(name);
      if i < |name| then Prefixed(name[..i], name[i + 1..]) else Plain
  }

  /** An attribute is CDATA unless the element's declarations say otherwise. */
  function IsCdata(defaults: seq<Default>, name: Text): bool
  {
    defaults == [] || if defaults[0].name == name then defaults[0].isCdata else IsCdata(defaults[1..], name)
  }

  function DefaultsOf(dtd: Dtd, element: Text): seq<Default>
  {
    if element in dtd.defaults then dtd.defaults[element] else []
  }

  // ---------------------------------------------------------------- gathering

  datatype Item = Item(name: Text, value: Text)

  /** The names met, the attributes to report, and the namespaces declared, so far. */
  datatype Gathered = Gathered(seen: set<Text>, items: seq<Item>, decls: seq<N.Decl>) | Faulty(code: nat)

  const NOTHING := Gathered({}, [], [])

  function AddItem(g: Gathered, name: Text, value: Text): Gathered
    requires g.Gathered?
  {
    var kind := KindOf(name);
    if kind.Xmlns? then
      var d := N.Decl(kind.declared, value);
      if N.Check(d) == N.NoError then g.(decls := g.decls + [d]) else Faulty(NamespaceCode(N.Check(d)))
    else g.(items := g.items + [Item(name, value)])
  }

  function NameAt(enc: Enc, text: Text, i: nat): Text
  {
    if i <= |text| then text[i..C.NameEnd(enc, text, i, |text|)] else []
  }

  /** The value of an attribute by section 3.3.3 of XML 1.0. */
  ghost function ValueOf(dtd: Dtd, open: set<Text>, enc: Enc, text: Text, sp: T.Span, isCdata: bool): A.Value
    requires sp.value <= sp.valueEnd <= |text|
  {
    var v := A.Replace(dtd.values, open, enc, text, sp.value, sp.valueEnd);
    if v.Err? || isCdata then v else A.Val(A.Tokenised(v.bytes))
  }

  /** The tag is one that the tokenizer accepts, and nothing else. */
  ghost predicate IsTag(enc: Enc, text: Text)
  {
    && text != [] && ByteType(enc, text[0]) == LT
    && T.IsTag(ContentTok(enc, text, 0, |text|)) && ContentTok(enc, text, 0, |text|).next == |text|
  }

  ghost function SpansOf(enc: Enc, text: Text): seq<T.Span>
    requires text != []
  {
    T.Spans(enc, Lt, text, 1, |text|, 0, 0)
  }

  ghost predicate InText(text: Text, sp: T.Span) { sp.name <= |text| && sp.value <= sp.valueEnd <= |text| }

  /** One specified attribute. */
  ghost function Specify(dtd: Dtd, open: set<Text>, enc: Enc, text: Text, defaults: seq<Default>, g: Gathered,
      sp: T.Span): Gathered
    requires InText(text, sp)
  {
    var name := NameAt(enc, text, sp.name);
    if g.Faulty? then g
    else if name in g.seen then Faulty(XML_ERROR_DUPLICATE_ATTRIBUTE)
    else
      var v := ValueOf(dtd, open, enc, text, sp, IsCdata(defaults, name));
      if v.Err? then Faulty(ValueCode(v.error)) else AddItem(g.(seen := g.seen + {name}), name, v.bytes)
  }

  ghost function Specified(dtd: Dtd, open: set<Text>, enc: Enc, text: Text, defaults: seq<Default>,
      spans: seq<T.Span>): Gathered
    requires forall k :: 0 <= k < |spans| ==> InText(text, spans[k])
  {
    if spans == [] then NOTHING
    else
      var n := |spans| - 1;
      Specify(dtd, open, enc, text, defaults, Specified(dtd, open, enc, text, defaults, spans[..n]), spans[n])
  }

  /** One declared attribute that may have to be added. */
  function Supply(g: Gathered, d: Default): Gathered
  {
    if g.Faulty? || d.name in g.seen || !d.hasValue then g
    else AddItem(if KindOf(d.name).Xmlns? then g else g.(seen := g.seen + {d.name}), d.name, d.value)
  }

  function Defaulted(g: Gathered, defaults: seq<Default>): Gathered
  {
    if defaults == [] then g else Supply(Defaulted(g, defaults[..|defaults| - 1]), defaults[|defaults| - 1])
  }

  // ---------------------------------------------------------------- expansion

  function BindingOf(dtd: Dtd, decls: seq<N.Decl>, prefix: Text): X.Binding
  {
    match N.Meaning(decls, N.Prefix(prefix))
    case Unbound => X.Unbound
    case Bound(uri) => X.Bound(N.Stored(dtd.separator, uri))
  }

  function Expandable(dtd: Dtd, decls: seq<N.Decl>, kind: Kind): X.Att
    requires kind.Prefixed?
  {
    X.Att(BindingOf(dtd, decls, kind.prefix), kind.local, if dtd.triplets then [dtd.separator] + kind.prefix else [])
  }

  /** The prefixed attributes, in order. */
  function PrefixedAtts(dtd: Dtd, decls: seq<N.Decl>, items: seq<Item>): seq<X.Att>
  {
    if items == [] then []
    else
      var kind := KindOf(items[|items| - 1].name);
      PrefixedAtts(dtd, decls, items[..|items| - 1]) + if kind.Prefixed? then [Expandable(dtd, decls, kind)] else []
  }

  /** The name that the application sees. */
  function Reported(dtd: Dtd, decls: seq<N.Decl>, name: Text): Text
  {
    var kind := KindOf(name);
    if kind.Prefixed? then
      var att := Expandable(dtd, decls, kind);
      if att.binding.Bound? then X.Stored(att) else name
    else name
  }

  /** Names and values in turn. */
  function Listed(dtd: Dtd, decls: seq<N.Decl>, items: seq<Item>): seq<Text>
  {
    if items == [] then []
    else
      var it := items[|items| - 1];
      Listed(dtd, decls, items[..|items| - 1]) + [Reported(dtd, decls, it.name), it.value]
  }

  function Bindings(stack: seq<C.Tag>): seq<N.Decl>
  {
    if stack == [] then [] else Bindings(stack[..|stack| - 1]) + stack[|stack| - 1].bindings
  }

  /** The prefix of the element's name has a meaning. */
  predicate ElementBound(decls: seq<N.Decl>, element: Text)
  {
    var i := ColonAt(element);
    i < |element| ==> N.Meaning(decls, N.Prefix(element[..i])).Bound?
  }

  /** What is left to do once all attributes are gathered; `decls` are in force around the tag. */
  function Finish(dtd: Dtd, decls: seq<N.Decl>, element: Text, g: Gathered): C.Atts
  {
    if g.Faulty? then C.AttsError(g.code)
    else
      var all, atts := decls + g.decls, PrefixedAtts(dtd, decls + g.decls, g.items);
      match X.Judge(atts, |atts|)
      case UnboundPrefix => C.AttsError(XML_ERROR_UNBOUND_PREFIX)
      case DuplicateAttribute => C.AttsError(XML_ERROR_DUPLICATE_ATTRIBUTE)
      case Fine =>
        if !ElementBound(all, element) then C.AttsError(XML_ERROR_UNBOUND_PREFIX)
        else C.Atts(Listed(dtd, all, g.items), g.decls)
  }

  /** storeAtts; a text that is no accepted tag never comes to it. */
  ghost function Attributed(dtd: Dtd, enc: Enc, open: set<Text>, stack: seq<C.Tag>, text: Text): C.Atts
  {
    if !IsTag(enc, text) then C.AttsError(0)
    else
      SpansIn(enc, text);
      var element := NameAt(enc, text, 1);
      var defaults := DefaultsOf(dtd, element);
      Finish(dtd, dtd.inherited + Bindings(stack), element,
             Defaulted(Specified(dtd, open, enc, text, defaults, SpansOf(enc, text)), defaults))
  }

  // --------------------------------------------------------------- the spans

  lemma {:induction false} SpanNames(enc: Enc, st: State, s: Text, i: nat, end: nat, name: nat, value: nat)
    requires i <= end <= |s| && name <= end
    ensures forall k :: 0 <= k < |T.Spans(enc, st, s, i, end, name, value)| ==>
      T.Spans(enc, st, s, i, end, name, value)[k].name <= end
    decreases end - i
  {
    hide StepAt;
    if i < end {
      StepProgress(enc, st, s, i, end);
      var m := StepAt(enc, st, s, i, end);
      if m.Go? {
        SpanNames(enc, m.st, s, i + m.n, end, if T.NameBegins(st, m.st) then i else name,
                  if T.ValueBegins(st, m.st) then i + m.n else value);
      }
    }
  }

  lemma SpansIn(enc: Enc, text: Text)
    requires IsTag(enc, text)
    ensures forall k :: 0 <= k < |SpansOf(enc, text)| ==> InText(text, SpansOf(enc, text)[k])
  {
    hide Scan, T.Spans, ByteType, T.Sound;
    SpanNames(enc, Lt, text, 1, |text|, 0, 0);
    var sp := T.Spans(enc, Lt, text, 1, |text|, 0, 0);
    forall k | 0 <= k < |sp| ensures InText(text, sp[k]) {
      T.TagSoundAt(enc, text, 0, |text|, k);
      SoundIn(enc, text, sp[k]);
    }
  }

  lemma SoundIn(enc: Enc, text: Text, sp: T.Span)
    requires T.Sound(enc, text, |text|, sp)
    ensures sp.value <= sp.valueEnd < |text|
  {
  }

  // ------------------------------------------------------------ the source's code

  lemma ErrorCode(e: N.Error)
    ensures NamespaceCode(e) == 0 <==> e == N.NoError
  {
  }

  class Store {
    const dtd: Dtd
    const builder: A.ValueBuilder
    const scopes: N.Scopes
    const table: X.NsTable
    var atts: array<T.Attribute>

    ghost predicate Tidy()
      reads this, builder, scopes, scopes.book.made, table, table.nsAtts
    {
      builder.env == dtd.values && scopes.separator == dtd.separator && scopes.Valid() && table.Valid()
    }

    constructor (dtd: Dtd, open: set<Text>)
      ensures Tidy() && this.dtd == dtd && builder.open == open && scopes.book.decls == []
      ensures fresh(builder) && fresh(scopes) && fresh(table) && fresh(table.nsAtts) && fresh(atts)
    {
      this.dtd := dtd;
      builder := new A.ValueBuilder(dtd.values, open);
      scopes := new N.Scopes(dtd.separator);
      table := new X.NsTable();
      atts := new T.Attribute[INIT_ATTS_SIZE];
    }

    /** The value of an attribute: copied if it is normalized, stored by storeAttributeValue otherwise. */
    method Value(enc: Enc, text: Text, a: T.Attribute, isCdata: bool, ghost k: nat) returns (code: nat, value: Text)
      requires builder.env == dtd.values && A.WellFormedEntities(dtd.values)
      requires IsTag(enc, text) && k < |SpansOf(enc, text)| && T.Reports(enc, text, SpansOf(enc, text)[k], a)
      modifies builder
      ensures builder.open == old(builder.open)
      ensures
        var v := ValueOf(dtd, old(builder.open), enc, text, SpansOf(enc, text)[k], isCdata);
        if v.Err? then code == ValueCode(v.error) else code == 0 && value == v.bytes
    {
      hide T.Spans, ContentTok, A.Replace, A.Tokenised, A.Clean, A.WellFormedEntities, A.CleanEntities, T.Fit;
      T.FastPath(dtd.values, builder.open, enc, text, 0, |text|, k, a);
      A.EntitiesClean(dtd.values);
      code := 0;
      if a.normalized {
        value := text[a.value..a.valueEnd];
      } else {
        builder.pool := [];
        var status := builder.StoreAttributeValue(enc, isCdata, text, a.value, a.valueEnd);
        value := builder.pool;
        if status.Failed? {
          code := ValueCode(status.error);
        }
      }
    }

    /** Where the value goes: to the bindings or to the list. */
    method Sort(name: Text, value: Text, items: seq<Item>, ghost seen: set<Text>, ghost base: seq<N.Decl>,
        ghost decls: seq<N.Decl>)
      returns (code: nat, items': seq<Item>)
      requires scopes.Valid() && scopes.book.decls == base + decls
      modifies scopes, scopes.book.made
      ensures scopes.Valid() && old(scopes.book.made) <= scopes.book.made
      ensures fresh(scopes.book.made - old(scopes.book.made))
      ensures
        var g := AddItem(Gathered(seen, items, decls), name, value);
        if g.Faulty? then code == g.code != 0
        else code == 0 && items' == g.items && g.seen == seen && scopes.book.decls == base + g.decls
    {
      hide N.Scopes.Valid, N.Check, KindOf;
      var kind := KindOf(name);
      items' := items;
      code := 0;
      if kind.Xmlns? {
        var error := scopes.AddBinding(kind.declared, value);
        ErrorCode(error);
        code := NamespaceCode(error);
        assert (base + decls) + [N.Decl(kind.declared, value)] == base + (decls + [N.Decl(kind.declared, value)]);
      } else {
        items' := items + [Item(name, value)];
      }
    }

    /** Find the attributes, with an array large enough for them and for defaults. */
    method FindAtts(enc: Enc, text: Text, nDefaults: nat) returns (n: nat)
      requires IsTag(enc, text)
      modifies this`atts, atts
      ensures atts == old(atts) || fresh(atts)
      ensures n == |SpansOf(enc, text)| <= atts.Length && T.Reported(enc, text, SpansOf(enc, text), n, atts[..])
    {
      hide T.Spans, ContentTok, T.Reports;
      n := T.GetAtts(enc, text, 0, |text|, atts.Length, atts);
      if n + nDefaults > atts.Length {
        var oldSize := atts.Length;
        var was := atts[..];
        atts := new T.Attribute[n + nDefaults + INIT_ATTS_SIZE](k => if 0 <= k < |was| then was[k]
          else T.Attribute(0, 0, 0, false));
        if n > oldSize {
          n := T.GetAtts(enc, text, 0, |text|, n, atts);
        } else {
          assert forall k :: 0 <= k < n ==> atts[..][k] == was[k];
        }
      }
    }

    /** One attribute of the tag. */
    method TakeOne(
      enc: Enc, text: Text, defaults: seq<Default>, a: T.Attribute, ghost k: nat,
      seen0: set<Text>, items0: seq<Item>, ghost g0: Gathered, ghost base: seq<N.Decl>)
      returns (code: nat, seen: set<Text>, items: seq<Item>, ghost g: Gathered)
      requires Tidy() && A.WellFormedEntities(dtd.values) && IsTag(enc, text)
      requires k < |SpansOf(enc, text)| && T.Reports(enc, text, SpansOf(enc, text)[k], a)
      requires InText(text, SpansOf(enc, text)[k])
      requires g0.Gathered? && Stands(g0, 0, seen0, items0, base)
      modifies builder, scopes, scopes.book.made
      ensures Tidy() && old(scopes.book.made) <= scopes.book.made && fresh(scopes.book.made - old(scopes.book.made))
      ensures builder.open == old(builder.open)
      ensures g == Specify(dtd, old(builder.open), enc, text, defaults, g0, SpansOf(enc, text)[k])
      ensures Stands(g, code, seen, items, base)
    {
      hide T.Spans, A.WellFormedEntities, N.Scopes.Valid, X.NsTable.Valid, ValueOf, AddItem, T.Reports, NameAt, IsTag;
      hide IsCdata;
      TagText(enc, text);
      ghost var sp := SpansOf(enc, text)[k];
      var name := NameAt(enc, text, a.name);
      SpanName(enc, text, sp, a);
      g := Specify(dtd, builder.open, enc, text, defaults, g0, sp);
      code, seen, items := XML_ERROR_DUPLICATE_ATTRIBUTE, seen0, items0;
      if name !in seen {
        seen := seen + {name};
        var value;
        code, value := Value(enc, text, a, IsCdata(defaults, name), k);
        if code == 0 {
          code, items := Sort(name, value, items, seen, base, g0.decls);
        }
      }
    }

    /** The loop over the attributes of the tag. */
    method TakeSpecified(enc: Enc, text: Text, defaults: seq<Default>, n: nat, ghost base: seq<N.Decl>)
      returns (code: nat, seen: set<Text>, items: seq<Item>, ghost g: Gathered)
      requires Tidy() && A.WellFormedEntities(dtd.values) && IsTag(enc, text) && scopes.book.decls == base
      requires n == |SpansOf(enc, text)| <= atts.Length && T.Reported(enc, text, SpansOf(enc, text), n, atts[..])
      modifies builder, scopes, scopes.book.made
      ensures Tidy() && old(scopes.book.made) <= scopes.book.made && fresh(scopes.book.made - old(scopes.book.made))
      ensures builder.open == old(builder.open)
      ensures
        && (forall k :: 0 <= k < n ==> InText(text, SpansOf(enc, text)[k]))
        && g == Specified(dtd, old(builder.open), enc, text, defaults, SpansOf(enc, text))
      ensures Stands(g, code, seen, items, base)
    {
      hide T.Spans, IsTag, A.WellFormedEntities, N.Scopes.Valid, X.NsTable.Valid, Specify, T.Reports;
      TagText(enc, text);
      SpansIn(enc, text);
      ghost var spans, open := SpansOf(enc, text), builder.open;
      code, seen, items, g := 0, {}, [], NOTHING;
      assert spans[..0] == [] && base + [] == base;
      for i := 0 to n
        invariant Tidy() && old(scopes.book.made) <= scopes.book.made && fresh(scopes.book.made - old(scopes.book.made))
        invariant builder.open == open && code == 0
        invariant g == Specified(dtd, open, enc, text, defaults, spans[..i]) && Stands(g, code, seen, items, base)
      {
        assert spans[..i + 1][..i] == spans[..i] && spans[..i + 1][i] == spans[i];
        assert atts[..][i] == atts[i];
        code, seen, items, g := TakeOne(enc, text, defaults, atts[i], i, seen, items, g, base);
        if code != 0 {
          SpecifiedFaulty(dtd, open, enc, text, defaults, spans, i + 1);
          return;
        }
      }
      assert spans[..n] == spans;
    }

    /** Attribute defaulting. */
    method TakeDefaults(defaults: seq<Default>, seen0: set<Text>, items0: seq<Item>, ghost g0: Gathered,
        ghost base: seq<N.Decl>)
      returns (code: nat, items: seq<Item>, ghost g: Gathered)
      requires scopes.Valid() && Stands(g0, 0, seen0, items0, base)
      modifies scopes, scopes.book.made
      ensures scopes.Valid() && old(scopes.book.made) <= scopes.book.made
      ensures fresh(scopes.book.made - old(scopes.book.made))
      ensures g == Defaulted(g0, defaults) && Stands(g, code, if g.Gathered? then g.seen else {}, items, base)
    {
      hide N.Scopes.Valid, AddItem, KindOf;
      code, items, g := 0, items0, g0;
      var seen := seen0;
      assert defaults[..0] == [];
      for i := 0 to |defaults|
        invariant scopes.Valid() && old(scopes.book.made) <= scopes.book.made
        invariant fresh(scopes.book.made - old(scopes.book.made))
        invariant g == Defaulted(g0, defaults[..i]) && Stands(g, code, seen, items, base) && code == 0
      {
        assert defaults[..i + 1][..i] == defaults[..i] && defaults[..i + 1][i] == defaults[i];
        var d := defaults[i];
        ghost var before := g;
        g := Supply(g, d);
        if d.name !in seen && d.hasValue {
          if !KindOf(d.name).Xmlns? {
            seen := seen + {d.name};
          }
          code, items := Sort(d.name, d.value, items, seen, base, before.decls);
          if code != 0 {
            DefaultedFaulty(g0, defaults, i + 1);
            return;
          }
        }
      }
      assert defaults[..|defaults|] == defaults;
    }

    method Expand(kind: Kind) returns (att: X.Att)
      requires scopes.Valid() && scopes.separator == dtd.separator && kind.Prefixed?
      ensures att == Expandable(dtd, scopes.book.decls, kind)
    {
      hide N.Scopes.Valid, N.Meaning;
      var name := scopes.Lookup(N.Prefix(kind.prefix));
      var binding := if name.Bound? then X.Bound(name.uri) else X.Unbound;
      att := X.Att(binding, kind.local, if dtd.triplets then [dtd.separator] + kind.prefix else []);
    }

    /** The names to be checked, and the list for the application. */
    method ListAtts(items: seq<Item>) returns (prefixed: seq<X.Att>, values: seq<Text>)
      requires scopes.Valid() && scopes.separator == dtd.separator
      ensures prefixed == PrefixedAtts(dtd, scopes.book.decls, items) && values == Listed(dtd, scopes.book.decls, items)
    {
      hide N.Scopes.Valid, KindOf, Expandable;
      prefixed, values := [], [];
      ghost var decls := scopes.book.decls;
      assert items[..0] == [];
      for i := 0 to |items|
        invariant prefixed == PrefixedAtts(dtd, decls, items[..i]) && values == Listed(dtd, decls, items[..i])
      {
        assert items[..i + 1][..i] == items[..i] && items[..i + 1][i] == items[i];
        var kind, name := KindOf(items[i].name), items[i].name;
        if kind.Prefixed? {
          var att := Expand(kind);
          prefixed := prefixed + [att];
          if att.binding.Bound? {
            name := X.Stored(att);
          }
        }
        values := values + [name, items[i].value];
      }
      assert items[..|items|] == items;
    }

    /** storeAtts, once the attributes are gathered. */
    method Complete(element: Text, items: seq<Item>, ghost g: Gathered, ghost base: seq<N.Decl>)
        returns (code: nat, values: seq<Text>)
      requires Tidy() && g.Gathered? && g.items == items && scopes.book.decls == base + g.decls
      modifies table, table.nsAtts
      ensures Tidy() && (table.nsAtts == old(table.nsAtts) || fresh(table.nsAtts))
      ensures Finish(dtd, base, element, g) == if code == 0 then C.Atts(values, g.decls) else C.AttsError(code)
    {
      hide N.Scopes.Valid, X.NsTable.Valid, X.Judge, PrefixedAtts, Listed, N.Meaning;
      var prefixed;
      prefixed, values := ListAtts(items);
      var verdict := table.ExpandNames(prefixed);
      if verdict.UnboundPrefix? {
        return XML_ERROR_UNBOUND_PREFIX, values;
      }
      if verdict.DuplicateAttribute? {
        return XML_ERROR_DUPLICATE_ATTRIBUTE, values;
      }
      var i := ColonAt(element);
      if i < |element| {
        var name := scopes.Lookup(N.Prefix(element[..i]));
        if name.Unbound? {
          return XML_ERROR_UNBOUND_PREFIX, values;
        }
      }
      code := 0;
    }

    /** storeAtts, for a tag that the tokenizer accepted; on success its declarations are in force. */
    method StoreAtts(enc: Enc, text: Text, ghost stack: seq<C.Tag>) returns (code: nat, values: seq<Text>)
      requires Tidy() && IsTag(enc, text) && A.WellFormedEntities(dtd.values)
      requires scopes.book.decls == dtd.inherited + Bindings(stack)
      modifies this`atts, atts, builder, scopes, scopes.book.made, table, table.nsAtts
      ensures Tidy() && builder.open == old(builder.open)
      ensures
        var r := Attributed(dtd, enc, old(builder.open), stack, text);
        if r.AttsError? then code == r.code
        else code == 0 && values == r.values && scopes.book.decls == old(scopes.book.decls) + r.bindings
    {
      hide N.Scopes.Valid, X.NsTable.Valid, IsTag, SpansOf, Specified, Defaulted, Finish, A.WellFormedEntities;
      hide T.Reported, NameAt;
      ghost var base := scopes.book.decls;
      TagText(enc, text);
      var element := NameAt(enc, text, 1);
      var defaults := DefaultsOf(dtd, element);
      var n := FindAtts(enc, text, |defaults|);
      var seen, items;
      ghost var g;
      code, seen, items, g := TakeSpecified(enc, text, defaults, n, base);
      values := [];
      if code != 0 {
        NoDefaults(g, defaults);
        DefaultedFaulty(g, defaults, 0);
        FinishFaulty(dtd, base, element, g);
        return;
      }
      code, items, g := TakeDefaults(defaults, seen, items, g, base);
      if code != 0 {
        FinishFaulty(dtd, base, element, g);
        return;
      }
      FinishCode(dtd, base, element, g);
      code, values := Complete(element, items, g, base);
    }

    /** What is gathered is what the variables and the bindings hold. */
    ghost predicate Stands(g: Gathered, code: nat, seen: set<Text>, items: seq<Item>, base: seq<N.Decl>)
      reads scopes
    {
      if g.Faulty? then code == g.code != 0
      else code == 0 && seen == g.seen && items == g.items && scopes.book.decls == base + g.decls
    }
  }

  lemma TagText(enc: Enc, text: Text)
    requires IsTag(enc, text)
    ensures text != []
  {
  }

  lemma {:induction false} DefaultedFaulty(g: Gathered, defaults: seq<Default>, n: nat)
    requires n <= |defaults| && Defaulted(g, defaults[..n]).Faulty?
    ensures Defaulted(g, defaults) == Defaulted(g, defaults[..n])
    decreases |defaults| - n
  {
    hide AddItem;
    if n == |defaults| {
      assert defaults[..n] == defaults;
    } else {
      assert defaults[..n + 1][..n] == defaults[..n];
      DefaultedFaulty(g, defaults, n + 1);
    }
  }

  lemma NoDefaults(g: Gathered, defaults: seq<Default>)
    ensures Defaulted(g, defaults[..0]) == g
  {
  }

  lemma FinishFaulty(dtd: Dtd, decls: seq<N.Decl>, element: Text, g: Gathered)
    requires g.Faulty?
    ensures Finish(dtd, decls, element, g) == C.AttsError(g.code)
  {
  }

  lemma FinishCode(dtd: Dtd, decls: seq<N.Decl>, element: Text, g: Gathered)
    requires g.Gathered?
    ensures
      var r := Finish(dtd, decls, element, g);
      if r.AttsError? then r.code != 0 else r.bindings == g.decls
  {
    hide X.Judge, PrefixedAtts, Listed, ElementBound;
  }

  lemma SpanName(enc: Enc, text: Text, sp: T.Span, a: T.Attribute)
    requires T.Reports(enc, text, sp, a)
    ensures a.name == sp.name
  {
  }

  /** An error stands. */
  lemma {:induction false} SpecifiedFaulty(dtd: Dtd, open: set<Text>, enc: Enc, text: Text, defaults: seq<Default>,
      spans: seq<T.Span>, n: nat)
    requires forall k :: 0 <= k < |spans| ==> InText(text, spans[k])
    requires n <= |spans| && Specified(dtd, open, enc, text, defaults, spans[..n]).Faulty?
    ensures Specified(dtd, open, enc, text, defaults, spans) == Specified(dtd, open, enc, text, defaults, spans[..n])
    decreases |spans| - n
  {
    hide ValueOf, AddItem, NameAt;
    if n == |spans| {
      assert spans[..n] == spans;
    } else {
      assert spans[..n + 1][..n] == spans[..n];
      SpecifiedFaulty(dtd, open, enc, text, defaults, spans, n + 1);
    }
  }

  // -------------------------------------------------------------- in a content run

  /** The text of a tag that contentTok accepts is, alone, an accepted tag. */
  lemma TagSlice(enc: Enc, s: Text, pos: nat, end: nat)
    requires pos < end <= |s| && ByteType(enc, s[pos]) == LT && T.IsTag(ContentTok(enc, s, pos, end))
    ensures IsTag(enc, s[pos..ContentTok(enc, s, pos, end).next])
  {
    hide Scan, ByteType;
    var r := Scan(enc, Lt, s, pos + 1, end);
    var text, pre := s[pos..r.next], s[..pos];
    T.LtShorten(enc, s, pos + 1, end);
    assert pre + text == s[..r.next];
    assert s[..r.next][..r.next] == s[..r.next];
    ScanLocal(enc, Lt, s, pre + text, pos + 1, r.next);
    ScanShift(enc, Lt, pre, text, 1);
  }

  /** The environment of a content run in which storeAtts does what it does. */
  ghost function ParserEnv(env: C.Env, dtd: Dtd): C.Env
  {
    env.(intern := dtd.values.intern, entities := dtd.values.entities,
         storeAtts := (enc, open, stack, text) => Attributed(dtd, enc, open, stack, text))
  }

  lemma AddItemCode(g: Gathered, name: Text, value: Text)
    requires g.Gathered?
    ensures AddItem(g, name, value).Faulty? ==> AddItem(g, name, value).code != 0
  {
    hide N.Check, KindOf;
  }

  lemma {:induction false} SpecifiedCode(dtd: Dtd, open: set<Text>, enc: Enc, text: Text, defaults: seq<Default>,
      spans: seq<T.Span>)
    requires forall k :: 0 <= k < |spans| ==> InText(text, spans[k])
    ensures
      var g := Specified(dtd, open, enc, text, defaults, spans);
      g.Faulty? ==> g.code != 0
  {
    hide ValueOf, AddItem, NameAt;
    if spans != [] {
      var n := |spans| - 1;
      SpecifiedCode(dtd, open, enc, text, defaults, spans[..n]);
      var g, name := Specified(dtd, open, enc, text, defaults, spans[..n]), NameAt(enc, text, spans[n].name);
      if g.Gathered? {
        var v := ValueOf(dtd, open, enc, text, spans[n], IsCdata(defaults, name));
        if v.Val? { AddItemCode(g.(seen := g.seen + {name}), name, v.bytes); }
      }
    }
  }

  lemma {:induction false} DefaultedCode(g: Gathered, defaults: seq<Default>)
    requires g.Faulty? ==> g.code != 0
    ensures Defaulted(g, defaults).Faulty? ==> Defaulted(g, defaults).code != 0
  {
    hide AddItem, KindOf;
    if defaults != [] {
      DefaultedCode(g, defaults[..|defaults| - 1]);
      var before, d := Defaulted(g, defaults[..|defaults| - 1]), defaults[|defaults| - 1];
      if before.Gathered? {
        AddItemCode(if KindOf(d.name).Xmlns? then before else before.(seen := before.seen + {d.name}), d.name, d.value);
      }
    }
  }

  /**
    In a content run storeAtts is only asked about accepted tags, and refuses one only for a
    reason of the source's.
  */
  lemma TagsStored(env: C.Env, dtd: Dtd, enc: Enc, open: set<Text>, stack: seq<C.Tag>, s: Text, pos: nat, end: nat)
    requires pos < end <= |s| && ByteType(enc, s[pos]) == LT && T.IsTag(ContentTok(enc, s, pos, end))
    ensures
      var text := s[pos..ContentTok(enc, s, pos, end).next];
      && IsTag(enc, text)
      && var r := ParserEnv(env, dtd).storeAtts(enc, open, stack, text);
         r == Attributed(dtd, enc, open, stack, text) && (r.AttsError? ==> r.code != 0)
  {
    hide ContentTok, IsTag, Specified, Defaulted, Finish, NameAt, SpansOf, ByteType;
    TagSlice(enc, s, pos, end);
    var text := s[pos..ContentTok(enc, s, pos, end).next];
    TagText(enc, text);
    SpansIn(enc, text);
    var element := NameAt(enc, text, 1);
    var defaults := DefaultsOf(dtd, element);
    SpecifiedCode(dtd, open, enc, text, defaults, SpansOf(enc, text));
    var g0 := Specified(dtd, open, enc, text, defaults, SpansOf(enc, text));
    DefaultedCode(g0, defaults);
    var g, decls := Defaulted(g0, defaults), dtd.inherited + Bindings(stack);
    if g.Faulty? {
      FinishFaulty(dtd, decls, element, g);
    } else {
      FinishCode(dtd, decls, element, g);
    }
  }

  // ------------------------------------------------------------- what is reported

  /** Two prefixed attributes of a tag that is accepted have different expanded names. */
  lemma ExpandedDiffer(dtd: Dtd, decls: seq<N.Decl>, element: Text, g: Gathered, j: nat, k: nat)
    requires Finish(dtd, decls, element, g).Atts?
    requires
      var atts := PrefixedAtts(dtd, decls + g.decls, g.items);
      j < k < |atts|
    ensures
      var atts := PrefixedAtts(dtd, decls + g.decls, g.items);
      atts[j].binding.Bound? && atts[k].binding.Bound? && X.Name(atts[j]) != X.Name(atts[k])
  {
    hide X.Judge, PrefixedAtts, X.Name, Listed;
    var atts := PrefixedAtts(dtd, decls + g.decls, g.items);
    X.JudgeFine(atts, |atts|, j);
    X.JudgeFine(atts, |atts|, k);
    if X.Name(atts[j]) == X.Name(atts[k]) {
      X.EqualNamesRejected(atts, j, k);
    }
  }
}
