/**
  dtdCopy and copyEntityTable: the DTD of a parser for an external entity is a deep copy
  of its parent's. Tables refer to each other by pointer, so the order of copying matters:
  a prefix or attribute id that an entry points at has to be in the new table already.

  `Mirrors` says what a deep copy is: equal contents, every pointer leading to the entry of
  the new DTD that stands where the old one's target stood, and nothing bound or open. A
  table is the finite map that HashTable.Table was proved to be.
*/
module DtdCopies {
  import opened Scanner
  import opened Orders
  import N = Namespaces
  import X = Context
  import A = Attributes
  import V = AttributeValue
  import R = References
  import C = Content

  datatype Optional<T> = None | Some(value: T)

  /** PREFIX */
  class PrefixEntry {
    const name: Text
    var binding: Optional<Text>

    constructor (name: Text)
      ensures this.name == name && binding == None
    {
      this.name, binding := name, None;
    }
  }

  /** ATTRIBUTE_ID */
  class AttributeId {
    const name: Text
    var prefix: PrefixEntry?
    var maybeTokenized: bool
    var xmlns: bool

    constructor (name: Text)
      ensures this.name == name && prefix == null && !maybeTokenized && !xmlns
    {
      this.name, prefix, maybeTokenized, xmlns := name, null, false, false;
    }
  }

  /** DEFAULT_ATTRIBUTE */
  datatype DefaultAttribute = DefaultAttribute(id: AttributeId, isCdata: bool, value: Optional<Text>)

  /** ELEMENT_TYPE */
  class ElementType {
    const name: Text
    var prefix: PrefixEntry?
    var idAtt: AttributeId?
    var defaultAtts: seq<DefaultAttribute>

    constructor (name: Text)
      ensures this.name == name && prefix == null && idAtt == null && defaultAtts == []
    {
      this.name, prefix, idAtt, defaultAtts := name, null, null, [];
    }
  }

  /** What an entity declaration says: where its text is, or the text. */
  datatype Source = External(systemId: Text, base: Optional<Text>, publicId: Optional<Text>) | Internal(text: Text)

  /** ENTITY */
  class EntityEntry {
    const name: Text
    var source: Source
    var notation: Optional<Text>
    var isParam: bool
    var isInternal: bool
    var open: bool

    constructor (name: Text)
      ensures this.name == name && source == Internal([]) && notation == None && !isParam && !isInternal && !open
    {
      this.name, source, notation, isParam, isInternal, open := name, Internal([]), None, false, false, false;
    }
  }

  type PrefixTable = map<Text, PrefixEntry>

  type AttributeTable = map<Text, AttributeId>

  type ElementTable = map<Text, ElementType>

  type EntityTable = map<Text, EntityEntry>

  /** Where the prefix pointers of one DTD lead. */
  datatype Prefixes = Prefixes(default: PrefixEntry, table: PrefixTable)

  // ------------------------------------------------------------- closed tables

  /** The pointer leads to an entry of the DTD, or, if allowed, to the default prefix. */
  ghost predicate Held(d: Prefixes, p: PrefixEntry?, orDefault: bool)
  {
    || p == null || (orDefault && p == d.default)
    || (p != d.default && p.name in d.table && p == d.table[p.name])
  }

  ghost predicate HeldId(ids: AttributeTable, a: AttributeId?)
  {
    a == null || (a.name in ids && a == ids[a.name])
  }

  /** getAttributeId marks a declaration only after it has found its prefix. */
  ghost predicate ClosedAttribute(d: Prefixes, a: AttributeId)
    reads a
  {
    Held(d, a.prefix, true) && (a.xmlns ==> a.prefix != null)
  }

  ghost predicate ClosedElement(d: Prefixes, ids: AttributeTable, s: ElementType)
    reads s
  {
    && Held(d, s.prefix, false) && HeldId(ids, s.idAtt)
    && forall i :: 0 <= i < |s.defaultAtts| ==> HeldId(ids, s.defaultAtts[i].id)
  }

  ghost predicate ClosedAttributes(d: Prefixes, ids: AttributeTable)
    reads ids.Values
  {
    forall n :: n in ids ==> ids[n].name == n && ClosedAttribute(d, ids[n])
  }

  ghost predicate ClosedElements(d: Prefixes, ids: AttributeTable, elements: ElementTable)
    reads elements.Values
  {
    forall n :: n in elements ==> elements[n].name == n && ClosedElement(d, ids, elements[n])
  }

  ghost predicate NamedEntities(entities: EntityTable)
  {
    forall n :: n in entities ==> entities[n].name == n
  }

  // -------------------------------------------------------- what a deep copy is

  /** `q` stands in the new DTD where `p` stands in the old one. */
  ghost predicate SamePlace(d: Prefixes, e: Prefixes, p: PrefixEntry?, q: PrefixEntry?)
  {
    if p == null then q == null
    else if p == d.default then q == e.default
    else p.name in e.table && q == e.table[p.name]
  }

  ghost predicate SameId(ids: AttributeTable, a: AttributeId?, b: AttributeId?)
  {
    if a == null then b == null else a.name in ids && b == ids[a.name]
  }

  ghost predicate MirrorsAttribute(d: Prefixes, e: Prefixes, a: AttributeId, b: AttributeId)
    reads a, b
  {
    b.maybeTokenized == a.maybeTokenized && b.xmlns == a.xmlns && SamePlace(d, e, a.prefix, b.prefix)
  }

  ghost predicate MirrorsDefault(ids: AttributeTable, x: DefaultAttribute, y: DefaultAttribute)
  {
    y.isCdata == x.isCdata && y.value == x.value && SameId(ids, x.id, y.id)
  }

  ghost predicate MirrorsElement(d: Prefixes, e: Prefixes, ids: AttributeTable, s: ElementType, t: ElementType)
    reads s, t
  {
    && SamePlace(d, e, s.prefix, t.prefix) && SameId(ids, s.idAtt, t.idAtt) && |t.defaultAtts| == |s.defaultAtts|
    && forall i :: 0 <= i < |s.defaultAtts| ==> MirrorsDefault(ids, s.defaultAtts[i], t.defaultAtts[i])
  }

  ghost predicate MirrorsEntity(e: EntityEntry, f: EntityEntry)
    reads e, f
  {
    && f.source == e.source && f.notation == e.notation && f.isParam == e.isParam && f.isInternal == e.isInternal
    && !f.open
  }

  ghost predicate MirrorsPrefixes(keys: set<Text>, new': PrefixTable)
    reads new'.Values
  {
    new'.Keys == keys && forall n :: n in new' ==> new'[n].name == n && new'[n].binding == None
  }

  ghost predicate MirrorsAttributes(keys: set<Text>, d: Prefixes, e: Prefixes, old': AttributeTable,
      new': AttributeTable)
    reads old'.Values, new'.Values
  {
    && new'.Keys == keys && keys <= old'.Keys
    && forall n :: n in new' ==> new'[n].name == n && MirrorsAttribute(d, e, old'[n], new'[n])
  }

  ghost predicate MirrorsElements(
    keys: set<Text>, d: Prefixes, e: Prefixes, ids: AttributeTable, old': ElementTable, new': ElementTable)
    reads old'.Values, new'.Values
  {
    && new'.Keys == keys && keys <= old'.Keys
    && forall n :: n in new' ==> new'[n].name == n && MirrorsElement(d, e, ids, old'[n], new'[n])
  }

  ghost predicate MirrorsEntities(keys: set<Text>, old': EntityTable, new': EntityTable)
    reads old'.Values, new'.Values
  {
    && new'.Keys == keys && keys <= old'.Keys
    && forall n :: n in new' ==> new'[n].name == n && MirrorsEntity(old'[n], new'[n])
  }

  // ------------------------------------------------------------ the source's code

  method CopyPrefixes(source: PrefixTable, order: seq<Text>) returns (table: PrefixTable)
    requires Enumerates(order, source.Keys)
    ensures MirrorsPrefixes(source.Keys, table) && forall n :: n in table ==> fresh(table[n])
  {
    table := map[];
    for i := 0 to |order|
      invariant MirrorsPrefixes(Listed(order[..i]), table) && forall n :: n in table ==> fresh(table[n])
    {
      ListedSnoc(order, i);
      var p := new PrefixEntry(order[i]);
      table := table[order[i] := p];
    }
    ListedAll(order, source.Keys);
  }

  method CopyAttributeId(d: Prefixes, e: Prefixes, a: AttributeId) returns (b: AttributeId)
    requires ClosedAttribute(d, a) && e.table.Keys == d.table.Keys
    ensures fresh(b) && b.name == a.name && MirrorsAttribute(d, e, a, b)
  {
    b := new AttributeId(a.name);
    b.maybeTokenized := a.maybeTokenized;
    if a.prefix != null {
      b.xmlns := a.xmlns;
      if a.prefix == d.default {
        b.prefix := e.default;
      } else {
        b.prefix := FindPrefix(e.table, a.prefix.name);
      }
    }
  }

  /** lookup with a createSize of 0: null if there is no entry of that name. */
  function FindPrefix(table: PrefixTable, name: Text): PrefixEntry?
  {
    if name in table then table[name] else null
  }

  function FindAttribute(table: AttributeTable, name: Text): AttributeId?
  {
    if name in table then table[name] else null
  }

  method CopyAttributeIds(d: Prefixes, e: Prefixes, source: AttributeTable, order: seq<Text>)
      returns (table: AttributeTable)
    requires Enumerates(order, source.Keys) && ClosedAttributes(d, source) && e.table.Keys == d.table.Keys
    ensures MirrorsAttributes(source.Keys, d, e, source, table) && forall n :: n in table ==> fresh(table[n])
  {
    hide MirrorsAttributes, MirrorsAttribute, ClosedAttribute;
    table := map[];
    NoAttributes(d, e, source);
    for i := 0 to |order|
      invariant MirrorsAttributes(Listed(order[..i]), d, e, source, table)
      invariant forall n :: n in table ==> fresh(table[n])
    {
      ListedSnoc(order, i);
      var b := CopyAttributeId(d, e, source[order[i]]);
      MoreAttributes(Listed(order[..i]), d, e, source, table, b);
      table := table[b.name := b];
    }
    ListedAll(order, source.Keys);
  }

  method CopyElementType(d: Prefixes, e: Prefixes, oldIds: AttributeTable, ids: AttributeTable, s: ElementType)
      returns (t: ElementType)
    requires ClosedElement(d, oldIds, s) && e.table.Keys == d.table.Keys && ids.Keys == oldIds.Keys
    ensures fresh(t) && t.name == s.name && MirrorsElement(d, e, ids, s, t)
  {
    t := new ElementType(s.name);
    if s.idAtt != null {
      t.idAtt := FindAttribute(ids, s.idAtt.name);
    }
    if s.prefix != null {
      t.prefix := FindPrefix(e.table, s.prefix.name);
    }
    for i := 0 to |s.defaultAtts|
      invariant |t.defaultAtts| == i
      invariant forall k :: 0 <= k < i ==> MirrorsDefault(ids, s.defaultAtts[k], t.defaultAtts[k])
      invariant SamePlace(d, e, s.prefix, t.prefix) && SameId(ids, s.idAtt, t.idAtt)
    {
      var x := s.defaultAtts[i];
      t.defaultAtts := t.defaultAtts + [DefaultAttribute(FindAttribute(ids, x.id.name), x.isCdata, x.value)];
    }
  }

  method CopyElementTypes(
    d: Prefixes, e: Prefixes, oldIds: AttributeTable, ids: AttributeTable, source: ElementTable, order: seq<Text>)
      returns (table: ElementTable)
    requires Enumerates(order, source.Keys) && ClosedElements(d, oldIds, source)
    requires e.table.Keys == d.table.Keys && ids.Keys == oldIds.Keys
    ensures MirrorsElements(source.Keys, d, e, ids, source, table) && forall n :: n in table ==> fresh(table[n])
  {
    hide MirrorsElements, MirrorsElement, ClosedElement;
    table := map[];
    NoElements(d, e, ids, source);
    for i := 0 to |order|
      invariant MirrorsElements(Listed(order[..i]), d, e, ids, source, table)
      invariant forall n :: n in table ==> fresh(table[n])
    {
      ListedSnoc(order, i);
      var t := CopyElementType(d, e, oldIds, ids, source[order[i]]);
      MoreElements(Listed(order[..i]), d, e, ids, source, table, t);
      table := table[t.name := t];
    }
    ListedAll(order, source.Keys);
  }

  /** The base of one entity; the last base met is not copied again. */
  method CopyBase(base: Text, cachedOld: Optional<Text>, cachedNew: Optional<Text>)
      returns (copy: Optional<Text>, nextOld: Optional<Text>, nextNew: Optional<Text>)
    requires cachedNew == cachedOld
    ensures copy == Some(base) && nextNew == nextOld
  {
    nextOld, nextNew := cachedOld, cachedNew;
    if Some(base) != cachedOld {
      nextOld := Some(base);
      nextNew := nextOld;
    }
    copy := nextNew;
  }

  method CopyEntity(e: EntityEntry, cachedOld: Optional<Text>, cachedNew: Optional<Text>)
      returns (f: EntityEntry, nextOld: Optional<Text>, nextNew: Optional<Text>)
    requires cachedNew == cachedOld
    ensures fresh(f) && f.name == e.name && MirrorsEntity(e, f) && nextNew == nextOld
  {
    nextOld, nextNew := cachedOld, cachedNew;
    f := new EntityEntry(e.name);
    match e.source {
      case External(systemId, base, publicId) =>
        var copy := None;
        if base.Some? {
          copy, nextOld, nextNew := CopyBase(base.value, cachedOld, cachedNew);
        }
        f.source := External(systemId, copy, publicId);
      case Internal(text) =>
        f.source := Internal(text);
    }
    f.notation := e.notation;
    f.isParam := e.isParam;
    f.isInternal := e.isInternal;
  }

  method CopyEntityTable(source: EntityTable, order: seq<Text>) returns (table: EntityTable)
    requires Enumerates(order, source.Keys) && NamedEntities(source)
    ensures MirrorsEntities(source.Keys, source, table) && forall n :: n in table ==> fresh(table[n])
  {
    table := map[];
    var cachedOld: Optional<Text>, cachedNew: Optional<Text> := None, None;
    for i := 0 to |order|
      invariant MirrorsEntities(Listed(order[..i]), source, table) && cachedNew == cachedOld
      invariant forall n :: n in table ==> fresh(table[n])
    {
      ListedSnoc(order, i);
      var f;
      f, cachedOld, cachedNew := CopyEntity(source[order[i]], cachedOld, cachedNew);
      table := table[f.name := f];
    }
    ListedAll(order, source.Keys);
  }

  lemma NoAttributes(d: Prefixes, e: Prefixes, source: AttributeTable)
    ensures MirrorsAttributes(Listed([]), d, e, source, map[])
  {
  }

  lemma MoreAttributes(keys: set<Text>, d: Prefixes, e: Prefixes, source: AttributeTable, table: AttributeTable,
      b: AttributeId)
    requires MirrorsAttributes(keys, d, e, source, table) && b.name in source
    requires MirrorsAttribute(d, e, source[b.name], b)
    ensures MirrorsAttributes(keys + {b.name}, d, e, source, table[b.name := b])
  {
    hide MirrorsAttribute;
  }

  lemma NoElements(d: Prefixes, e: Prefixes, ids: AttributeTable, source: ElementTable)
    ensures MirrorsElements(Listed([]), d, e, ids, source, map[])
  {
  }

  lemma MoreElements(
    keys: set<Text>, d: Prefixes, e: Prefixes, ids: AttributeTable, source: ElementTable, table: ElementTable,
      t: ElementType)
    requires MirrorsElements(keys, d, e, ids, source, table) && t.name in source
    requires MirrorsElement(d, e, ids, source[t.name], t)
    ensures MirrorsElements(keys + {t.name}, d, e, ids, source, table[t.name := t])
  {
    hide MirrorsElement;
  }

  function Listed(order: seq<Text>): set<Text> { set n | n in order }

  lemma ListedSnoc(order: seq<Text>, i: nat)
    requires i < |order|
    ensures Listed(order[..i + 1]) == Listed(order[..i]) + {order[i]}
    ensures Distinct(order) ==> order[i] !in Listed(order[..i])
  {
  }

  lemma ListedAll(order: seq<Text>, keys: set<Text>)
    requires Enumerates(order, keys)
    ensures Listed(order[..|order|]) == keys
  {
  }

  lemma PrefixKeys(keys: set<Text>, table: PrefixTable)
    requires MirrorsPrefixes(keys, table)
    ensures table.Keys == keys
  {
  }

  lemma AttributeKeys(keys: set<Text>, d: Prefixes, e: Prefixes, source: AttributeTable, table: AttributeTable)
    requires MirrorsAttributes(keys, d, e, source, table)
    ensures table.Keys == keys
  {
  }

  /** DTD, without the string pools and the scaffold. */
  class Dtd {
    const defaultPrefix: PrefixEntry
    var prefixes: PrefixTable
    var attributeIds: AttributeTable
    var elementTypes: ElementTable
    var generalEntities: EntityTable
    var paramEntities: EntityTable
    var keepProcessing: bool
    var hasParamEntityRefs: bool
    var standalone: bool
    var paramEntityRead: bool

    ghost function Links(): Prefixes
      reads this
    {
      Prefixes(defaultPrefix, prefixes)
    }

    /** Every pointer of a table entry leads to an entry of this DTD. */
    ghost predicate Closed()
      reads this, attributeIds.Values, elementTypes.Values
    {
      && ClosedAttributes(Links(), attributeIds)
      && ClosedElements(Links(), attributeIds, elementTypes)
      && NamedEntities(generalEntities) && NamedEntities(paramEntities)
    }

    /** dtdCreate */
    constructor ()
      ensures prefixes == map[] && attributeIds == map[] && elementTypes == map[]
      ensures generalEntities == map[] && paramEntities == map[]
      ensures fresh(defaultPrefix) && defaultPrefix.name == [] && defaultPrefix.binding == None
      ensures keepProcessing && !hasParamEntityRefs && !standalone && !paramEntityRead
    {
      defaultPrefix := new PrefixEntry([]);
      prefixes, attributeIds, elementTypes := map[], map[], map[];
      generalEntities, paramEntities := map[], map[];
      keepProcessing, hasParamEntityRefs, standalone, paramEntityRead := true, false, false, false;
    }

    ghost predicate MirrorsFlags(source: Dtd)
      reads this, source
    {
      && keepProcessing == source.keepProcessing && hasParamEntityRefs == source.hasParamEntityRefs
      && standalone == source.standalone && paramEntityRead == source.paramEntityRead
    }

    method CopyNames(source: Dtd, visits: Visits)
      requires source != this && source.Closed() && visits.Fit(source)
      modifies this`prefixes, this`attributeIds
      ensures MirrorsPrefixes(source.prefixes.Keys, prefixes)
      ensures MirrorsAttributes(source.attributeIds.Keys, source.Links(), Links(), source.attributeIds, attributeIds)
      ensures forall n :: n in prefixes ==> fresh(prefixes[n])
      ensures forall n :: n in attributeIds ==> fresh(attributeIds[n])
    {
      hide MirrorsPrefixes, MirrorsAttributes, MirrorsElements, Enumerates, ClosedAttributes, ClosedElements;
      hide NamedEntities;
      var d := Prefixes(source.defaultPrefix, source.prefixes);
      prefixes := CopyPrefixes(source.prefixes, visits.prefixes);
      PrefixKeys(source.prefixes.Keys, prefixes);
      var e := Prefixes(defaultPrefix, prefixes);
      attributeIds := CopyAttributeIds(d, e, source.attributeIds, visits.attributeIds);
    }

    method CopyElements(source: Dtd, visits: Visits)
      requires source != this && source.Closed() && visits.Fit(source)
      requires prefixes.Keys == source.prefixes.Keys && attributeIds.Keys == source.attributeIds.Keys
      modifies this`elementTypes
      ensures MirrorsElements(
        source.elementTypes.Keys, source.Links(), Links(), attributeIds, source.elementTypes, elementTypes)
      ensures forall n :: n in elementTypes ==> fresh(elementTypes[n])
    {
      hide MirrorsElements, Enumerates, ClosedAttributes, ClosedElements, NamedEntities;
      var d, e := Prefixes(source.defaultPrefix, source.prefixes), Prefixes(defaultPrefix, prefixes);
      elementTypes := CopyElementTypes(d, e, source.attributeIds, attributeIds, source.elementTypes,
        visits.elementTypes);
    }

    method CopyEntities(source: Dtd, visits: Visits)
      requires source != this && source.Closed() && visits.Fit(source)
      modifies this`generalEntities, this`paramEntities
      ensures MirrorsEntities(source.generalEntities.Keys, source.generalEntities, generalEntities)
      ensures MirrorsEntities(source.paramEntities.Keys, source.paramEntities, paramEntities)
      ensures forall n :: n in generalEntities ==> fresh(generalEntities[n])
      ensures forall n :: n in paramEntities ==> fresh(paramEntities[n])
    {
      hide MirrorsEntities, Enumerates, ClosedAttributes, ClosedElements, NamedEntities;
      generalEntities := CopyEntityTable(source.generalEntities, visits.generalEntities);
      paramEntities := CopyEntityTable(source.paramEntities, visits.paramEntities);
    }

    method CopyFlags(source: Dtd)
      modifies this`paramEntityRead, this`keepProcessing, this`hasParamEntityRefs, this`standalone
      ensures MirrorsFlags(source)
    {
      paramEntityRead := source.paramEntityRead;
      keepProcessing := source.keepProcessing;
      hasParamEntityRefs := source.hasParamEntityRefs;
      standalone := source.standalone;
    }

    /**
      dtdCopy into a DTD that was just created; `visits` are the orders in which the tables
      of the old DTD yield their entries, which keeps them all.
    */
    method Copy(source: Dtd, visits: Visits)
      requires source != this && source.Closed() && visits.Fit(source)
      modifies this
      ensures MirrorsPrefixes(source.prefixes.Keys, prefixes)
      ensures MirrorsAttributes(source.attributeIds.Keys, source.Links(), Links(), source.attributeIds, attributeIds)
      ensures MirrorsElements(
        source.elementTypes.Keys, source.Links(), Links(), attributeIds, source.elementTypes, elementTypes)
      ensures MirrorsEntities(source.generalEntities.Keys, source.generalEntities, generalEntities)
      ensures MirrorsEntities(source.paramEntities.Keys, source.paramEntities, paramEntities)
      ensures MirrorsFlags(source)
      ensures forall n :: n in prefixes ==> fresh(prefixes[n])
      ensures forall n :: n in attributeIds ==> fresh(attributeIds[n])
      ensures forall n :: n in elementTypes ==> fresh(elementTypes[n])
      ensures forall n :: n in generalEntities ==> fresh(generalEntities[n])
      ensures forall n :: n in paramEntities ==> fresh(paramEntities[n])
    {
      hide MirrorsPrefixes, MirrorsAttributes, MirrorsElements, MirrorsEntities, Visits.Fit;
      hide ClosedAttributes, ClosedElements, NamedEntities;
      CopyTables(source, visits);
      CopyEntities(source, visits);
      CopyFlags(source);
    }

    method CopyTables(source: Dtd, visits: Visits)
      requires source != this && source.Closed() && visits.Fit(source)
      modifies this`prefixes, this`attributeIds, this`elementTypes
      ensures MirrorsPrefixes(source.prefixes.Keys, prefixes)
      ensures MirrorsAttributes(source.attributeIds.Keys, source.Links(), Links(), source.attributeIds, attributeIds)
      ensures MirrorsElements(
        source.elementTypes.Keys, source.Links(), Links(), attributeIds, source.elementTypes, elementTypes)
      ensures forall n :: n in prefixes ==> fresh(prefixes[n])
      ensures forall n :: n in attributeIds ==> fresh(attributeIds[n])
      ensures forall n :: n in elementTypes ==> fresh(elementTypes[n])
    {
      hide MirrorsPrefixes, MirrorsAttributes, MirrorsElements, Visits.Fit, ClosedAttributes, ClosedElements;
      hide NamedEntities;
      CopyNames(source, visits);
      PrefixKeys(source.prefixes.Keys, prefixes);
      AttributeKeys(source.attributeIds.Keys, source.Links(), Links(), source.attributeIds, attributeIds);
      CopyElements(source, visits);
    }
  }

  datatype Visits = Visits(
    prefixes: seq<Text>, attributeIds: seq<Text>, elementTypes: seq<Text>, generalEntities: seq<Text>,
      paramEntities: seq<Text>)
  {
    ghost predicate Fit(d: Dtd)
      reads d
    {
      && Enumerates(prefixes, d.prefixes.Keys) && Enumerates(attributeIds, d.attributeIds.Keys)
      && Enumerates(elementTypes, d.elementTypes.Keys) && Enumerates(generalEntities, d.generalEntities.Keys)
      && Enumerates(paramEntities, d.paramEntities.Keys)
    }
  }

  // ------------------------------------------------------ what a child parser reads

  /** The parts of an entity that expansion looks at, in the order in which it does. */
  ghost function Declared(e: EntityEntry): R.Entity
    reads e
  {
    if e.notation.Some? then R.Unparsed(e.isInternal)
    else if e.source.Internal? then R.Internal(e.source.text, e.isInternal)
    else R.External(e.isInternal)
  }

  ghost function Declarations(table: EntityTable): map<Text, R.Entity>
    reads table.Values
  {
    map n | n in table :: Declared(table[n])
  }

  ghost function OpenIn(table: EntityTable): set<Text>
    reads table.Values
  {
    set n | n in table && table[n].open
  }

  function DefaultOf(x: DefaultAttribute): A.Default
  {
    A.Default(x.id.name, x.isCdata, x.value.Some?, if x.value.Some? then x.value.value else [])
  }

  function DefaultsOf(xs: seq<DefaultAttribute>): seq<A.Default>
  {
    seq(|xs|, i requires 0 <= i < |xs| => DefaultOf(xs[i]))
  }

  ghost function Defaults(table: ElementTable): map<Text, seq<A.Default>>
    reads table.Values
  {
    map n | n in table :: DefaultsOf(table[n].defaultAtts)
  }

  /** A DTD as storeAtts uses it. */
  ghost function View(d: Dtd, intern: Enc, inherited: seq<N.Decl>, separator: Byte, triplets: bool): A.Dtd
    reads d, d.generalEntities.Values, d.elementTypes.Values
  {
    A.Dtd(V.Env(intern, Declarations(d.generalEntities), !d.hasParamEntityRefs || d.standalone),
          Defaults(d.elementTypes), inherited, separator, triplets)
  }

  lemma EntitiesCopied(source: EntityTable, table: EntityTable)
    requires MirrorsEntities(source.Keys, source, table)
    ensures Declarations(table) == Declarations(source) && OpenIn(table) == {} && table.Keys == source.Keys
  {
    assert forall n :: n in table ==> MirrorsEntity(source[n], table[n]);
  }

  lemma ElementCopied(d: Prefixes, e: Prefixes, ids: AttributeTable, s: ElementType, t: ElementType)
    requires MirrorsElement(d, e, ids, s, t) && forall n :: n in ids ==> ids[n].name == n
    ensures DefaultsOf(t.defaultAtts) == DefaultsOf(s.defaultAtts)
  {
    assert forall i :: 0 <= i < |s.defaultAtts| ==> MirrorsDefault(ids, s.defaultAtts[i], t.defaultAtts[i]);
  }

  lemma ElementsCopied(d: Prefixes, e: Prefixes, ids: AttributeTable, source: ElementTable, table: ElementTable)
    requires MirrorsElements(source.Keys, d, e, ids, source, table) && forall n :: n in ids ==> ids[n].name == n
    ensures Defaults(table) == Defaults(source)
  {
    hide MirrorsElement, DefaultsOf;
    forall n | n in table ensures DefaultsOf(table[n].defaultAtts) == DefaultsOf(source[n].defaultAtts) {
      ElementCopied(d, e, ids, source[n], table[n]);
    }
  }

  /** The copy is the same DTD to storeAtts. */
  lemma SameView(p: Dtd, c: Dtd, intern: Enc, inherited: seq<N.Decl>, separator: Byte, triplets: bool)
    requires MirrorsAttributes(p.attributeIds.Keys, p.Links(), c.Links(), p.attributeIds, c.attributeIds)
    requires MirrorsElements(p.elementTypes.Keys, p.Links(), c.Links(), c.attributeIds, p.elementTypes, c.elementTypes)
    requires MirrorsEntities(p.generalEntities.Keys, p.generalEntities, c.generalEntities) && c.MirrorsFlags(p)
    ensures View(c, intern, inherited, separator, triplets) == View(p, intern, inherited, separator, triplets)
  {
    hide MirrorsElements, MirrorsEntities, MirrorsAttribute, Declarations, Defaults;
    EntitiesCopied(p.generalEntities, c.generalEntities);
    ElementsCopied(p.Links(), c.Links(), c.attributeIds, p.elementTypes, c.elementTypes);
  }

  /** Only what the names mean counts. */
  ghost predicate SameMeanings(a: seq<N.Decl>, b: seq<N.Decl>) { forall p :: N.Meaning(a, p) == N.Meaning(b, p) }

  lemma {:induction false} SameMeaningsThen(a: seq<N.Decl>, b: seq<N.Decl>, more: seq<N.Decl>)
    requires SameMeanings(a, b)
    ensures SameMeanings(a + more, b + more)
  {
    hide N.Meaning;
    if more == [] {
      assert a + more == a && b + more == b;
    } else {
      var front, d := more[..|more| - 1], more[|more| - 1];
      SameMeaningsThen(a, b, front);
      assert a + more == (a + front) + [d] && b + more == (b + front) + [d];
      forall p ensures N.Meaning(a + more, p) == N.Meaning(b + more, p) {
        X.MeaningSnoc(a + front, d, p);
        X.MeaningSnoc(b + front, d, p);
      }
    }
  }

  lemma {:induction false} SameLists(dtd: A.Dtd, a: seq<N.Decl>, b: seq<N.Decl>, inherited: seq<N.Decl>,
      items: seq<A.Item>)
    requires SameMeanings(a, b)
    ensures A.PrefixedAtts(dtd.(inherited := inherited), a, items) == A.PrefixedAtts(dtd, b, items)
    ensures A.Listed(dtd.(inherited := inherited), a, items) == A.Listed(dtd, b, items)
  {
    hide N.Meaning, A.KindOf;
    if items != [] {
      SameLists(dtd, a, b, inherited, items[..|items| - 1]);
    }
  }

  lemma SameFinish(dtd: A.Dtd, a: seq<N.Decl>, b: seq<N.Decl>, inherited: seq<N.Decl>, element: Text, g: A.Gathered)
    requires SameMeanings(a, b)
    ensures A.Finish(dtd.(inherited := inherited), a, element, g) == A.Finish(dtd, b, element, g)
  {
    hide N.Meaning, A.PrefixedAtts, A.Listed;
    if g.Gathered? {
      SameMeaningsThen(a, b, g.decls);
      SameLists(dtd, a + g.decls, b + g.decls, inherited, g.items);
    }
  }

  lemma {:induction false} SameSpecified(
    dtd: A.Dtd, inherited: seq<N.Decl>, open: set<Text>, enc: Enc, text: Text, defaults: seq<A.Default>,
      spans: seq<A.T.Span>)
    requires forall k :: 0 <= k < |spans| ==> A.InText(text, spans[k])
    ensures A.Specified(dtd.(inherited := inherited), open, enc, text, defaults, spans)
      == A.Specified(dtd, open, enc, text, defaults, spans)
  {
    if spans != [] {
      SameSpecified(dtd, inherited, open, enc, text, defaults, spans[..|spans| - 1]);
    }
  }

  lemma {:induction false} BindingsConcat(a: seq<C.Tag>, b: seq<C.Tag>)
    ensures A.Bindings(a + b) == A.Bindings(a) + A.Bindings(b)
  {
    if b == [] {
      assert a + b == a;
    } else {
      assert (a + b)[..|a + b| - 1] == a + b[..|b| - 1];
      BindingsConcat(a, b[..|b| - 1]);
    }
  }

  /** Declarations handed on as inherited ones count as those of the tags around. */
  lemma InheritedAttributed(
    dtd: A.Dtd, inherited: seq<N.Decl>, enc: Enc, open: set<Text>, stack: seq<C.Tag>, more: seq<C.Tag>, text: Text)
    requires SameMeanings(inherited, dtd.inherited + A.Bindings(stack))
    ensures A.Attributed(dtd.(inherited := inherited), enc, open, more, text) ==
      A.Attributed(dtd, enc, open, stack + more, text)
  {
    hide SameMeanings, A.IsTag, A.SpansOf, A.Finish, A.Specified, A.Bindings;
    if A.IsTag(enc, text) {
      A.TagText(enc, text);
      A.SpansIn(enc, text);
      var decls := dtd.inherited + A.Bindings(stack);
      BindingsConcat(stack, more);
      SameMeaningsThen(inherited, decls, A.Bindings(more));
      assert decls + A.Bindings(more) == dtd.inherited + A.Bindings(stack + more);
      var element := A.NameAt(enc, text, 1);
      var defaults := A.DefaultsOf(dtd, element);
      SameSpecified(dtd, inherited, open, enc, text, defaults, A.SpansOf(enc, text));
      SameFinish(dtd, inherited + A.Bindings(more), decls + A.Bindings(more), inherited, element,
                 A.Defaulted(A.Specified(dtd, open, enc, text, defaults, A.SpansOf(enc, text)), defaults));
    }
  }

  /**
    A parser made for an external entity, with a copy of the DTD and the context string
    read into it, makes of every tag what its parent would make of it at the reference:
    the same defaults and entities, the same namespaces, the same entities open.
  */
  lemma ChildReadsAlike(
    p: Dtd, c: Dtd, intern: Enc, inherited: seq<N.Decl>, separator: Byte, triplets: bool, stack: seq<C.Tag>,
    prefixes: seq<Text>, entities: seq<X.Entity>, enc: Enc, more: seq<C.Tag>, text: Text)
    requires MirrorsAttributes(p.attributeIds.Keys, p.Links(), c.Links(), p.attributeIds, c.attributeIds)
    requires MirrorsElements(p.elementTypes.Keys, p.Links(), c.Links(), c.attributeIds, p.elementTypes, c.elementTypes)
    requires MirrorsEntities(p.generalEntities.Keys, p.generalEntities, c.generalEntities) && c.MirrorsFlags(p)
    requires X.Sound(inherited + A.Bindings(stack)) && X.Complete(inherited + A.Bindings(stack), prefixes)
    requires forall k :: 0 <= k < |entities| ==> X.CleanName(entities[k].name) && entities[k].name in p.generalEntities
    ensures
      var context := X.Print(X.Items(inherited + A.Bindings(stack), prefixes, entities));
      var r := X.ApplyAll(X.Setting(true, [], OpenIn(c.generalEntities)), c.generalEntities.Keys, X.Parse(context, 0));
      && r.ok
      && A.Attributed(View(c, intern, r.decls, separator, triplets), enc, r.open, more, text)
         == A.Attributed(View(p, intern, inherited, separator, triplets), enc, X.OpenNames(entities), stack + more,
           text)
  {
    hide MirrorsAttributes, MirrorsElements, MirrorsEntities, X.Sound, X.Complete, X.CleanName, X.ApplyAll, X.Parse;
    hide X.Print;
    hide A.Attributed, N.Meaning, Declarations, Defaults, OpenIn, X.Items, X.OpenNames;
    EntitiesCopied(p.generalEntities, c.generalEntities);
    X.RoundTrip(inherited + A.Bindings(stack), prefixes, entities, c.generalEntities.Keys);
    var r := X.ApplyAll(X.Setting(true, [], {}), c.generalEntities.Keys,
                        X.Parse(X.Print(X.Items(inherited + A.Bindings(stack), prefixes, entities)), 0));
    SameView(p, c, intern, r.decls, separator, triplets);
    InheritedAttributed(View(p, intern, inherited, separator, triplets), r.decls, enc, r.open, stack, more, text);
  }
}
