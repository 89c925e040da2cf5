/**
  getContext and setContext: the namespace bindings and open entities of one parser,
  written as a string and read back into another, for external entities.

  The string is a list of items between form feeds, `prefix=uri` or an entity name. The
  order in which the hash tables yield their entries is arbitrary; `RoundTrip` holds for
  every order.
*/
module Context {
  import opened Scanner
  import opened Namespaces
  import opened Orders

  const CONTEXT_SEP: Byte := 0x0C
  const EQUALS_CHAR: Byte := 0x3D

  /** A binding (the default namespace has an empty prefix) or an open entity. */
  datatype Item = Bind(prefix: Text, uri: Text) | Opened(name: Text)

  // ------------------------------------------------------------------ writing

  function ItemText(it: Item): Text
  {
    match it
    case Bind(prefix, uri) => prefix + [EQUALS_CHAR] + uri
    case Opened(name) => name
  }

  function Print(items: seq<Item>): Text
  {
    if items == [] then []
    else if |items| == 1 then ItemText(items[0])
    else Print(items[..|items| - 1]) + [CONTEXT_SEP] + ItemText(items[|items| - 1])
  }

  lemma PrintSnoc(items: seq<Item>, it: Item)
    ensures Print(items + [it]) == Print(items) + (if items == [] then [] else [CONTEXT_SEP]) + ItemText(it)
  {
    assert (items + [it])[..|items|] == items;
  }

  // ------------------------------------------------------------------ reading

  /** The first separator at or after `i`, or the end; an equals sign too if asked. */
  function Stop(text: Text, i: nat, equals: bool): (r: nat)
    requires i <= |text|
    ensures i <= r <= |text|
    ensures forall k :: i <= k < r ==> text[k] != CONTEXT_SEP && (equals ==> text[k] != EQUALS_CHAR)
    ensures r < |text| ==> text[r] == CONTEXT_SEP || (equals && text[r] == EQUALS_CHAR)
    decreases |text| - i
  {
    if i == |text| || text[i] == CONTEXT_SEP || (equals && text[i] == EQUALS_CHAR) then i else Stop(text, i + 1, equals)
  }

  lemma StopIs(text: Text, i: nat, equals: bool, r: nat)
    requires i <= r <= |text|
    requires forall k :: i <= k < r ==> text[k] != CONTEXT_SEP && (equals ==> text[k] != EQUALS_CHAR)
    requires r == |text| || text[r] == CONTEXT_SEP || (equals && text[r] == EQUALS_CHAR)
    ensures Stop(text, i, equals) == r
  {
  }

  function Past(text: Text, k: nat): nat
    requires k <= |text|
  {
    if k < |text| then k + 1 else k
  }

  /** The item that starts at `i`, and where the next one starts. */
  function ItemAt(text: Text, i: nat): (r: (Item, nat))
    requires i < |text|
    ensures i < r.1 <= |text|
  {
    var j := Stop(text, i, true);
    if j < |text| && text[j] == EQUALS_CHAR then
      var k := Stop(text, j + 1, false);
      (Bind(text[i..j], text[j + 1..k]), Past(text, k))
    else (Opened(text[i..j]), Past(text, j))
  }

  function Parse(text: Text, i: nat): seq<Item>
    requires i <= |text|
    decreases |text| - i
  {
    if i == |text| then [] else [ItemAt(text, i).0] + Parse(text, ItemAt(text, i).1)
  }

  /** No delimiter stands where it would cut the item. */
  predicate Clean(it: Item)
  {
    match it
    case Bind(prefix, uri) => CONTEXT_SEP !in prefix && EQUALS_CHAR !in prefix && CONTEXT_SEP !in uri
    case Opened(name) => name != [] && CONTEXT_SEP !in name && EQUALS_CHAR !in name
  }

  lemma BindRead(prefix: Text, uri: Text, rest: Text)
    requires Clean(Bind(prefix, uri)) && (rest == [] || rest[0] == CONTEXT_SEP)
    ensures
      var text := prefix + [EQUALS_CHAR] + uri + rest;
      ItemAt(text, 0) == (Bind(prefix, uri), Past(text, |prefix| + 1 + |uri|))
  {
    hide Stop;
    var text, j := prefix + [EQUALS_CHAR] + uri + rest, |prefix|;
    assert text[..j] == prefix && text[j + 1..j + 1 + |uri|] == uri;
    forall k | 0 <= k < j ensures text[k] != CONTEXT_SEP && text[k] != EQUALS_CHAR { assert text[k] == prefix[k]; }
    StopIs(text, 0, true, j);
    forall k | j + 1 <= k < j + 1 + |uri| ensures text[k] != CONTEXT_SEP { assert text[k] == uri[k - j - 1]; }
    assert rest != [] ==> text[j + 1 + |uri|] == rest[0];
    StopIs(text, j + 1, false, j + 1 + |uri|);
  }

  lemma OpenedRead(name: Text, rest: Text)
    requires Clean(Opened(name)) && (rest == [] || rest[0] == CONTEXT_SEP)
    ensures
      var text := name + rest;
      ItemAt(text, 0) == (Opened(name), Past(text, |name|))
  {
    hide Stop;
    var text := name + rest;
    assert text[..|name|] == name;
    forall k | 0 <= k < |name| ensures text[k] != CONTEXT_SEP && text[k] != EQUALS_CHAR { assert text[k] == name[k]; }
    StopIs(text, 0, true, |name|);
  }

  /** Reading an item off the front of a text. */
  lemma ItemRead(it: Item, rest: Text)
    requires Clean(it) && (rest == [] || rest[0] == CONTEXT_SEP)
    ensures
      var text := ItemText(it) + rest;
      text != [] && ItemAt(text, 0) == (it, if rest == [] then |text| else |text| - |rest| + 1)
  {
    hide ItemAt, Clean;
    match it
    case Bind(prefix, uri) => BindRead(prefix, uri, rest);
    case Opened(name) =>
      OpenedRead(name, rest);
      NonEmptyName(name);
  }

  lemma NonEmptyName(name: Text)
    requires Clean(Opened(name))
    ensures name != []
  {
  }

  /** Where an item stands in a text does not matter. */
  lemma {:induction false} StopShift(pre: Text, text: Text, i: nat, equals: bool)
    requires i <= |text|
    ensures Stop(pre + text, |pre| + i, equals) == |pre| + Stop(text, i, equals)
    decreases |text| - i
  {
    if i < |text| {
      assert (pre + text)[|pre| + i] == text[i];
      StopShift(pre, text, i + 1, equals);
    }
  }

  lemma ItemShift(pre: Text, text: Text, i: nat)
    requires i < |text|
    ensures ItemAt(pre + text, |pre| + i).0 == ItemAt(text, i).0
    ensures ItemAt(pre + text, |pre| + i).1 == |pre| + ItemAt(text, i).1
  {
    hide Stop;
    var j := Stop(text, i, true);
    StopShift(pre, text, i, true);
    SliceShift(pre, text, i, j - i);
    if j < |text| {
      assert (pre + text)[|pre| + j] == text[j];
      var k := Stop(text, j + 1, false);
      StopShift(pre, text, j + 1, false);
      SliceShift(pre, text, j + 1, k - (j + 1));
    }
  }

  lemma {:induction false} ParseShift(pre: Text, text: Text, i: nat)
    requires i <= |text|
    ensures Parse(pre + text, |pre| + i) == Parse(text, i)
    decreases |text| - i
  {
    hide ItemAt;
    if i < |text| {
      ItemShift(pre, text, i);
      ParseShift(pre, text, ItemAt(text, i).1);
    }
  }

  /** The printed items, read from the front. */
  lemma {:induction false} PrintCons(it: Item, items: seq<Item>)
    ensures Print([it] + items) == ItemText(it) + if items == [] then [] else [CONTEXT_SEP] + Print(items)
    decreases |items|
  {
    hide ItemText;
    if items == [] {
      assert [it] + items == [it];
    } else {
      var front, last := items[..|items| - 1], items[|items| - 1];
      PrintCons(it, front);
      assert [it] + items == ([it] + front) + [last] && items == front + [last];
      PrintSnoc([it] + front, last);
      PrintSnoc(front, last);
    }
  }

  /** Reading undoes writing. */
  lemma {:induction false} ParsePrint(items: seq<Item>)
    requires forall k :: 0 <= k < |items| ==> Clean(items[k])
    ensures Parse(Print(items), 0) == items
    decreases |items|
  {
    hide ItemAt, Clean, ItemText;
    if items != [] {
      var it, more := items[0], items[1..];
      assert items == [it] + more;
      PrintCons(it, more);
      ParsePrint(more);
      var rest := if more == [] then [] else [CONTEXT_SEP] + Print(more);
      ItemRead(it, rest);
      if more != [] {
        var pre := ItemText(it) + [CONTEXT_SEP];
        assert ItemText(it) + rest == pre + Print(more);
        ParseShift(pre, Print(more), 0);
      }
    }
  }

  // ------------------------------------------------------- what the strings mean

  function Named(prefix: Text): Prefix { if prefix == [] then Default else Prefix(prefix) }

  /** An entry of the entity table. */
  datatype Entity = Entity(name: Text, isOpen: bool)

  function DefaultItems(decls: seq<Decl>): seq<Item>
  {
    match Meaning(decls, Default)
    case Unbound => []
    case Bound(uri) => [Bind([], uri)]
  }

  function PrefixItems(decls: seq<Decl>, prefixes: seq<Text>): seq<Item>
  {
    if prefixes == [] then []
    else
      var p := prefixes[|prefixes| - 1];
      PrefixItems(decls, prefixes[..|prefixes| - 1]) +
      match Meaning(decls, Prefix(p))
      case Unbound => []
      case Bound(uri) => [Bind(p, uri)]
  }

  function EntityItems(entities: seq<Entity>): seq<Item>
  {
    if entities == [] then []
    else
      var e := entities[|entities| - 1];
      EntityItems(entities[..|entities| - 1]) + if e.isOpen then [Opened(e.name)] else []
  }

  /** What getContext writes, for the orders in which the tables yield prefixes and entities. */
  function Items(decls: seq<Decl>, prefixes: seq<Text>, entities: seq<Entity>): seq<Item>
  {
    DefaultItems(decls) + PrefixItems(decls, prefixes) + EntityItems(entities)
  }

  /** A parser's bindings and open entities, and whether every item was accepted. */
  datatype Setting = Setting(ok: bool, decls: seq<Decl>, open: set<Text>)

  /** What setContext does with an item, given the entities that are declared. */
  function Apply(st: Setting, declared: set<Text>, it: Item): Setting
  {
    if !st.ok then st
    else match it
      case Opened(name) => if name in declared then st.(open := st.open + {name}) else st
      case Bind(prefix, uri) =>
        var d := Decl(Named(prefix), uri);
        if Check(d) == NoError then st.(decls := st.decls + [d]) else st.(ok := false)
  }

  function ApplyAll(st: Setting, declared: set<Text>, items: seq<Item>): Setting
  {
    if items == [] then st else Apply(ApplyAll(st, declared, items[..|items| - 1]), declared, items[|items| - 1])
  }

  lemma ApplySnoc(st: Setting, declared: set<Text>, items: seq<Item>, it: Item)
    ensures ApplyAll(st, declared, items + [it]) == Apply(ApplyAll(st, declared, items), declared, it)
  {
    assert (items + [it])[..|items|] == items;
  }

  lemma {:induction false} ApplyConcat(st: Setting, declared: set<Text>, a: seq<Item>, b: seq<Item>)
    ensures ApplyAll(st, declared, a + b) == ApplyAll(ApplyAll(st, declared, a), declared, b)
  {
    hide Apply;
    if b == [] {
      assert a + b == a;
    } else {
      var front, last := b[..|b| - 1], b[|b| - 1];
      ApplyConcat(st, declared, a, front);
      assert a + b == (a + front) + [last];
      ApplySnoc(st, declared, a + front, last);
    }
  }

  lemma {:induction false} ApplyFailed(st: Setting, declared: set<Text>, items: seq<Item>)
    requires !st.ok
    ensures ApplyAll(st, declared, items) == st
  {
    if items != [] { ApplyFailed(st, declared, items[..|items| - 1]); }
  }

  // ----------------------------------------------------------------- round trip

  predicate CleanName(name: Text) { name != [] && CONTEXT_SEP !in name && EQUALS_CHAR !in name }

  /** The bindings in force, as the source keeps them: checked, and free of the separator, which is no XML character. */
  ghost predicate Sound(decls: seq<Decl>)
  {
    forall k :: 0 <= k < |decls| ==> Legal(decls[k]) && CONTEXT_SEP !in decls[k].uri
  }

  ghost predicate Complete(decls: seq<Decl>, prefixes: seq<Text>)
  {
    && Distinct(prefixes)
    && (forall k :: 0 <= k < |prefixes| ==> CleanName(prefixes[k]))
    && forall p :: Meaning(decls, Prefix(p)).Bound? ==> p in prefixes
  }

  lemma MeaningLegal(decls: seq<Decl>, p: Prefix)
    requires Sound(decls) && Meaning(decls, p).Bound?
    ensures
      var uri := Meaning(decls, p).uri;
      uri != [] && CONTEXT_SEP !in uri && Check(Decl(p, uri)) == NoError
  {
    hide Check;
    assert Legal(decls[Last(decls, p)]);
  }

  lemma MeaningSnoc(decls: seq<Decl>, d: Decl, p: Prefix)
    ensures Meaning(decls + [d], p) == if d.prefix == p then (if d.uri == [] then Unbound else Bound(d.uri))
      else Meaning(decls, p)
  {
    LastSnoc(decls, d, p);
  }

  lemma PrefixItemsSnoc(decls: seq<Decl>, front: seq<Text>, p: Text)
    ensures PrefixItems(decls, front + [p]) ==
      if Meaning(decls, Prefix(p)).Bound? then PrefixItems(decls, front) + [Bind(p, Meaning(decls, Prefix(p)).uri)]
      else PrefixItems(decls, front)
  {
    hide Meaning;
    assert (front + [p])[..|front|] == front;
  }

  /** The prefixes listed have their meaning back, and no others have any. */
  ghost predicate Restored(decls: seq<Decl>, prefixes: seq<Text>, st: Setting, r: Setting)
  {
    && r.ok && r.open == st.open
    && Meaning(r.decls, Default) == Meaning(st.decls, Default)
    && forall p :: Meaning(r.decls, Prefix(p)) == if p in prefixes then Meaning(decls, Prefix(p)) else Unbound
  }

  lemma RestoreOne(decls: seq<Decl>, front: seq<Text>, p: Text, declared: set<Text>, st: Setting, r: Setting)
    requires Sound(decls) && CleanName(p) && p !in front && Restored(decls, front, st, r)
    ensures Restored(decls, front + [p], st,
      if Meaning(decls, Prefix(p)).Bound? then Apply(r, declared, Bind(p, Meaning(decls, Prefix(p)).uri)) else r)
  {
    hide Meaning, Check, Sound;
    if Meaning(decls, Prefix(p)).Bound? {
      var d := Decl(Prefix(p), Meaning(decls, Prefix(p)).uri);
      MeaningLegal(decls, Prefix(p));
      forall q ensures Meaning(r.decls + [d], q) == if q == Prefix(p) then Bound(d.uri) else Meaning(r.decls, q) {
        MeaningSnoc(r.decls, d, q);
      }
    }
  }

  /** Applying the items of the prefixes restores their meanings and no others. */
  lemma {:induction false} PrefixesBack(decls: seq<Decl>, prefixes: seq<Text>, declared: set<Text>, st: Setting)
    requires Sound(decls) && Distinct(prefixes) && st.ok
    requires forall k :: 0 <= k < |prefixes| ==> CleanName(prefixes[k])
    requires forall p :: Meaning(st.decls, Prefix(p)) == Unbound
    ensures Restored(decls, prefixes, st, ApplyAll(st, declared, PrefixItems(decls, prefixes)))
    decreases |prefixes|
  {
    if prefixes == [] {
      hide Meaning;
    } else {
      hide Meaning, Sound, Restored, PrefixItems, ApplyAll, Apply, CleanName;
      var front, p := prefixes[..|prefixes| - 1], prefixes[|prefixes| - 1];
      PrefixesBack(decls, front, declared, st);
      assert prefixes == front + [p];
      PrefixItemsSnoc(decls, front, p);
      if Meaning(decls, Prefix(p)).Bound? {
        ApplySnoc(st, declared, PrefixItems(decls, front), Bind(p, Meaning(decls, Prefix(p)).uri));
      }
      RestoreOne(decls, front, p, declared, st, ApplyAll(st, declared, PrefixItems(decls, front)));
    }
  }

  function OpenNames(entities: seq<Entity>): set<Text>
  {
    if entities == [] then {}
    else
      var e := entities[|entities| - 1];
      OpenNames(entities[..|entities| - 1]) + if e.isOpen then {e.name} else {}
  }

  lemma {:induction false} OpenNamesAre(entities: seq<Entity>, name: Text)
    ensures name in OpenNames(entities) <==> exists k :: 0 <= k < |entities| && entities[k] == Entity(name, true)
  {
    if entities != [] { OpenNamesAre(entities[..|entities| - 1], name); }
  }

  lemma EntitySnoc(front: seq<Entity>, e: Entity)
    ensures EntityItems(front + [e]) == EntityItems(front) + if e.isOpen then [Opened(e.name)] else []
    ensures OpenNames(front + [e]) == OpenNames(front) + if e.isOpen then {e.name} else {}
  {
    assert (front + [e])[..|front|] == front;
  }

  lemma {:induction false} EntitiesBack(entities: seq<Entity>, declared: set<Text>, st: Setting)
    requires st.ok && forall k :: 0 <= k < |entities| ==> entities[k].name in declared
    ensures ApplyAll(st, declared, EntityItems(entities)) == st.(open := st.open + OpenNames(entities))
    decreases |entities|
  {
    if entities == [] {
      assert st.open + {} == st.open;
    } else {
      hide EntityItems, OpenNames, ApplyAll, Check;
      var front, e := entities[..|entities| - 1], entities[|entities| - 1];
      EntitiesBack(front, declared, st);
      assert entities == front + [e];
      EntitySnoc(front, e);
      assert EntityItems(front) + [] == EntityItems(front) && OpenNames(front) + {} == OpenNames(front);
      if e.isOpen {
        ApplySnoc(st, declared, EntityItems(front), Opened(e.name));
        assert (st.open + OpenNames(front)) + {e.name} == st.open + (OpenNames(front) + {e.name});
      }
    }
  }

  lemma DefaultBack(decls: seq<Decl>, declared: set<Text>)
    requires Sound(decls)
    ensures
      var r := ApplyAll(Setting(true, [], {}), declared, DefaultItems(decls));
      && r.ok && r.open == {} && Meaning(r.decls, Default) == Meaning(decls, Default)
      && forall p :: Meaning(r.decls, Prefix(p)) == Unbound
  {
    hide Check;
    var st := Setting(true, [], {});
    if Meaning(decls, Default).Bound? {
      MeaningLegal(decls, Default);
      var uri := Meaning(decls, Default).uri;
      ApplySnoc(st, declared, [], Bind([], uri));
      assert [] + [Bind([], uri)] == [Bind([], uri)];
      assert [] + [Decl(Default, uri)] == [Decl(Default, uri)];
      forall q ensures Meaning([Decl(Default, uri)], q) == if q == Default then Bound(uri) else Unbound {
        MeaningSnoc([], Decl(Default, uri), q);
      }
    }
  }

  lemma {:induction false} PrefixItemsClean(decls: seq<Decl>, prefixes: seq<Text>)
    requires Sound(decls) && forall k :: 0 <= k < |prefixes| ==> CleanName(prefixes[k])
    ensures forall k :: 0 <= k < |PrefixItems(decls, prefixes)| ==> Clean(PrefixItems(decls, prefixes)[k])
  {
    hide Meaning, Check;
    if prefixes != [] {
      PrefixItemsClean(decls, prefixes[..|prefixes| - 1]);
      var p := prefixes[|prefixes| - 1];
      if Meaning(decls, Prefix(p)).Bound? { MeaningLegal(decls, Prefix(p)); }
    }
  }

  lemma {:induction false} EntityItemsClean(entities: seq<Entity>)
    requires forall k :: 0 <= k < |entities| ==> CleanName(entities[k].name)
    ensures forall k :: 0 <= k < |EntityItems(entities)| ==> Clean(EntityItems(entities)[k])
  {
    if entities != [] { EntityItemsClean(entities[..|entities| - 1]); }
  }

  lemma ItemsClean(decls: seq<Decl>, prefixes: seq<Text>, entities: seq<Entity>)
    requires Sound(decls) && (forall k :: 0 <= k < |prefixes| ==> CleanName(prefixes[k]))
    requires forall k :: 0 <= k < |entities| ==> CleanName(entities[k].name)
    ensures forall k :: 0 <= k < |Items(decls, prefixes, entities)| ==> Clean(Items(decls, prefixes, entities)[k])
  {
    hide Meaning, Check, CleanName;
    PrefixItemsClean(decls, prefixes);
    EntityItemsClean(entities);
    if Meaning(decls, Default).Bound? { MeaningLegal(decls, Default); }
    hide Clean;
  }

  /**
    The string gives back the same meaning of every prefix and the same open entities, in
    whatever order it was written.
  */
  lemma RoundTrip(decls: seq<Decl>, prefixes: seq<Text>, entities: seq<Entity>, declared: set<Text>)
    requires Sound(decls) && Complete(decls, prefixes)
    requires forall k :: 0 <= k < |entities| ==> CleanName(entities[k].name) && entities[k].name in declared
    ensures
      var r := ApplyAll(Setting(true, [], {}), declared, Parse(Print(Items(decls, prefixes, entities)), 0));
      r.ok && r.open == OpenNames(entities) && forall p :: Meaning(r.decls, p) == Meaning(decls, p)
  {
    hide Meaning, CleanName, Clean, Check, ApplyAll, Parse, Print, Sound, OpenNames, PrefixItems, EntityItems;
    ItemsClean(decls, prefixes, entities);
    ParsePrint(Items(decls, prefixes, entities));
    var a, b, c := DefaultItems(decls), PrefixItems(decls, prefixes), EntityItems(entities);
    var st := Setting(true, [], {});
    ApplyConcat(st, declared, a + b, c);
    ApplyConcat(st, declared, a, b);
    DefaultBack(decls, declared);
    var s1 := ApplyAll(st, declared, a);
    PrefixesBack(decls, prefixes, declared, s1);
    var s2 := ApplyAll(s1, declared, b);
    EntitiesBack(entities, declared, s2);
    forall p ensures Meaning(s2.decls, p) == Meaning(decls, p) {
      if p.Prefix? && p.name !in prefixes {
        assert !Meaning(decls, Prefix(p.name)).Bound?;
      }
    }
    assert {} + OpenNames(entities) == OpenNames(entities);
  }

  // ------------------------------------------------------------ the source's code

  method AppendItem(pool: Text, needSep: bool, text: Text, ghost items: seq<Item>, ghost it: Item) returns (r: Text)
    requires pool == Print(items) && needSep == (items != []) && text == ItemText(it)
    ensures r == Print(items + [it])
  {
    hide Print, ItemText;
    PrintSnoc(items, it);
    r := pool;
    if needSep {
      r := r + [CONTEXT_SEP];
    }
    r := r + text;
  }

  method WritePrefixes(scopes: Scopes, prefixes: seq<Text>, pool0: Text, ghost first: seq<Item>) returns (pool: Text)
    requires scopes.Valid() && pool0 == Print(first) && (pool0 == [] <==> first == [])
    ensures pool == Print(first + PrefixItems(scopes.book.decls, prefixes))
    ensures pool == [] <==> first + PrefixItems(scopes.book.decls, prefixes) == []
  {
    hide Print, Scopes.Valid, PrefixItems, Meaning;
    ghost var decls, items := scopes.book.decls, first;
    var needSep := pool0 != [];
    pool := pool0;
    NoPrefixItems(decls, prefixes);
    for i := 0 to |prefixes|
      invariant items == first + PrefixItems(decls, prefixes[..i]) && pool == Print(items)
      invariant needSep == (items != []) == (pool != [])
    {
      PrefixItemsSnoc(decls, prefixes[..i], prefixes[i]);
      assert prefixes[..i + 1] == prefixes[..i] + [prefixes[i]];
      var uri := scopes.Lookup(Prefix(prefixes[i]));
      if uri.Bound? {
        var text := prefixes[i] + [EQUALS_CHAR] + Unseparated(scopes.separator, uri.uri);
        ghost var it := Bind(prefixes[i], Meaning(decls, Prefix(prefixes[i])).uri);
        PrintSnoc(items, it);
        pool := AppendItem(pool, needSep, text, items, it);
        needSep := true;
        items := items + [it];
      }
    }
    assert prefixes[..|prefixes|] == prefixes;
  }

  method WriteEntities(entities: seq<Entity>, pool0: Text, ghost first: seq<Item>) returns (pool: Text)
    requires pool0 == Print(first) && (pool0 == [] <==> first == [])
    ensures pool == Print(first + EntityItems(entities))
  {
    hide Print, EntityItems;
    ghost var items := first;
    var needSep := pool0 != [];
    pool := pool0;
    NoEntityItems(entities);
    for i := 0 to |entities|
      invariant items == first + EntityItems(entities[..i]) && pool == Print(items) && needSep == (items != [])
    {
      EntitySnoc(entities[..i], entities[i]);
      assert entities[..i + 1] == entities[..i] + [entities[i]];
      if entities[i].isOpen {
        pool := AppendItem(pool, needSep, entities[i].name, items, Opened(entities[i].name));
        needSep := true;
        items := items + [Opened(entities[i].name)];
      }
    }
    assert entities[..|entities|] == entities;
  }

  /** getContext; `prefixes` and `entities` are what the two hash tables yield. */
  method GetContext(scopes: Scopes, prefixes: seq<Text>, entities: seq<Entity>) returns (pool: Text)
    requires scopes.Valid()
    ensures pool == Print(Items(scopes.book.decls, prefixes, entities))
  {
    hide Print, Scopes.Valid, PrefixItems, EntityItems, Meaning;
    ghost var decls := scopes.book.decls;
    pool := [];
    PrintNone();
    var uri := scopes.Lookup(Default);
    if uri.Bound? {
      pool := pool + [EQUALS_CHAR] + Unseparated(scopes.separator, uri.uri);
      PrintOne(Bind([], Meaning(decls, Default).uri));
    }
    pool := WritePrefixes(scopes, prefixes, pool, DefaultItems(decls));
    pool := WriteEntities(entities, pool, DefaultItems(decls) + PrefixItems(decls, prefixes));
  }

  lemma PrintOne(it: Item)
    ensures Print([it]) == ItemText(it)
  {
  }

  /** The URI without the separator that addBinding appended. */
  function Unseparated(separator: Byte, uri: Text): (r: Text)
    ensures forall u :: uri == Stored(separator, u) ==> r == u
  {
    if separator != 0 && uri != [] then uri[..|uri| - 1] else uri
  }

  lemma PrintNone()
    ensures Print([]) == []
  {
  }

  lemma NoPrefixItems(decls: seq<Decl>, prefixes: seq<Text>)
    ensures PrefixItems(decls, prefixes[..0]) == []
  {
  }

  lemma NoEntityItems(entities: seq<Entity>)
    ensures EntityItems(entities[..0]) == []
  {
  }

  /** The open flags of the entities declared in the receiving parser. */
  class Entities {
    const declared: set<Text>
    var open: set<Text>

    constructor (declared: set<Text>)
      ensures this.declared == declared && open == {}
    {
      this.declared, open := declared, {};
    }
  }

  /** The inner loop of setContext. */
  method ReadUri(context: Text, s: nat) returns (uri: Text, ctx: nat)
    requires s < |context|
    ensures ctx == Stop(context, s + 1, false) && uri == context[s + 1..ctx]
  {
    ctx, uri := s + 1, [];
    while ctx < |context| && context[ctx] != CONTEXT_SEP
      invariant s + 1 <= ctx <= Stop(context, s + 1, false) && uri == context[s + 1..ctx]
    {
      uri := uri + [context[ctx]];
      ctx := ctx + 1;
    }
  }

  /** An item that is the name of an entity. */
  method TakeName(entities: Entities, name: Text, ghost st: Setting, ghost done: seq<Item>, ghost decls: seq<Decl>)
    requires ApplyAll(st, entities.declared, done) == Setting(true, decls, entities.open)
    modifies entities
    ensures ApplyAll(st, entities.declared, done + [Opened(name)]) == Setting(true, decls, entities.open)
  {
    hide ApplyAll, Check;
    ApplySnoc(st, entities.declared, done, Opened(name));
    if name in entities.declared {
      entities.open := entities.open + {name};
    }
  }

  /** An item that is a binding. */
  method TakeBinding(
    scopes: Scopes, name: Text, uri: Text, ghost declared: set<Text>, ghost open: set<Text>, ghost st: Setting,
    ghost done: seq<Item>)
      returns (ok: bool)
    requires scopes.Valid() && ApplyAll(st, declared, done) == Setting(true, scopes.book.decls, open)
    modifies scopes, scopes.book.made
    ensures scopes.Valid() && fresh(scopes.book.made - old(scopes.book.made))
    ensures ApplyAll(st, declared, done + [Bind(name, uri)]) == Setting(ok, scopes.book.decls, open)
  {
    hide Scopes.Valid, ApplyAll, Check;
    ApplySnoc(st, declared, done, Bind(name, uri));
    var error := scopes.AddBinding(Named(name), uri);
    ok := error == NoError;
  }

  /** What setContext does at the end of a name: the item that began at `ctx` is read and applied. */
  method TakeItem(
    scopes: Scopes, entities: Entities, context: Text, ctx: nat, s: nat, pool: Text, ghost st: Setting,
      ghost done: seq<Item>)
      returns (ok: bool, next: nat)
    requires ctx < |context| && s == Stop(context, ctx, true) && pool == context[ctx..s]
    requires scopes.Valid() && ApplyAll(st, entities.declared, done) == Setting(true, scopes.book.decls, entities.open)
    modifies scopes, scopes.book.made, entities
    ensures scopes.Valid() && fresh(scopes.book.made - old(scopes.book.made)) && next == ItemAt(context, ctx).1
    ensures ApplyAll(st, entities.declared, done + [ItemAt(context, ctx).0]) ==
      Setting(ok, scopes.book.decls, entities.open)
  {
    hide Scopes.Valid, ApplyAll, Stop;
    StopReached(context, ctx, s);
    if s < |context| && context[s] == EQUALS_CHAR {
      var uri, end := ReadUri(context, s);
      ok := TakeBinding(scopes, pool, uri, entities.declared, entities.open, st, done);
      next := Past(context, end);
    } else {
      TakeName(entities, pool, st, done, scopes.book.decls);
      ok, next := true, Past(context, s);
    }
  }

  /** setContext */
  method SetContext(scopes: Scopes, entities: Entities, context: Text) returns (ok: bool)
    requires scopes.Valid()
    modifies scopes, scopes.book.made, entities
    ensures scopes.Valid()
    ensures
      var r := ApplyAll(Setting(true, old(scopes.book.decls), old(entities.open)), entities.declared,
        Parse(context, 0));
      ok == r.ok && scopes.book.decls == r.decls && entities.open == r.open
  {
    hide Scopes.Valid, Parse, ApplyAll, Stop, ItemAt;
    ghost var st := Setting(true, scopes.book.decls, entities.open);
    ghost var done: seq<Item> := [];
    var ctx, s, n := 0, 0, |context|;
    var pool: Text := [];
    ok := true;
    ApplyNone(st, entities.declared);
    while ctx < n
      invariant ctx <= n && ctx <= s <= Stop(context, ctx, true) && pool == context[ctx..s] && ok
      invariant done + Parse(context, ctx) == Parse(context, 0) && scopes.Valid()
      invariant fresh(scopes.book.made - old(scopes.book.made))
      invariant ApplyAll(st, entities.declared, done) == Setting(true, scopes.book.decls, entities.open)
      decreases n - ctx, n - s
    {
      StopReached(context, ctx, s);
      if s == n || context[s] == CONTEXT_SEP || context[s] == EQUALS_CHAR {
        ParseNext(context, ctx, done);
        ghost var it := ItemAt(context, ctx).0;
        ok, s := TakeItem(scopes, entities, context, ctx, s, pool, st, done);
        done := done + [it];
        if !ok {
          RestIgnored(st, entities.declared, done, Parse(context, s));
          return;
        }
        ctx, pool := s, [];
      } else {
        pool := pool + [context[s]];
        s := s + 1;
      }
    }
    ParseEnd(context);
    assert done + [] == done;
  }

  lemma RestIgnored(st: Setting, declared: set<Text>, done: seq<Item>, rest: seq<Item>)
    requires !ApplyAll(st, declared, done).ok
    ensures ApplyAll(st, declared, done + rest) == ApplyAll(st, declared, done)
  {
    hide ApplyAll;
    ApplyConcat(st, declared, done, rest);
    ApplyFailed(ApplyAll(st, declared, done), declared, rest);
  }

  lemma ParseNext(text: Text, i: nat, done: seq<Item>)
    requires i < |text| && done + Parse(text, i) == Parse(text, 0)
    ensures (done + [ItemAt(text, i).0]) + Parse(text, ItemAt(text, i).1) == Parse(text, 0)
  {
    hide ItemAt;
    ParseStep(text, i);
  }

  lemma StopReached(text: Text, i: nat, s: nat)
    requires i <= |text| && i <= s <= Stop(text, i, true)
    ensures s == Stop(text, i, true) <==> s == |text| || text[s] == CONTEXT_SEP || text[s] == EQUALS_CHAR
  {
  }

  lemma ParseStep(text: Text, i: nat)
    requires i < |text|
    ensures Parse(text, i) == [ItemAt(text, i).0] + Parse(text, ItemAt(text, i).1)
  {
    hide ItemAt;
  }

  lemma ParseEnd(text: Text)
    ensures Parse(text, |text|) == []
  {
  }

  lemma ApplyNone(st: Setting, declared: set<Text>)
    ensures ApplyAll(st, declared, []) == st
  {
  }
}
