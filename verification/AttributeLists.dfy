/**
  Which attributes an accepted tag ends up with, said without the loops of storeAtts: by
  the attributes that stand in the tag and those that are declared for its element.
*/
module AttributeLists {
  import opened Scanner
  import opened Attributes
  import A = AttributeValue
  import T = StartTag
  import N = Namespaces
  import X = NsAtts
  import C = Content

  // ------------------------------------------------------------- what is meant

  /** xmlns, or xmlns: and a prefix. */
  predicate DeclaresNamespace(name: Text) { name == N.XMLNS || N.XMLNS + [0x3A] <= name }

  function DeclaredPrefix(name: Text): N.Prefix
    requires DeclaresNamespace(name)
  {
    if name == N.XMLNS then N.Default else N.Prefix(name[6..])
  }

  /** The first declaration of the name says that it is of a tokenised type. */
  predicate TokenisedType(defaults: seq<Default>, name: Text)
  {
    exists i :: 0 <= i < |defaults| && FirstDeclared(defaults, i, name) && !defaults[i].isCdata
  }

  predicate FirstDeclared(defaults: seq<Default>, i: nat, name: Text)
    requires i < |defaults|
  {
    defaults[i].name == name && forall j :: 0 <= j < i ==> defaults[j].name != name
  }

  /** The value of an attribute that stands in the tag. */
  ghost predicate Valued(dtd: Dtd, open: set<Text>, enc: Enc, text: Text, defaults: seq<Default>, sp: T.Span, v: Text)
    requires InText(text, sp)
  {
    var r := A.Replace(dtd.values, open, enc, text, sp.value, sp.valueEnd);
    r.Val? && v == if TokenisedType(defaults, NameAt(enc, text, sp.name)) then A.Tokenised(r.bytes) else r.bytes
  }

  ghost predicate AllValued(
    dtd: Dtd, open: set<Text>, enc: Enc, text: Text, defaults: seq<Default>, spans: seq<T.Span>, vals: seq<Text>)
    requires forall k :: 0 <= k < |spans| ==> InText(text, spans[k])
  {
    |vals| == |spans| && forall k :: 0 <= k < |spans| ==> Valued(dtd, open, enc, text, defaults, spans[k], vals[k])
  }

  ghost function NamesOf(enc: Enc, text: Text, spans: seq<T.Span>): seq<Text>
  {
    seq(|spans|, k requires 0 <= k < |spans| => NameAt(enc, text, spans[k].name))
  }

  predicate Stands(names: seq<Text>, vals: seq<Text>, name: Text, value: Text)
  {
    exists k :: 0 <= k < |names| && k < |vals| && names[k] == name && vals[k] == value
  }

  /** The value that an attribute has by default: that of its first declaration that has one. */
  predicate DefaultsTo(defaults: seq<Default>, name: Text, value: Text)
  {
    exists i :: 0 <= i < |defaults| && Supplies(defaults[i], name) && defaults[i].value == value
      && forall j :: 0 <= j < i ==> !Supplies(defaults[j], name)
  }

  predicate Supplies(d: Default, name: Text) { d.name == name && d.hasValue }

  predicate Declares(name: Text, value: Text, d: N.Decl)
  {
    DeclaresNamespace(name) && d == N.Decl(DeclaredPrefix(name), value)
  }

  predicate Different(items: seq<Item>) { forall j, k :: 0 <= j < k < |items| ==> items[j].name != items[k].name }

  predicate DifferentNames(names: seq<Text>) { forall j, k :: 0 <= j < k < |names| ==> names[j] != names[k] }

  /** What stands in the tag comes first, in the order of the tag. */
  predicate InOrder(items: seq<Item>, names: seq<Text>)
  {
    forall i, j, k :: 0 <= i < j < |items| && 0 <= k < |names| && names[k] == items[j].name ==>
      items[i].name in names[..k]
  }

  /** The attributes, by name and value, and the namespaces of the tag. */
  ghost predicate ItemsAre(names: seq<Text>, vals: seq<Text>, defaults: seq<Default>, items: seq<Item>)
  {
    forall name, value :: Item(name, value) in items <==>
      && !DeclaresNamespace(name)
      && (Stands(names, vals, name, value) || (name !in names && DefaultsTo(defaults, name, value)))
  }

  ghost predicate DeclsAre(names: seq<Text>, vals: seq<Text>, defaults: seq<Default>, decls: seq<N.Decl>)
  {
    forall d :: d in decls <==>
      || (exists k :: 0 <= k < |names| && k < |vals| && Declares(names[k], vals[k], d))
      || (exists i :: 0 <= i < |defaults| && DefaultDeclares(names, defaults[i], d))
  }

  predicate DefaultDeclares(names: seq<Text>, def: Default, d: N.Decl)
  {
    def.hasValue && def.name !in names && Declares(def.name, def.value, d)
  }

  ghost predicate Gathers(g: Gathered, names: seq<Text>, vals: seq<Text>, defaults: seq<Default>)
    requires g.Gathered?
  {
    && |vals| == |names| && DifferentNames(names) && Different(g.items) && InOrder(g.items, names)
    && ItemsAre(names, vals, defaults, g.items) && DeclsAre(names, vals, defaults, g.decls)
  }

  // ------------------------------------------------------------------ kinds

  lemma KindIs(name: Text)
    ensures KindOf(name).Xmlns? <==> DeclaresNamespace(name)
    ensures DeclaresNamespace(name) ==> KindOf(name).declared == DeclaredPrefix(name)
  {
  }

  lemma {:induction false} TypeIs(defaults: seq<Default>, name: Text)
    ensures IsCdata(defaults, name) <==> !TokenisedType(defaults, name)
  {
    if defaults != [] && defaults[0].name != name {
      var rest := defaults[1..];
      TypeIs(rest, name);
      forall i | 0 <= i < |rest| ensures FirstDeclared(rest, i, name) <==> FirstDeclared(defaults, i + 1, name) {
        assert forall j :: 0 <= j < i ==> rest[j] == defaults[j + 1];
      }
      if TokenisedType(rest, name) {
        var i :| 0 <= i < |rest| && FirstDeclared(rest, i, name) && !rest[i].isCdata;
        assert FirstDeclared(defaults, i + 1, name);
      }
      if TokenisedType(defaults, name) {
        var i :| 0 <= i < |defaults| && FirstDeclared(defaults, i, name) && !defaults[i].isCdata;
        assert FirstDeclared(rest, i - 1, name);
      }
    } else if defaults != [] {
      assert FirstDeclared(defaults, 0, name);
    }
  }

  // ------------------------------------------------------- the attributes in the tag

  predicate SeenIs(seen: set<Text>, names: seq<Text>, defaults: seq<Default>)
  {
    && (forall x :: x in seen ==>
          x in names || (!DeclaresNamespace(x) && exists i :: 0 <= i < |defaults| && Supplies(defaults[i], x)))
    && (forall x :: x in names ==> x in seen)
    && forall i :: 0 <= i < |defaults| && defaults[i].hasValue && !DeclaresNamespace(defaults[i].name) ==>
      defaults[i].name in seen
  }

  lemma StandsMore(names: seq<Text>, vals: seq<Text>, n: Text, v: Text, name: Text, value: Text)
    requires |names| == |vals|
    ensures Stands(names + [n], vals + [v], name, value) <==>
      Stands(names, vals, name, value) || (name == n && value == v)
  {
    var ns, vs := names + [n], vals + [v];
    if Stands(names, vals, name, value) {
      var k :| 0 <= k < |names| && names[k] == name && vals[k] == value;
      assert ns[k] == name && vs[k] == value;
    }
    if name == n && value == v {
      assert ns[|names|] == name && vs[|names|] == value;
    }
  }

  /** An item whose name is new goes to the end of the list. */
  lemma ItemMore(names: seq<Text>, vals: seq<Text>, items: seq<Item>, n: Text, v: Text)
    requires |names| == |vals| && n !in names && Different(items) && InOrder(items, names)
    requires ItemsAre(names, vals, [], items)
    ensures
      var more := if DeclaresNamespace(n) then items else items + [Item(n, v)];
      Different(more) && InOrder(more, names + [n]) && ItemsAre(names + [n], vals + [v], [], more)
  {
    hide DeclaresNamespace, Stands;
    var ns, vs := names + [n], vals + [v];
    var more := if DeclaresNamespace(n) then items else items + [Item(n, v)];
    forall i | 0 <= i < |items| ensures items[i].name in names {
      assert Item(items[i].name, items[i].value) in items;
      StandsIn(names, vals, items[i].name, items[i].value);
    }
    forall name, value ensures Item(name, value) in more <==> !DeclaresNamespace(name) && Stands(ns, vs, name, value) {
      StandsMore(names, vals, n, v, name, value);
      assert Item(name, value) in items <==> !DeclaresNamespace(name) && Stands(names, vals, name, value);
    }
    forall i, j, k | 0 <= i < j < |more| && 0 <= k < |ns| && ns[k] == more[j].name ensures more[i].name in ns[..k] {
      if k < |names| {
        assert names[k] == items[j].name;
        assert ns[..k] == names[..k];
      } else {
        assert ns[..k] == names;
      }
    }
  }

  lemma StandsIn(names: seq<Text>, vals: seq<Text>, name: Text, value: Text)
    requires Stands(names, vals, name, value)
    ensures name in names
  {
  }

  lemma DeclMore(names: seq<Text>, vals: seq<Text>, decls: seq<N.Decl>, n: Text, v: Text)
    requires |names| == |vals| && DeclsAre(names, vals, [], decls)
    ensures DeclsAre(names + [n], vals + [v], [],
              if DeclaresNamespace(n) then decls + [N.Decl(DeclaredPrefix(n), v)] else decls)
  {
    hide DeclaresNamespace;
    var ns, vs := names + [n], vals + [v];
    var more := if DeclaresNamespace(n) then decls + [N.Decl(DeclaredPrefix(n), v)] else decls;
    forall d ensures d in more <==> exists k :: 0 <= k < |ns| && k < |vs| && Declares(ns[k], vs[k], d) {
      if d in decls {
        var k :| 0 <= k < |names| && Declares(names[k], vals[k], d);
        assert Declares(ns[k], vs[k], d);
      }
      if Declares(n, v, d) {
        assert Declares(ns[|names|], vs[|names|], d);
      }
      if exists k :: 0 <= k < |ns| && k < |vs| && Declares(ns[k], vs[k], d) {
        var k :| 0 <= k < |ns| && k < |vs| && Declares(ns[k], vs[k], d);
        if k < |names| {
          assert Declares(names[k], vals[k], d);
        }
      }
    }
  }

  lemma SpecifyOne(g: Gathered, names: seq<Text>, vals: seq<Text>, n: Text, v: Text)
    requires g.Gathered? && Gathers(g, names, vals, []) && SeenIs(g.seen, names, []) && n !in g.seen
    requires AddItem(g.(seen := g.seen + {n}), n, v).Gathered?
    ensures
      var r := AddItem(g.(seen := g.seen + {n}), n, v);
      Gathers(r, names + [n], vals + [v], []) && SeenIs(r.seen, names + [n], [])
  {
    hide Different, InOrder, ItemsAre, DeclsAre, DeclaresNamespace, KindOf, N.Check;
    KindIs(n);
    ItemMore(names, vals, g.items, n, v);
    DeclMore(names, vals, g.decls, n, v);
  }

  /** A fault stays. */
  lemma {:induction false} SpecifiedBefore(
    dtd: Dtd, open: set<Text>, enc: Enc, text: Text, defaults: seq<Default>, spans: seq<T.Span>)
    requires spans != [] && forall k :: 0 <= k < |spans| ==> InText(text, spans[k])
    requires Specified(dtd, open, enc, text, defaults, spans).Gathered?
    ensures
      var n := |spans| - 1;
      var g, name := Specified(dtd, open, enc, text, defaults, spans[..n]), NameAt(enc, text, spans[n].name);
      && g.Gathered? && name !in g.seen
      && var v := ValueOf(dtd, open, enc, text, spans[n], IsCdata(defaults, name));
      && v.Val?
      && Specified(dtd, open, enc, text, defaults, spans) == AddItem(g.(seen := g.seen + {name}), name, v.bytes)
  {
    hide ValueOf, AddItem, NameAt;
  }

  lemma ValueIs(dtd: Dtd, open: set<Text>, enc: Enc, text: Text, defaults: seq<Default>, sp: T.Span)
    requires InText(text, sp)
    ensures
      var v := ValueOf(dtd, open, enc, text, sp, IsCdata(defaults, NameAt(enc, text, sp.name)));
      v.Val? ==> Valued(dtd, open, enc, text, defaults, sp, v.bytes)
  {
    hide NameAt, A.Replace, A.Tokenised, TokenisedType;
    TypeIs(defaults, NameAt(enc, text, sp.name));
  }

  lemma NothingGathered()
    ensures Gathers(NOTHING, [], [], []) && SeenIs({}, [], [])
  {
  }

  lemma {:induction false} SpecifiedIs(
    dtd: Dtd, open: set<Text>, enc: Enc, text: Text, defaults: seq<Default>, spans: seq<T.Span>)
      returns (vals: seq<Text>)
    requires forall k :: 0 <= k < |spans| ==> InText(text, spans[k])
    requires Specified(dtd, open, enc, text, defaults, spans).Gathered?
    ensures AllValued(dtd, open, enc, text, defaults, spans, vals)
    ensures
      var g := Specified(dtd, open, enc, text, defaults, spans);
      Gathers(g, NamesOf(enc, text, spans), vals, []) && SeenIs(g.seen, NamesOf(enc, text, spans), [])
  {
    hide ValueOf, AddItem, NameAt, Gathers, SeenIs, Valued;
    if spans == [] {
      vals := [];
      NothingGathered();
      assert NamesOf(enc, text, spans) == [];
    } else {
      var n := |spans| - 1;
      SpecifiedBefore(dtd, open, enc, text, defaults, spans);
      var front := SpecifiedIs(dtd, open, enc, text, defaults, spans[..n]);
      var g, name := Specified(dtd, open, enc, text, defaults, spans[..n]), NameAt(enc, text, spans[n].name);
      var v := ValueOf(dtd, open, enc, text, spans[n], IsCdata(defaults, name)).bytes;
      vals := front + [v];
      ValueIs(dtd, open, enc, text, defaults, spans[n]);
      SpecifyOne(g, NamesOf(enc, text, spans[..n]), front, name, v);
      assert NamesOf(enc, text, spans) == NamesOf(enc, text, spans[..n]) + [name];
    }
  }

  // ----------------------------------------------------------------- the defaults

  lemma DefaultsToMore(defaults: seq<Default>, d: Default, name: Text, value: Text)
    ensures DefaultsTo(defaults + [d], name, value) <==>
      || DefaultsTo(defaults, name, value)
      || (Supplies(d, name) && d.value == value && forall j :: 0 <= j < |defaults| ==> !Supplies(defaults[j], name))
  {
    var ds := defaults + [d];
    if DefaultsTo(defaults, name, value) {
      var i :| 0 <= i < |defaults| && Supplies(defaults[i], name) && defaults[i].value == value
               && forall j :: 0 <= j < i ==> !Supplies(defaults[j], name);
      assert Supplies(ds[i], name) && forall j :: 0 <= j < i ==> ds[j] == defaults[j];
    }
    if Supplies(d, name) && d.value == value && forall j :: 0 <= j < |defaults| ==> !Supplies(defaults[j], name) {
      assert Supplies(ds[|defaults|], name) && forall j :: 0 <= j < |defaults| ==> ds[j] == defaults[j];
    }
    if DefaultsTo(ds, name, value) {
      var i :| 0 <= i < |ds| && Supplies(ds[i], name) && ds[i].value == value
               && forall j :: 0 <= j < i ==> !Supplies(ds[j], name);
      assert forall j :: 0 <= j < |defaults| ==> ds[j] == defaults[j];
    }
  }

  /** A declaration adds an item exactly if it is the first to supply a name that is not in the tag. */
  predicate Adds(names: seq<Text>, defaults: seq<Default>, d: Default)
  {
    && d.hasValue && !DeclaresNamespace(d.name) && d.name !in names
    && forall j :: 0 <= j < |defaults| ==> !Supplies(defaults[j], d.name)
  }

  lemma DefaultItemMore(names: seq<Text>, vals: seq<Text>, defaults: seq<Default>, items: seq<Item>, d: Default)
    requires Different(items) && InOrder(items, names) && ItemsAre(names, vals, defaults, items)
    ensures
      var more := if Adds(names, defaults, d) then items + [Item(d.name, d.value)] else items;
      Different(more) && InOrder(more, names) && ItemsAre(names, vals, defaults + [d], more)
  {
    hide DeclaresNamespace, Stands, DefaultsTo;
    var more := if Adds(names, defaults, d) then items + [Item(d.name, d.value)] else items;
    forall i | 0 <= i < |items| && Adds(names, defaults, d) ensures items[i].name != d.name {
      assert Item(items[i].name, items[i].value) in items;
      if Stands(names, vals, items[i].name, items[i].value) {
        StandsIn(names, vals, items[i].name, items[i].value);
      } else {
        Supplied(defaults, items[i].name, items[i].value);
      }
    }
    forall name, value
      ensures Item(name, value) in more <==>
        && !DeclaresNamespace(name)
        && (Stands(names, vals, name, value) || (name !in names && DefaultsTo(defaults + [d], name, value)))
    {
      DefaultsToMore(defaults, d, name, value);
      assert Item(name, value) in items <==>
        && !DeclaresNamespace(name)
        && (Stands(names, vals, name, value) || (name !in names && DefaultsTo(defaults, name, value)));
    }
    forall i, j, k | 0 <= i < j < |more| && 0 <= k < |names| &&
      names[k] == more[j].name ensures more[i].name in names[..k] {
      assert more[j] == items[j] && more[i] == items[i];
    }
  }

  lemma Supplied(defaults: seq<Default>, name: Text, value: Text)
    requires DefaultsTo(defaults, name, value)
    ensures exists j :: 0 <= j < |defaults| && Supplies(defaults[j], name)
  {
  }

  lemma DefaultDeclMore(names: seq<Text>, vals: seq<Text>, defaults: seq<Default>, decls: seq<N.Decl>, d: Default)
    requires DeclsAre(names, vals, defaults, decls)
    ensures DeclsAre(names, vals, defaults + [d],
              if d.hasValue && d.name !in names && DeclaresNamespace(d.name)
              then decls + [N.Decl(DeclaredPrefix(d.name), d.value)] else decls)
  {
    hide DeclaresNamespace, Declares;
    var more := if d.hasValue && d.name !in names && DeclaresNamespace(d.name)
                then decls + [N.Decl(DeclaredPrefix(d.name), d.value)] else decls;
    forall x ensures x in more <==>
      || (exists k :: 0 <= k < |names| && k < |vals| && Declares(names[k], vals[k], x))
      || (exists i :: 0 <= i < |defaults + [d]| && DefaultDeclares(names, (defaults + [d])[i], x))
    {
      DefaultsDeclare(names, defaults, d, x);
      DeclaresThat(d.name, d.value, x);
    }
  }

  lemma DeclaresThat(name: Text, value: Text, d: N.Decl)
    ensures Declares(name, value, d) <==> DeclaresNamespace(name) && d == N.Decl(DeclaredPrefix(name), value)
  {
  }

  lemma DefaultsDeclare(names: seq<Text>, defaults: seq<Default>, d: Default, x: N.Decl)
    ensures (exists i :: 0 <= i < |defaults + [d]| && DefaultDeclares(names, (defaults + [d])[i], x)) <==>
      (exists i :: 0 <= i < |defaults| && DefaultDeclares(names, defaults[i], x)) || DefaultDeclares(names, d, x)
  {
    hide DefaultDeclares;
    var ds := defaults + [d];
    if i :| 0 <= i < |defaults| && DefaultDeclares(names, defaults[i], x) {
      assert DefaultDeclares(names, ds[i], x);
    }
    if DefaultDeclares(names, d, x) {
      assert DefaultDeclares(names, ds[|defaults|], x);
    }
    if i :| 0 <= i < |ds| && DefaultDeclares(names, ds[i], x) {
      assert i < |defaults| ==> ds[i] == defaults[i];
    }
  }

  lemma SupplyOne(g: Gathered, names: seq<Text>, vals: seq<Text>, defaults: seq<Default>, d: Default)
    requires g.Gathered? && Gathers(g, names, vals, defaults) && SeenIs(g.seen, names, defaults)
    requires Supply(g, d).Gathered?
    ensures Gathers(Supply(g, d), names, vals, defaults + [d]) && SeenIs(Supply(g, d).seen, names, defaults + [d])
  {
    hide Different, InOrder, ItemsAre, DeclsAre, DeclaresNamespace, KindOf, N.Check, SeenIs;
    KindIs(d.name);
    assert d.name in g.seen ==> g.seen + {d.name} == g.seen;
    SeenMore(g.seen, names, defaults, d);
    DefaultItemMore(names, vals, defaults, g.items, d);
    DefaultDeclMore(names, vals, defaults, g.decls, d);
  }

  lemma SeenMore(seen: set<Text>, names: seq<Text>, defaults: seq<Default>, d: Default)
    requires SeenIs(seen, names, defaults)
    ensures d.hasValue && !DeclaresNamespace(d.name) ==> (Adds(names, defaults, d) <==> d.name !in seen)
    ensures d.hasValue && DeclaresNamespace(d.name) ==> (d.name in names <==> d.name in seen)
    ensures SeenIs(if d.hasValue && !DeclaresNamespace(d.name) then seen + {d.name} else seen, names, defaults + [d])
  {
    hide DeclaresNamespace;
    var ds := defaults + [d];
    var more := if d.hasValue && !DeclaresNamespace(d.name) then seen + {d.name} else seen;
    forall i | 0 <= i < |ds| && ds[i].hasValue && !DeclaresNamespace(ds[i].name) ensures ds[i].name in more {
      assert i < |defaults| ==> ds[i] == defaults[i];
    }
    forall x | x in more
      ensures x in names || (!DeclaresNamespace(x) && exists i :: 0 <= i < |ds| && Supplies(ds[i], x))
    {
      if x !in seen {
        assert Supplies(ds[|defaults|], x);
      } else if x !in names {
        var i :| 0 <= i < |defaults| && Supplies(defaults[i], x);
        assert Supplies(ds[i], x);
      }
    }
    if d.name in seen && d.name !in names {
      var i :| 0 <= i < |defaults| && Supplies(defaults[i], d.name);
    }
    forall j | 0 <= j < |defaults| && Supplies(defaults[j], d.name) && !DeclaresNamespace(d.name)
      ensures d.name in seen
    {
      assert defaults[j].name in seen;
    }
  }

  lemma {:induction false} DefaultedIs(g: Gathered, names: seq<Text>, vals: seq<Text>, defaults: seq<Default>)
    requires Defaulted(g, defaults).Gathered?
    requires g.Gathered? ==> Gathers(g, names, vals, []) && SeenIs(g.seen, names, [])
    ensures g.Gathered? && Gathers(Defaulted(g, defaults), names, vals, defaults)
    ensures SeenIs(Defaulted(g, defaults).seen, names, defaults)
  {
    hide Supply, Gathers, SeenIs;
    if defaults != [] {
      var n := |defaults| - 1;
      SupplyFault(Defaulted(g, defaults[..n]), defaults[n]);
      DefaultedIs(g, names, vals, defaults[..n]);
      SupplyOne(Defaulted(g, defaults[..n]), names, vals, defaults[..n], defaults[n]);
      assert defaults == defaults[..n] + [defaults[n]];
    }
  }

  lemma SupplyFault(g: Gathered, d: Default)
    requires Supply(g, d).Gathered?
    ensures g.Gathered?
  {
  }

  // --------------------------------------------------------- which tags are refused

  /** Namespaces in XML has no objection to a declaration, if it is one. */
  predicate Allowed(name: Text, value: Text)
  {
    DeclaresNamespace(name) ==> N.Check(N.Decl(DeclaredPrefix(name), value)) == N.NoError
  }

  /** An attribute of the tag has a value, and may have it. */
  ghost predicate Proper(dtd: Dtd, open: set<Text>, enc: Enc, text: Text, defaults: seq<Default>, sp: T.Span)
    requires InText(text, sp)
  {
    exists v :: Valued(dtd, open, enc, text, defaults, sp, v) && Allowed(NameAt(enc, text, sp.name), v)
  }

  lemma AddAllowed(g: Gathered, name: Text, value: Text)
    requires g.Gathered?
    ensures AddItem(g, name, value).Gathered? <==> Allowed(name, value)
  {
    hide DeclaresNamespace, KindOf, N.Check;
    KindIs(name);
  }

  lemma ValueIff(dtd: Dtd, open: set<Text>, enc: Enc, text: Text, defaults: seq<Default>, g: Gathered, sp: T.Span)
    requires InText(text, sp) && g.Gathered?
    ensures Specify(dtd, open, enc, text, defaults, g, sp).Gathered? <==>
      NameAt(enc, text, sp.name) !in g.seen && Proper(dtd, open, enc, text, defaults, sp)
  {
    hide NameAt, A.Replace, A.Tokenised, TokenisedType, AddItem, Allowed;
    var name := NameAt(enc, text, sp.name);
    TypeIs(defaults, name);
    var v := ValueOf(dtd, open, enc, text, sp, IsCdata(defaults, name));
    if v.Val? {
      AddAllowed(g.(seen := g.seen + {name}), name, v.bytes);
      assert Valued(dtd, open, enc, text, defaults, sp, v.bytes);
    }
  }

  /** The attributes of the tag are refused exactly if two names are equal or one is not proper. */
  lemma {:induction false} SpecifiedIff(
    dtd: Dtd, open: set<Text>, enc: Enc, text: Text, defaults: seq<Default>, spans: seq<T.Span>)
    requires forall k :: 0 <= k < |spans| ==> InText(text, spans[k])
    ensures Specified(dtd, open, enc, text, defaults, spans).Gathered? <==>
      && DifferentNames(NamesOf(enc, text, spans))
      && forall k :: 0 <= k < |spans| ==> Proper(dtd, open, enc, text, defaults, spans[k])
  {
    hide NameAt, Proper, Specify, Specified, Gathers, SeenIs, DifferentNames, NamesOf, InText;
    NamesSnoc(dtd, open, enc, text, defaults, spans);
    if spans != [] {
      var n := |spans| - 1;
      var front, g := spans[..n], Specified(dtd, open, enc, text, defaults, spans[..n]);
      SpecifiedIff(dtd, open, enc, text, defaults, front);
      if g.Gathered? {
        var vals := SpecifiedIs(dtd, open, enc, text, defaults, front);
        ValueIff(dtd, open, enc, text, defaults, g, spans[n]);
        SeenNames(g.seen, NamesOf(enc, text, front), NameAt(enc, text, spans[n].name));
      } else {
        FaultStays(dtd, open, enc, text, defaults, g, spans[n]);
      }
      DifferentSnoc(NamesOf(enc, text, spans), n);
      assert forall k :: 0 <= k < n ==> front[k] == spans[k];
    }
  }

  /** The last of the attributes. */
  lemma NamesSnoc(dtd: Dtd, open: set<Text>, enc: Enc, text: Text, defaults: seq<Default>, spans: seq<T.Span>)
    requires forall k :: 0 <= k < |spans| ==> InText(text, spans[k])
    ensures spans == [] ==>
      DifferentNames(NamesOf(enc, text, spans)) && Specified(dtd, open, enc, text, defaults, spans) == NOTHING
    ensures spans != [] ==>
      var n, names := |spans| - 1, NamesOf(enc, text, spans);
      && |names| == n + 1 && names[..n] == NamesOf(enc, text, spans[..n]) &&
        names[n] == NameAt(enc, text, spans[n].name)
      && Specified(dtd, open, enc, text, defaults, spans) ==
         Specify(dtd, open, enc, text, defaults, Specified(dtd, open, enc, text, defaults, spans[..n]), spans[n])
  {
    hide NameAt, Specify;
    if spans != [] { assert NamesOf(enc, text, spans)[..|spans| - 1] == NamesOf(enc, text, spans[..|spans| - 1]); }
  }

  lemma FaultStays(dtd: Dtd, open: set<Text>, enc: Enc, text: Text, defaults: seq<Default>, g: Gathered, sp: T.Span)
    requires InText(text, sp) && !g.Gathered?
    ensures !Specify(dtd, open, enc, text, defaults, g, sp).Gathered?
  {
  }

  lemma SeenNames(seen: set<Text>, names: seq<Text>, name: Text)
    requires SeenIs(seen, names, [])
    ensures name in seen <==> name in names
  {
  }

  lemma DifferentSnoc(names: seq<Text>, n: nat)
    requires |names| == n + 1
    ensures DifferentNames(names) <==> DifferentNames(names[..n]) && names[n] !in names[..n]
  {
    if DifferentNames(names[..n]) && names[n] !in names[..n] {
      forall j, k | 0 <= j < k < |names| ensures names[j] != names[k] {
        assert names[j] == names[..n][j];
        assert k < n ==> names[k] == names[..n][k];
      }
    }
  }

  /** A declared default does no harm. */
  predicate Harmless(names: seq<Text>, d: Default) { d.hasValue && d.name !in names ==> Allowed(d.name, d.value) }

  lemma SupplyIff(g: Gathered, names: seq<Text>, defaults: seq<Default>, d: Default)
    requires g.Gathered? && SeenIs(g.seen, names, defaults)
    ensures Supply(g, d).Gathered? <==> Harmless(names, d)
  {
    hide SeenIs, AddItem, DeclaresNamespace, N.Check, KindOf;
    SeenMore(g.seen, names, defaults, d);
    KindIs(d.name);
    AddAllowed(if KindOf(d.name).Xmlns? then g else g.(seen := g.seen + {d.name}), d.name, d.value);
  }

  lemma {:induction false} DefaultedIff(g: Gathered, names: seq<Text>, vals: seq<Text>, defaults: seq<Default>)
    requires g.Gathered? && Gathers(g, names, vals, []) && SeenIs(g.seen, names, [])
    ensures Defaulted(g, defaults).Gathered? <==> forall i :: 0 <= i < |defaults| ==> Harmless(names, defaults[i])
  {
    hide Supply, Gathers, SeenIs, Harmless;
    if defaults != [] {
      var n := |defaults| - 1;
      var before := Defaulted(g, defaults[..n]);
      DefaultedIff(g, names, vals, defaults[..n]);
      if before.Gathered? {
        DefaultedIs(g, names, vals, defaults[..n]);
        SupplyIff(before, names, defaults[..n], defaults[n]);
      } else {
        SupplyFaulty(before, defaults[n]);
      }
      assert forall i :: 0 <= i < n ==> defaults[..n][i] == defaults[i];
    }
  }

  lemma SupplyFaulty(g: Gathered, d: Default)
    requires !g.Gathered?
    ensures !Supply(g, d).Gathered?
  {
  }

  /**
    A tag is accepted exactly if its names differ, every attribute has a value that it may
    have, no default declares what must not be declared, the prefixed attributes pass, and
    the prefix of the element has a meaning.
  */
  lemma StoredIff(dtd: Dtd, enc: Enc, open: set<Text>, stack: seq<C.Tag>, text: Text)
    requires IsTag(enc, text)
    ensures text != [] && forall k :: 0 <= k < |SpansOf(enc, text)| ==> InText(text, SpansOf(enc, text)[k])
    ensures
      var spans, element := SpansOf(enc, text), NameAt(enc, text, 1);
      var names, defaults := NamesOf(enc, text, spans), DefaultsOf(dtd, element);
      var g := Defaulted(Specified(dtd, open, enc, text, defaults, spans), defaults);
      Attributed(dtd, enc, open, stack, text).Atts? <==>
        && DifferentNames(names)
        && (forall k :: 0 <= k < |spans| ==> Proper(dtd, open, enc, text, defaults, spans[k]))
        && (forall i :: 0 <= i < |defaults| ==> Harmless(names, defaults[i]))
        && g.Gathered?
        && var decls := dtd.inherited + Bindings(stack) + g.decls;
        && X.Judge(PrefixedAtts(dtd, decls, g.items), |PrefixedAtts(dtd, decls, g.items)|) == X.Fine
        && ElementBound(decls, element)
  {
    hide IsTag, SpansOf, NameAt, Specified, Defaulted, Bindings, Listed, PrefixedAtts, X.Judge, ElementBound, Proper;
    hide Harmless, Gathers, SeenIs, DifferentNames;
    TagText(enc, text);
    SpansIn(enc, text);
    var spans, defaults := SpansOf(enc, text), DefaultsOf(dtd, NameAt(enc, text, 1));
    var s := Specified(dtd, open, enc, text, defaults, spans);
    SpecifiedIff(dtd, open, enc, text, defaults, spans);
    GatheredFirst(s, defaults);
    if s.Gathered? {
      var vals := SpecifiedIs(dtd, open, enc, text, defaults, spans);
      DefaultedIff(s, NamesOf(enc, text, spans), vals, defaults);
    }
  }

  // ------------------------------------------------------------------ the theorem

  /**
    Of every tag that storeAtts does not refuse: the names of its attributes differ; those
    in the tag come first, in its order, each with its own value; a declared default is
    there exactly if the tag says nothing of its name, with its first declared value; and
    the namespaces declared are those of the attributes and defaults named for it.
  */
  lemma WhichAttributes(dtd: Dtd, enc: Enc, open: set<Text>, stack: seq<C.Tag>, text: Text)
      returns (items: seq<Item>, vals: seq<Text>)
    requires IsTag(enc, text) && Attributed(dtd, enc, open, stack, text).Atts?
    ensures text != [] && forall k :: 0 <= k < |SpansOf(enc, text)| ==> InText(text, SpansOf(enc, text)[k])
    ensures
      var r, names := Attributed(dtd, enc, open, stack, text), NamesOf(enc, text, SpansOf(enc, text));
      var defaults := DefaultsOf(dtd, NameAt(enc, text, 1));
      && AllValued(dtd, open, enc, text, defaults, SpansOf(enc, text), vals)
      && DifferentNames(names) && Different(items) && InOrder(items, names)
      && ItemsAre(names, vals, defaults, items) && DeclsAre(names, vals, defaults, r.bindings)
      && r.values == Listed(dtd, dtd.inherited + Bindings(stack) + r.bindings, items)
  {
    hide IsTag, SpansOf, NameAt, Specified, Defaulted, Bindings, Listed, PrefixedAtts, X.Judge;
    TagText(enc, text);
    SpansIn(enc, text);
    var spans, defaults := SpansOf(enc, text), DefaultsOf(dtd, NameAt(enc, text, 1));
    var g := Specified(dtd, open, enc, text, defaults, spans);
    GatheredFirst(g, defaults);
    vals := SpecifiedIs(dtd, open, enc, text, defaults, spans);
    DefaultedIs(g, NamesOf(enc, text, spans), vals, defaults);
    items := Defaulted(g, defaults).items;
  }

  lemma {:induction false} GatheredFirst(g: Gathered, defaults: seq<Default>)
    ensures Defaulted(g, defaults).Gathered? ==> g.Gathered?
  {
    hide Supply;
    if defaults != [] {
      GatheredFirst(g, defaults[..|defaults| - 1]);
      if Defaulted(g, defaults).Gathered? {
        SupplyFault(Defaulted(g, defaults[..|defaults| - 1]), defaults[|defaults| - 1]);
      }
    }
  }

  // ------------------------------------------------------------- reported names

  lemma {:induction false} ColonIs(p: Text, l: Text)
    requires COLON_CHAR !in p
    ensures ColonAt(p + [COLON_CHAR] + l) == |p|
  {
    var name := p + [COLON_CHAR] + l;
    if p != [] {
      assert name[1..] == p[1..] + [COLON_CHAR] + l;
      ColonIs(p[1..], l);
    }
  }

  /** A prefixed name is reported as the URI of its prefix, the local part and, in triplets, the prefix. */
  lemma ReportedIs(dtd: Dtd, decls: seq<N.Decl>, p: Text, l: Text)
    requires COLON_CHAR !in p && !DeclaresNamespace(p + [COLON_CHAR] + l)
    ensures
      var m, sep := N.Meaning(decls, N.Prefix(p)), if dtd.separator != 0 then [dtd.separator] else [];
      Reported(dtd, decls, p + [COLON_CHAR] + l) ==
        if m.Bound? then m.uri + sep + l + (if dtd.triplets then [dtd.separator] + p else [])
        else p + [COLON_CHAR] + l
  {
    hide N.Meaning;
    var name := p + [COLON_CHAR] + l;
    KindIs(name);
    ColonIs(p, l);
    assert name[..|p|] == p && name[|p| + 1..] == l;
    var m, sep := N.Meaning(decls, N.Prefix(p)), if dtd.separator != 0 then [dtd.separator] else [];
    if m.Bound? {
      assert m.uri + sep == N.Stored(dtd.separator, m.uri);
    }
  }

  lemma PlainReported(dtd: Dtd, decls: seq<N.Decl>, name: Text)
    requires COLON_CHAR !in name
    ensures Reported(dtd, decls, name) == name
  {
    NoColon(name);
  }

  lemma {:induction false} NoColon(name: Text)
    requires COLON_CHAR !in name
    ensures ColonAt(name) == |name|
  {
    if name != [] {
      assert name[0] in name;
      NoColon(name[1..]);
    }
  }
}
