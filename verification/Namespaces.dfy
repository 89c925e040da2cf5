/**
  Namespace scoping: addBinding, and the unwinding at end tags and empty elements.

  Declarations in force form a stack; `Meaning` is the declaration of a prefix on the
  innermost open element. The source keeps, in linked BINDING objects that it recycles,
  only the current binding of each prefix and the one it shadows. Scopes is that code:
  whatever is started and ended, every prefix points at its meaning.
*/
module Namespaces {
  import opened Scanner
  import opened Orders

  /** A PREFIX; the default namespace has no name. */
  datatype Prefix = Default | Prefix(name: Text)

  datatype Decl = Decl(prefix: Prefix, uri: Text)

  datatype Error = NoError | UndeclaringPrefix | ReservedPrefixXml | ReservedPrefixXmlns | ReservedNamespaceUri

  /** "xml" */
  const XML: Text := [0x78, 0x6D, 0x6C]

  /** "xmlns" */
  const XMLNS: Text := [0x78, 0x6D, 0x6C, 0x6E, 0x73]

  /** "http://www.w3.org/XML/1998/namespace" */
  const XML_NAMESPACE: Text := [
    0x68, 0x74, 0x74, 0x70, 0x3A, 0x2F, 0x2F, 0x77, 0x77, 0x77, 0x2E, 0x77, 0x33, 0x2E, 0x6F, 0x72, 0x67, 0x2F, 0x58,
    0x4D, 0x4C, 0x2F, 0x31, 0x39, 0x39, 0x38, 0x2F, 0x6E, 0x61, 0x6D, 0x65, 0x73, 0x70, 0x61, 0x63, 0x65]

  /** "http://www.w3.org/2000/xmlns/" */
  const XMLNS_NAMESPACE: Text := [
    0x68, 0x74, 0x74, 0x70, 0x3A, 0x2F, 0x2F, 0x77, 0x77, 0x77, 0x2E, 0x77, 0x33, 0x2E, 0x6F, 0x72, 0x67, 0x2F, 0x32,
    0x30, 0x30, 0x30, 0x2F, 0x78, 0x6D, 0x6C, 0x6E, 0x73, 0x2F]

  // ------------------------------------------------------------- declarations

  /** Why a declaration is refused, or NoError: section 3 of Namespaces in XML 1.0. */
  function Check(d: Decl): Error
  {
    if d.uri == [] && d.prefix.Prefix? then UndeclaringPrefix
    else if d.prefix == Prefix(XMLNS) then ReservedPrefixXmlns
    else if d.prefix == Prefix(XML) then (if d.uri == XML_NAMESPACE then NoError else ReservedPrefixXml)
    else if d.uri == XML_NAMESPACE || d.uri == XMLNS_NAMESPACE then ReservedNamespaceUri
    else NoError
  }

  /** The last declaration of a prefix, or -1. */
  function Last(decls: seq<Decl>, p: Prefix): (r: int)
    ensures -1 <= r < |decls| && (r >= 0 ==> decls[r].prefix == p)
  {
    if decls == [] then -1
    else if decls[|decls| - 1].prefix == p then |decls| - 1
    else Last(decls[..|decls| - 1], p)
  }

  datatype Name = Unbound | Bound(uri: Text)

  /** The namespace of a prefix: its innermost declaration, an empty default undeclaring it. */
  function Meaning(decls: seq<Decl>, p: Prefix): Name
  {
    var k := Last(decls, p);
    if k < 0 || decls[k].uri == [] then Unbound else Bound(decls[k].uri)
  }

  lemma LastSnoc(decls: seq<Decl>, d: Decl, p: Prefix)
    ensures Last(decls + [d], p) == if d.prefix == p then |decls| else Last(decls, p)
  {
    assert (decls + [d])[..|decls|] == decls;
  }

  predicate Legal(d: Decl) { Check(d) == NoError }

  /** Reserved names stay reserved. */
  lemma Reserved(decls: seq<Decl>, p: Prefix)
    requires forall k :: 0 <= k < |decls| ==> Legal(decls[k])
    ensures
      var m := Meaning(decls, p);
      && (p == Prefix(XML) ==> m == Unbound || m == Bound(XML_NAMESPACE))
      && (p == Prefix(XMLNS) ==> m == Unbound)
      && (p != Prefix(XML) ==> m != Bound(XML_NAMESPACE) && m != Bound(XMLNS_NAMESPACE))
  {
    var k := Last(decls, p);
    if k >= 0 {
      assert Legal(decls[k]);
      Lengths();
    }
  }

  lemma Lengths()
    ensures |XML_NAMESPACE| == 36 && |XMLNS_NAMESPACE| == 29
  {
  }

  // ------------------------------------------------------------ open elements

  ghost predicate Parted(decls: seq<Decl>, starts: seq<nat>)
    decreases |starts|
  {
    && |starts| > 0
    && (var t := |starts| - 1;
        if t == 0 then starts[0] == 0 else starts[t] <= |decls| && Parted(decls[..starts[t]], starts[..t]))
  }

  /** The declarations on each open element, outermost first. */
  ghost function Parts(decls: seq<Decl>, starts: seq<nat>): (r: seq<seq<Decl>>)
    requires Parted(decls, starts)
    ensures |r| == |starts|
    decreases |starts|
  {
    var t := |starts| - 1;
    if t == 0 then [decls] else Parts(decls[..starts[t]], starts[..t]) + [decls[starts[t]..]]
  }

  lemma PartsMore(decls: seq<Decl>, starts: seq<nat>, ds: seq<Decl>)
    requires Parted(decls, starts)
    ensures Parted(decls + ds, starts + [|decls|])
    ensures Parts(decls + ds, starts + [|decls|]) == Parts(decls, starts) + [ds]
  {
    assert (starts + [|decls|])[..|starts|] == starts && (decls + ds)[..|decls|] == decls &&
      (decls + ds)[|decls|..] == ds;
  }

  lemma PartsLess(decls: seq<Decl>, starts: seq<nat>)
    requires Parted(decls, starts) && |starts| > 1
    ensures
      var t := |starts| - 1;
      && starts[t] <= |decls| && Parted(decls[..starts[t]], starts[..t])
      && Parts(decls, starts)[..t] == Parts(decls[..starts[t]], starts[..t])
  {
  }

  /** The declaration on the innermost element that declares the prefix: section 6.1 of Namespaces in XML 1.0. */
  ghost function Innermost(open: seq<seq<Decl>>, p: Prefix): Name
  {
    if open == [] then Unbound
    else
      var t := |open| - 1;
      if Last(open[t], p) >= 0 then Meaning(open[t], p) else Innermost(open[..t], p)
  }

  lemma {:induction false} LastConcat(a: seq<Decl>, b: seq<Decl>, p: Prefix)
    ensures Last(a + b, p) == if Last(b, p) >= 0 then |a| + Last(b, p) else Last(a, p)
  {
    if b == [] {
      assert a + b == a;
    } else {
      var front, d := b[..|b| - 1], b[|b| - 1];
      LastConcat(a, front, p);
      LastSnoc(a + front, d, p);
      assert a + b == (a + front) + [d];
    }
  }

  /** The stack of declarations means what the elements mean. */
  lemma {:induction false} MeaningIsInnermost(decls: seq<Decl>, starts: seq<nat>, p: Prefix)
    requires Parted(decls, starts)
    ensures Meaning(decls, p) == Innermost(Parts(decls, starts), p)
    decreases |starts|
  {
    hide Last;
    var t, parts := |starts| - 1, Parts(decls, starts);
    if t == 0 {
      assert parts[..0] == [] && parts[0] == decls;
    } else {
      var a, b := decls[..starts[t]], decls[starts[t]..];
      assert decls == a + b;
      LastConcat(a, b, p);
      MeaningIsInnermost(a, starts[..t], p);
      assert parts[..t] == Parts(a, starts[..t]) && parts[t] == b;
    }
  }

  // --------------------------------------------------------------- the objects

  class Binding {
    var prefix: Prefix
    var uri: Text               // with the separator, if there is one
    var prev: Binding?          // prevPrefixBinding
    var next: Binding?          // nextTagBinding

    constructor ()
    {
      prefix, uri, prev, next := Default, [], null, null;
    }
  }

  /** The binding in force for a prefix. */
  ghost function Ref(decls: seq<Decl>, stack: seq<Binding>, p: Prefix): Binding?
    requires |decls| <= |stack|
  {
    var k := Last(decls, p);
    if k < 0 || decls[k].uri == [] then null else stack[k]
  }

  lemma RefSnoc(decls: seq<Decl>, stack: seq<Binding>, d: Decl, b: Binding, p: Prefix)
    requires |decls| == |stack|
    ensures Ref(decls + [d], stack + [b], p) ==
      if p == d.prefix then (if d.uri == [] then null else b) else Ref(decls, stack, p)
  {
    LastSnoc(decls, d, p);
  }

  /** One tag's list, newest binding first: the part of the stack from `lo` on. */
  ghost predicate Chained(head: Binding?, stack: seq<Binding>, next: seq<Binding?>, lo: nat)
  {
    && lo <= |stack| == |next|
    && (head == if lo == |stack| then null else stack[|stack| - 1])
    && forall k :: lo <= k < |stack| ==> next[k] == if k == lo then null else stack[k - 1]
  }

  /** The lists of all open tags, each over its part of the stack. */
  ghost predicate Linked(heads: seq<Binding?>, starts: seq<nat>, stack: seq<Binding>, next: seq<Binding?>)
    decreases |heads|
  {
    && |starts| == |heads| > 0
    && (var t := |heads| - 1;
        && Chained(heads[t], stack, next, starts[t])
        && if t == 0 then starts[0] == 0
           else Linked(heads[..t], starts[..t], stack[..starts[t]], next[..starts[t]]))
  }

  ghost predicate FreeChain(head: Binding?, free: seq<Binding>, next: seq<Binding?>)
  {
    && |next| == |free|
    && (head == if free == [] then null else free[0])
    && forall k :: 0 <= k < |free| ==> next[k] == if k + 1 < |free| then free[k + 1] else null
  }

  /** Each of these objects is on exactly one of the two lists, and once. */
  ghost predicate Owned(stack: seq<Binding>, free: seq<Binding>, made: set<Binding>)
  {
    && Distinct(stack) && Distinct(free)
    && (forall k :: 0 <= k < |stack| ==> stack[k] !in free)
    && made == (set b | b in stack) + (set b | b in free)
  }

  lemma OwnedTake(stack: seq<Binding>, free: seq<Binding>, made: set<Binding>)
    requires Owned(stack, free, made) && free != []
    ensures Owned(stack, free[1..], made - {free[0]})
  {
    assert free == [free[0]] + free[1..];
  }

  lemma FreeTake(head: Binding?, free: seq<Binding>, next: seq<Binding?>)
    requires FreeChain(head, free, next) && head != null
    ensures free != [] && head == free[0] && |next| == |free| && FreeChain(next[0], free[1..], next[1..])
  {
  }

  lemma FreeGive(head: Binding?, free: seq<Binding>, next: seq<Binding?>, b: Binding)
    requires FreeChain(head, free, next)
    ensures FreeChain(b, [b] + free, [head] + next)
  {
  }

  lemma OwnedPush(stack: seq<Binding>, free: seq<Binding>, made: set<Binding>, b: Binding)
    requires Owned(stack, free, made) && b !in made
    ensures Owned(stack + [b], free, made + {b})
  {
  }

  lemma OwnedRelease(stack: seq<Binding>, free: seq<Binding>, made: set<Binding>)
    requires Owned(stack, free, made) && stack != []
    ensures Owned(stack[..|stack| - 1], [stack[|stack| - 1]] + free, made)
  {
    var b := stack[|stack| - 1];
    assert stack == stack[..|stack| - 1] + [b];
  }

  lemma LinkedPush(heads: seq<Binding?>, starts: seq<nat>, stack: seq<Binding>, next: seq<Binding?>, b: Binding)
    requires Linked(heads, starts, stack, next)
    ensures Linked(heads[|heads| - 1 := b], starts, stack + [b], next + [heads[|heads| - 1]])
  {
    var t := |heads| - 1;
    assert heads[t := b][..t] == heads[..t];
    assert (stack + [b])[..starts[t]] == stack[..starts[t]];
    assert (next + [heads[t]])[..starts[t]] == next[..starts[t]];
  }

  lemma LinkedPop(heads: seq<Binding?>, starts: seq<nat>, stack: seq<Binding>, next: seq<Binding?>)
    requires Linked(heads, starts, stack, next) && heads[|heads| - 1] != null
    ensures
      var n, t := |stack| - 1, |heads| - 1;
      n >= starts[t] && heads[t] == stack[n] && Linked(heads[t := next[n]], starts, stack[..n], next[..n])
  {
    var n, t := |stack| - 1, |heads| - 1;
    assert heads[t := next[n]][..t] == heads[..t];
    assert stack[..n][..starts[t]] == stack[..starts[t]];
    assert next[..n][..starts[t]] == next[..starts[t]];
  }

  lemma LinkedOpen(heads: seq<Binding?>, starts: seq<nat>, stack: seq<Binding>, next: seq<Binding?>)
    requires Linked(heads, starts, stack, next)
    ensures Linked(heads + [null], starts + [|stack|], stack, next)
  {
    var t := |heads|;
    assert (heads + [null])[..t] == heads && (starts + [|stack|])[..t] == starts;
    assert stack[..|stack|] == stack && next[..|stack|] == next;
  }

  lemma LinkedShut(heads: seq<Binding?>, starts: seq<nat>, stack: seq<Binding>, next: seq<Binding?>)
    requires Linked(heads, starts, stack, next) && |heads| > 1 && heads[|heads| - 1] == null
    ensures |stack| == starts[|starts| - 1]
    ensures Linked(heads[..|heads| - 1], starts[..|starts| - 1], stack, next)
  {
    assert stack[..|stack|] == stack && next[..|stack|] == next;
  }

  function Stored(separator: Byte, uri: Text): Text { if separator != 0 then uri + [separator] else uri }

  /** The fields of a binding. */
  datatype Rec = Rec(prefix: Prefix, uri: Text, prev: Binding?, next: Binding?)

  ghost function RecOf(b: Binding): Rec
    reads b
  {
    Rec(b.prefix, b.uri, b.prev, b.next)
  }

  /** Binding `k` says what declaration `k` declares and what it shadows. */
  ghost predicate Declares(r: Rec, separator: Byte, decls: seq<Decl>, stack: seq<Binding>, k: nat)
    requires k < |decls| <= |stack|
  {
    && r.prefix == decls[k].prefix && r.uri == Stored(separator, decls[k].uri) && Legal(decls[k])
    && r.prev == Ref(decls[..k], stack, r.prefix)
  }

  ghost predicate Good(recs: seq<Rec>, separator: Byte, decls: seq<Decl>, stack: seq<Binding>, next: seq<Binding?>)
  {
    && |recs| == |decls| == |stack| == |next|
    && forall k :: 0 <= k < |recs| ==> Declares(recs[k], separator, decls, stack, k) && recs[k].next == next[k]
  }

  function Get(current: map<Prefix, Binding?>, p: Prefix): Binding? { if p in current then current[p] else null }

  /** prefix->binding is the binding in force, for every prefix. */
  ghost predicate Points(current: map<Prefix, Binding?>, decls: seq<Decl>, stack: seq<Binding>)
    requires |decls| <= |stack|
  {
    forall p :: Get(current, p) == Ref(decls, stack, p)
  }

  lemma DeclaresOn(r: Rec, separator: Byte, decls: seq<Decl>, stack: seq<Binding>, k: nat, decls': seq<Decl>,
      stack': seq<Binding>)
    requires k < |decls| <= |stack| && |decls'| <= |stack'| && decls <= decls' && stack <= stack'
    ensures Declares(r, separator, decls, stack, k) <==> Declares(r, separator, decls', stack', k)
  {
    hide Last, Legal;
    assert decls'[..k] == decls[..k];
  }

  lemma GoodPush(recs: seq<Rec>, separator: Byte, decls: seq<Decl>, stack: seq<Binding>, next: seq<Binding?>,
                 d: Decl, b: Binding, link: Binding?)
    requires Good(recs, separator, decls, stack, next) && Legal(d)
    ensures Good(recs + [Rec(d.prefix, Stored(separator, d.uri), Ref(decls, stack, d.prefix), link)], separator,
                 decls + [d], stack + [b], next + [link])
  {
    hide Last, Legal;
    var n := |recs|;
    var recs' := recs + [Rec(d.prefix, Stored(separator, d.uri), Ref(decls, stack, d.prefix), link)];
    var decls', stack', next' := decls + [d], stack + [b], next + [link];
    forall k | 0 <= k < n + 1 ensures Declares(recs'[k], separator, decls', stack', k) && recs'[k].next == next'[k] {
      if k < n {
        DeclaresOn(recs[k], separator, decls, stack, k, decls', stack');
      } else {
        assert decls'[..n] == decls;
      }
    }
  }

  lemma GoodPop(recs: seq<Rec>, separator: Byte, decls: seq<Decl>, stack: seq<Binding>, next: seq<Binding?>)
    requires Good(recs, separator, decls, stack, next) && recs != []
    ensures
      var n := |recs| - 1;
      Good(recs[..n], separator, decls[..n], stack[..n], next[..n])
  {
    hide Declares;
    var n := |recs| - 1;
    forall k | 0 <= k < n ensures Declares(recs[k], separator, decls[..n], stack[..n], k) {
      DeclaresOn(recs[k], separator, decls[..n], stack[..n], k, decls, stack);
    }
  }

  lemma PointsPush(current: map<Prefix, Binding?>, decls: seq<Decl>, stack: seq<Binding>, d: Decl, b: Binding)
    requires |decls| == |stack| && Points(current, decls, stack)
    ensures Points(current[d.prefix := if d.uri == [] then null else b], decls + [d], stack + [b])
  {
    hide Ref;
    var current' := current[d.prefix := if d.uri == [] then null else b];
    forall p ensures Get(current', p) == Ref(decls + [d], stack + [b], p) {
      RefSnoc(decls, stack, d, b, p);
      assert Get(current, p) == Ref(decls, stack, p);
    }
  }

  lemma PointsPop(current: map<Prefix, Binding?>, recs: seq<Rec>, separator: Byte, decls: seq<Decl>,
      stack: seq<Binding>, next: seq<Binding?>)
    requires Good(recs, separator, decls, stack, next) && recs != [] && Points(current, decls, stack)
    ensures
      var n := |recs| - 1;
      Points(current[recs[n].prefix := recs[n].prev], decls[..n], stack[..n])
  {
    hide Legal, Last;
    var n := |recs| - 1;
    assert Declares(recs[n], separator, decls, stack, n);
    assert decls == decls[..n] + [decls[n]] && stack == stack[..n] + [stack[n]];
    var current' := current[recs[n].prefix := recs[n].prev];
    forall p ensures Get(current', p) == Ref(decls[..n], stack[..n], p) {
      RefSnoc(decls[..n], stack[..n], decls[n], stack[n], p);
      assert Get(current, p) == Ref(decls, stack, p);
    }
  }

  /** The first `len` characters are those of the name. */
  ghost predicate Agree(uri: Text, name: Text, len: nat)
    requires len <= |uri|
  {
    len <= |name| && uri[..len] == name[..len]
  }

  lemma AgreeStep(uri: Text, name: Text, len: nat)
    requires len < |uri|
    ensures Agree(uri, name, len + 1) <==> Agree(uri, name, len) && len < |name| && uri[len] == name[len]
  {
    if len < |name| {
      assert uri[..len + 1] == uri[..len] + [uri[len]] && name[..len + 1] == name[..len] + [name[len]];
    }
  }

  lemma AgreeEnds(uri: Text, name: Text)
    ensures Agree(uri, name, 0)
    ensures Agree(uri, name, |uri|) && |uri| == |name| <==> uri == name
  {
    assert uri[..|uri|] == uri && name[..|name|] == name;
  }

  /** What the lists hold: the book that Scopes keeps for the proof. */
  datatype Book = Book(
    stack: seq<Binding>,       // bindings in force, oldest first
    next: seq<Binding?>,       // their links
    recs: seq<Rec>,            // their fields
    decls: seq<Decl>,          // what they declare
    starts: seq<nat>,          // where each open tag's bindings start
    free: seq<Binding>,
    freeNext: seq<Binding?>,
    made: set<Binding>)        // all bindings there are

  ghost predicate Kept(book: Book, separator: Byte, current: map<Prefix, Binding?>, freeList: Binding?,
      heads: seq<Binding?>)
  {
    && |book.recs| == |book.decls| == |book.stack| == |book.next| && |book.free| == |book.freeNext|
    && |heads| == |book.starts| > 0
    && Owned(book.stack, book.free, book.made)
    && Linked(heads, book.starts, book.stack, book.next)
    && FreeChain(freeList, book.free, book.freeNext)
    && Good(book.recs, separator, book.decls, book.stack, book.next)
    && Points(current, book.decls, book.stack)
  }

  ghost function Pushed(book: Book, b: Binding, r: Rec, d: Decl): Book
  {
    book.(stack := book.stack + [b], next := book.next + [r.next], recs := book.recs + [r], decls := book.decls + [d],
      made := book.made + {b})
  }

  lemma KeptPush(book: Book, separator: Byte, current: map<Prefix, Binding?>, freeList: Binding?, heads: seq<Binding?>,
      d: Decl, b: Binding)
    requires Kept(book, separator, current, freeList, heads) && b !in book.made && Legal(d)
    ensures
      var t := |heads| - 1;
      Kept(Pushed(book, b, Rec(d.prefix, Stored(separator, d.uri), Get(current, d.prefix), heads[t]), d), separator,
           current[d.prefix := if d.uri == [] then null else b], freeList, heads[t := b])
  {
    hide Legal, Linked, Owned, FreeChain, Good, Points, Stored;
    GoodPush(book.recs, separator, book.decls, book.stack, book.next, d, b, heads[|heads| - 1]);
    PointsPush(current, book.decls, book.stack, d, b);
    LinkedPush(heads, book.starts, book.stack, book.next, b);
    OwnedPush(book.stack, book.free, book.made, b);
    CurrentIs(current, book.decls, book.stack, d.prefix);
  }

  lemma CurrentIs(current: map<Prefix, Binding?>, decls: seq<Decl>, stack: seq<Binding>, p: Prefix)
    requires |decls| <= |stack| && Points(current, decls, stack)
    ensures Get(current, p) == Ref(decls, stack, p)
  {
  }

  /** The newest binding goes back to the free list. */
  ghost function Popped(book: Book, freeList: Binding?): Book
    requires book.stack != [] && |book.recs| == |book.decls| == |book.stack| == |book.next|
  {
    var n := |book.stack| - 1;
    book.(stack := book.stack[..n], next := book.next[..n], recs := book.recs[..n], decls := book.decls[..n],
          free := [book.stack[n]] + book.free, freeNext := [freeList] + book.freeNext)
  }

  lemma KeptPop(book: Book, separator: Byte, current: map<Prefix, Binding?>, freeList: Binding?, heads: seq<Binding?>)
    requires Kept(book, separator, current, freeList, heads) && heads[|heads| - 1] != null
    ensures
      var n, t := |book.stack| - 1, |heads| - 1;
      && n >= book.starts[t] && heads[t] == book.stack[n]
      && Kept(Popped(book, freeList), separator, current[book.recs[n].prefix := book.recs[n].prev], heads[t],
        heads[t := book.recs[n].next])
  {
    hide Legal, Linked, Owned, FreeChain, Points;
    LinkedPop(heads, book.starts, book.stack, book.next);
    var n := |book.stack| - 1;
    GoodPop(book.recs, separator, book.decls, book.stack, book.next);
    PointsPop(current, book.recs, separator, book.decls, book.stack, book.next);
    OwnedRelease(book.stack, book.free, book.made);
    FreeGive(freeList, book.free, book.freeNext, book.stack[n]);
  }

  lemma KeptTake(book: Book, separator: Byte, current: map<Prefix, Binding?>, freeList: Binding?, heads: seq<Binding?>)
    requires Kept(book, separator, current, freeList, heads) && freeList != null
    ensures book.free != [] && freeList == book.free[0] && freeList in book.made
    ensures Kept(Taken(book), separator, current, book.freeNext[0], heads)
  {
    hide Legal, Linked, FreeChain, Points, Good;
    FreeTake(freeList, book.free, book.freeNext);
    OwnedTake(book.stack, book.free, book.made);
  }

  ghost function Taken(book: Book): Book
    requires book.free != [] && |book.free| == |book.freeNext|
  {
    book.(free := book.free[1..], freeNext := book.freeNext[1..], made := book.made - {book.free[0]})
  }

  lemma StillOwned(book: Book, separator: Byte, current: map<Prefix, Binding?>, freeList: Binding?,
      heads: seq<Binding?>)
    requires Kept(book, separator, current, freeList, heads)
    ensures forall k :: 0 <= k < |book.stack| ==> book.stack[k] in book.made
    ensures forall k :: 0 <= k < |book.free| ==> book.free[k] in book.made
  {
  }

  lemma NotEmpty(book: Book, separator: Byte, current: map<Prefix, Binding?>, freeList: Binding?, heads: seq<Binding?>)
    requires Kept(book, separator, current, freeList, heads)
    ensures |heads| == |book.starts| > 0 && |book.recs| == |book.decls| == |book.stack| == |book.next|
  {
  }

  /** The innermost tag's head is the newest binding, and no other place on the lists holds it. */
  lemma Top(book: Book, separator: Byte, current: map<Prefix, Binding?>, freeList: Binding?, heads: seq<Binding?>)
    requires Kept(book, separator, current, freeList, heads) && heads[|heads| - 1] != null
    ensures book.stack != [] && heads[|heads| - 1] == book.stack[|book.stack| - 1]
    ensures forall k :: 0 <= k < |book.stack| - 1 ==> book.stack[k] != book.stack[|book.stack| - 1]
    ensures book.stack[|book.stack| - 1] !in book.free
  {
  }

  lemma KeptOpen(book: Book, separator: Byte, current: map<Prefix, Binding?>, freeList: Binding?, heads: seq<Binding?>)
    requires Kept(book, separator, current, freeList, heads)
    ensures Kept(book.(starts := book.starts + [|book.decls|]), separator, current, freeList, heads + [null])
  {
    hide Owned, FreeChain, Good, Points;
    LinkedOpen(heads, book.starts, book.stack, book.next);
  }

  lemma KeptShut(book: Book, separator: Byte, current: map<Prefix, Binding?>, freeList: Binding?, heads: seq<Binding?>)
    requires Kept(book, separator, current, freeList, heads) && |heads| > 1 && heads[|heads| - 1] == null
    ensures
      var t := |heads| - 1;
      |book.decls| == book.starts[t] &&
        Kept(book.(starts := book.starts[..t]), separator, current, freeList, heads[..t])
  {
    hide Owned, FreeChain, Good, Points;
    LinkedShut(heads, book.starts, book.stack, book.next);
  }

  /**
    In every state that Scopes can reach, reserved names are reserved and prefixes mean what
    the innermost element says.
  */
  lemma ScopesMeaning(book: Book, separator: Byte, current: map<Prefix, Binding?>, freeList: Binding?,
      heads: seq<Binding?>, p: Prefix)
    requires Kept(book, separator, current, freeList, heads)
    ensures Parted(book.decls, book.starts)
    ensures
      var m := Innermost(Parts(book.decls, book.starts), p);
      && m == Meaning(book.decls, p)
      && (p == Prefix(XML) ==> m == Unbound || m == Bound(XML_NAMESPACE))
      && (p == Prefix(XMLNS) ==> m == Unbound)
      && (p != Prefix(XML) ==> m != Bound(XML_NAMESPACE) && m != Bound(XMLNS_NAMESPACE))
  {
    BookParted(book, separator, current, freeList, heads);
    MeaningIsInnermost(book.decls, book.starts, p);
    hide Legal, Meaning, Innermost, Parts, Parted, Linked, Owned, FreeChain, Points;
    forall k | 0 <= k < |book.decls| ensures Legal(book.decls[k]) {
      assert Declares(book.recs[k], separator, book.decls, book.stack, k);
    }
    Reserved(book.decls, p);
  }

  lemma {:induction false} LinkedParted(heads: seq<Binding?>, starts: seq<nat>, stack: seq<Binding>,
      next: seq<Binding?>, decls: seq<Decl>)
    requires Linked(heads, starts, stack, next) && |decls| == |stack|
    ensures Parted(decls, starts)
    decreases |heads|
  {
    var t := |heads| - 1;
    if t > 0 {
      LinkedParted(heads[..t], starts[..t], stack[..starts[t]], next[..starts[t]], decls[..starts[t]]);
    }
  }

  lemma BookParted(book: Book, separator: Byte, current: map<Prefix, Binding?>, freeList: Binding?,
      heads: seq<Binding?>)
    requires Kept(book, separator, current, freeList, heads)
    ensures Parted(book.decls, book.starts)
  {
    hide Owned, FreeChain, Good, Points;
    LinkedParted(heads, book.starts, book.stack, book.next, book.decls);
  }

  class Scopes {
    const separator: Byte                // 0 for none
    var current: map<Prefix, Binding?>   // prefix->binding, for the prefixes ever declared
    var freeBindingList: Binding?
    var heads: seq<Binding?>             // tag->bindings of the open tags, the inherited bindings first
    ghost var book: Book

    /** The objects hold what the book says. */
    ghost predicate Stands()
      reads this, book.made
    {
      && |book.recs| == |book.stack| && |book.free| == |book.freeNext|
      && (forall k :: 0 <= k < |book.stack| ==> book.stack[k] in book.made && RecOf(book.stack[k]) == book.recs[k])
      && (forall k :: 0 <= k < |book.free| ==> book.free[k] in book.made && book.free[k].next == book.freeNext[k])
    }

    /** Every binding ever made is on exactly one list, and once; and every prefix points at its meaning. */
    ghost predicate Valid()
      reads this, book.made
    {
      Kept(book, separator, current, freeBindingList, heads) && Stands()
    }

    constructor (separator: Byte)
      ensures Valid() && book.decls == [] && book.starts == [0] && book.made == {} && this.separator == separator
    {
      this.separator := separator;
      current, freeBindingList, heads := map[], null, [null];
      book := Book([], [], [], [], [0], [], [], {});
    }

    /** A binding from the free list, or a new one; it is on no list now. */
    method Obtain() returns (b: Binding)
      requires Valid()
      modifies this`freeBindingList, this`book
      ensures Valid() && b !in book.made && fresh(book.made + {b} - old(book.made)) && old(book.made) <= book.made + {b}
      ensures book.decls == old(book.decls) && book.starts == old(book.starts)
    {
      hide Kept;
      if freeBindingList != null {
        b := freeBindingList;
        KeptTake(book, separator, current, freeBindingList, heads);
        freeBindingList := b.next;
        book := Taken(book);
        StillOwned(book, separator, current, freeBindingList, heads);
      } else {
        b := new Binding();
      }
    }

    /** The comparison loops of addBinding. */
    method Compare(uri: Text, mustBeXml: bool) returns (isXml: bool, isXmlns: bool)
      ensures isXml == (uri == XML_NAMESPACE)
      ensures !mustBeXml ==> isXmlns == (uri == XMLNS_NAMESPACE)
      ensures mustBeXml && isXml ==> !isXmlns
    {
      hide Agree;
      isXml, isXmlns := true, true;
      Lengths();
      AgreeEnds(uri, XML_NAMESPACE);
      AgreeEnds(uri, XMLNS_NAMESPACE);
      for len := 0 to |uri|
        invariant isXml == Agree(uri, XML_NAMESPACE, len)
        invariant isXmlns == (mustBeXml || Agree(uri, XMLNS_NAMESPACE, len))
      {
        AgreeStep(uri, XML_NAMESPACE, len);
        AgreeStep(uri, XMLNS_NAMESPACE, len);
        // The terminator stands at the end of each constant, and matches no character of the URI.
        if isXml && (len >= |XML_NAMESPACE| || uri[len] != XML_NAMESPACE[len]) {
          isXml := false;
        }
        if !mustBeXml && isXmlns && (len >= |XMLNS_NAMESPACE| || uri[len] != XMLNS_NAMESPACE[len]) {
          isXmlns := false;
        }
      }
      isXml := isXml && |uri| == |XML_NAMESPACE|;
      isXmlns := isXmlns && |uri| == |XMLNS_NAMESPACE|;
    }

    /** addBinding, on the innermost open tag. */
    method AddBinding(prefix: Prefix, uri: Text) returns (error: Error)
      requires Valid()
      modifies this, book.made
      ensures Valid() && old(book.made) <= book.made && fresh(book.made - old(book.made))
      ensures error == Check(Decl(prefix, uri)) && book.starts == old(book.starts)
      ensures book.decls == if error == NoError then old(book.decls) + [Decl(prefix, uri)] else old(book.decls)
    {
      hide Kept;
      if uri == [] && prefix.Prefix? {
        return UndeclaringPrefix;
      }
      if prefix == Prefix(XMLNS) {
        return ReservedPrefixXmlns;
      }
      var mustBeXml := prefix == Prefix(XML);
      var isXml, isXmlns := Compare(uri, mustBeXml);
      if mustBeXml != isXml {
        return if mustBeXml then ReservedPrefixXml else ReservedNamespaceUri;
      }
      if isXmlns {
        return ReservedNamespaceUri;
      }
      error := NoError;
      var b := Obtain();
      Bind(b, prefix, uri);
    }

    /** The rest of addBinding. */
    method Bind(b: Binding, prefix: Prefix, uri: Text)
      requires Valid() && b !in book.made && Legal(Decl(prefix, uri))
      modifies this, b
      ensures Valid() && book.made == old(book.made) + {b}
      ensures book.decls == old(book.decls) + [Decl(prefix, uri)] && book.starts == old(book.starts)
    {
      hide Legal, Kept, Stored;
      NotEmpty(book, separator, current, freeBindingList, heads);
      KeptPush(book, separator, current, freeBindingList, heads, Decl(prefix, uri), b);
      Fill(b, prefix, Stored(separator, uri), Get(current, prefix), heads[|heads| - 1]);
      current, heads := current[prefix := if uri == [] then null else b], heads[|heads| - 1 := b];
      book := Pushed(book, b, RecOf(b), Decl(prefix, uri));
    }

    method Fill(b: Binding, prefix: Prefix, uri: Text, prev: Binding?, next: Binding?)
      modifies b
      ensures RecOf(b) == Rec(prefix, uri, prev, next)
    {
      b.uri := uri;
      b.prefix := prefix;
      b.prev := prev;
      b.next := next;
    }

    /** A tag opens; its list of bindings is empty. */
    method Open()
      requires Valid()
      modifies this`heads, this`book
      ensures Valid() && book == old(book).(starts := old(book.starts) + [|old(book.decls)|])
    {
      hide Kept;
      KeptOpen(book, separator, current, freeBindingList, heads);
      heads := heads + [null];
      book := book.(starts := book.starts + [|book.decls|]);
    }

    /** The newest binding goes back to the free list and its prefix to what it had. */
    method Release()
      requires Valid() && heads != [] && heads[|heads| - 1] != null
      modifies this, book.made
      ensures Valid() && book.made == old(book.made) && book.starts == old(book.starts) && |heads| == old(|heads|)
      ensures |book.stack| == |book.decls| && |book.decls| == |old(book.decls)| - 1 && book.decls <= old(book.decls)
    {
      hide Kept;
      var b := heads[|heads| - 1];
      KeptPop(book, separator, current, freeBindingList, heads);
      Top(book, separator, current, freeBindingList, heads);
      NotEmpty(book, separator, current, freeBindingList, heads);
      heads := heads[|heads| - 1 := b.next];
      b.next := freeBindingList;
      freeBindingList := b;
      current := current[b.prefix := b.prev];
      book := Popped(book, b.next);
    }

    /** The loop that unwinds the bindings of the innermost tag. */
    method Unwind()
      requires Valid() && |book.starts| > 1
      modifies this, book.made
      ensures Valid() && book.made == old(book.made)
      ensures var t := old(|book.starts| - 1);
        && old(book.starts)[t] <= |old(book.decls)|
        && book.starts == old(book.starts)[..t] && book.decls == old(book.decls)[..old(book.starts)[t]]
    {
      hide Kept;
      ghost var t, was := |book.starts| - 1, book;
      NotEmpty(book, separator, current, freeBindingList, heads);
      while heads[|heads| - 1] != null
        invariant Valid() && |heads| == |book.starts| == t + 1 && book.starts == was.starts && book.made == was.made
        invariant |book.stack| == |book.decls| && book.decls <= was.decls
        decreases |book.stack|
      {
        Release();
      }
      KeptShut(book, separator, current, freeBindingList, heads);
      heads := heads[..|heads| - 1];
      book := book.(starts := book.starts[..t]);
    }

    /** The declarations of a start tag, in the order of storeAtts, until one is refused. */
    method StartTag(ds: seq<Decl>) returns (error: Error)
      requires Valid()
      modifies this, book.made
      ensures Valid() && old(book.made) <= book.made && fresh(book.made - old(book.made))
      ensures error == FirstError(ds)
      ensures book.starts == old(book.starts) + [|old(book.decls)|]
      ensures error == NoError ==> book.decls == old(book.decls) + ds
      ensures Parted(old(book.decls), old(book.starts))
      ensures error == NoError ==>
        Parted(book.decls, book.starts) &&
          Parts(book.decls, book.starts) == Parts(old(book.decls), old(book.starts)) + [ds]
    {
      hide Kept, Stands, Check, Parts;
      BookParted(book, separator, current, freeBindingList, heads);
      Open();
      error := NoError;
      for i := 0 to |ds|
        invariant Valid() && old(book.made) <= book.made && fresh(book.made - old(book.made))
        invariant book.starts == old(book.starts) + [|old(book.decls)|] && book.decls == old(book.decls) + ds[..i]
        invariant error == NoError && FirstError(ds) == FirstError(ds[i..])
      {
        error := AddBinding(ds[i].prefix, ds[i].uri);
        if error != NoError {
          return;
        }
        assert ds[i..][1..] == ds[i + 1..];
        assert ds[..i + 1] == ds[..i] + [ds[i]];
      }
      assert ds[..|ds|] == ds && ds[|ds|..] == [];
      PartsMore(old(book.decls), old(book.starts), ds);
    }

    /** An end tag; the source has checked that an element is open. */
    method EndTag()
      requires Valid() && |book.starts| > 1
      modifies this, book.made
      ensures Valid() && book.made == old(book.made)
      ensures var t := old(|book.starts| - 1);
        && old(book.starts)[t] <= |old(book.decls)|
        && book.starts == old(book.starts)[..t] && book.decls == old(book.decls)[..old(book.starts)[t]]
        && Parted(old(book.decls), old(book.starts)) && Parted(book.decls, book.starts)
        && Parts(old(book.decls), old(book.starts))[..t] == Parts(book.decls, book.starts)
    {
      hide Kept, Stands, Parts;
      BookParted(book, separator, current, freeBindingList, heads);
      PartsLess(book.decls, book.starts);
      Unwind();
    }

    /** An empty element leaves every prefix as it was. */
    method EmptyElement(ds: seq<Decl>) returns (error: Error)
      requires Valid()
      modifies this, book.made
      ensures Valid() && old(book.made) <= book.made && fresh(book.made - old(book.made))
      ensures error == FirstError(ds)
      ensures error == NoError ==> book.decls == old(book.decls) && book.starts == old(book.starts)
    {
      hide Kept, Stands, Check, FirstError, Parts, Parted;
      NotEmpty(book, separator, current, freeBindingList, heads);
      ghost var starts, decls := book.starts, book.decls;
      error := StartTag(ds);
      if error == NoError {
        EndTag();
        assert (decls + ds)[..|decls|] == decls;
      }
    }

    /** What a name with this prefix expands to: the URI kept in the binding. */
    method Lookup(p: Prefix) returns (uri: Name)
      requires Valid()
      ensures uri == (match Meaning(book.decls, p) case Unbound => Unbound case Bound(u) => Bound(Stored(separator, u)))
    {
      var b := Get(current, p);
      CurrentIs(current, book.decls, book.stack, p);
      ghost var k := Last(book.decls, p);
      if b == null {
        uri := Unbound;
      } else {
        assert Declares(book.recs[k], separator, book.decls, book.stack, k);
        uri := Bound(b.uri);
      }
    }
  }

  /** The error of the first refused declaration. */
  function FirstError(ds: seq<Decl>): Error
  {
    if ds == [] then NoError else if Check(ds[0]) != NoError then Check(ds[0]) else FirstError(ds[1..])
  }
}
