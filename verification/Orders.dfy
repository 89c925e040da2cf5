/**
  The order in which a loop visits the keys of a table, where the language leaves it open:
  any list of each key once.
*/
module Orders {

  /** No element is listed twice. */
  ghost predicate Distinct<T>(s: seq<T>) { forall j, k :: 0 <= j < k < |s| ==> s[j] != s[k] }

  ghost predicate Enumerates<T>(order: seq<T>, keys: set<T>)
  {
    && (forall k :: 0 <= k < |order| ==> order[k] in keys)
    && (forall p :: p in keys ==> p in order)
    && Distinct(order)
  }

  lemma EnumeratesNone<T>()
    ensures Enumerates<T>([], {})
  {
  }

  lemma EnumeratesMore<T>(order: seq<T>, keys: set<T>, p: T)
    requires Enumerates(order, keys) && p !in keys
    ensures Enumerates(order + [p], keys + {p})
  {
  }

  lemma EnumeratedIn<T>(order: seq<T>, keys: set<T>)
    requires Enumerates(order, keys)
    ensures forall k :: 0 <= k < |order| ==> order[k] in keys
  {
  }

  ghost method SomeOrder(keys: set<string>) returns (order: seq<string>)
    ensures Enumerates(order, keys)
  {
    hide Enumerates;
    order := [];
    EnumeratesNone<string>();
    var todo := keys;
    assert keys - todo == {};
    while todo != {}
      invariant todo <= keys && Enumerates(order, keys - todo)
    {
      var p :| p in todo;
      EnumeratesMore(order, keys - todo, p);
      assert keys - (todo - {p}) == keys - todo + {p};
      todo := todo - {p};
      order := order + [p];
    }
    assert keys - todo == keys;
  }
}
