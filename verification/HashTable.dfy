/**
  lookup: the open-addressed hash table of xmlparse.c, which holds names, attributes,
  entities, elements and prefixes.

  The table refines a finite map from names to entries. `Placed` is what makes probing
  find an entry: no slot before it on its probe sequence is empty.
*/
module HashTable {
  import opened Scanner
  import opened Probing

  const INIT_POWER: nat := 6

  /** NAMED and what is allocated with it; entries are compared by identity. */
  class Named {
    const name: Text

    constructor (name: Text)
      ensures this.name == name
    {
      this.name := name;
    }
  }

  ghost predicate Sized(slots: seq<Named?>, power: nat)
  {
    power >= 3 && |slots| == Pow2(power)
  }

  /** The first `j` slots on the way of `name` are taken. */
  ghost predicate Taken(slots: seq<Named?>, name: Text, j: nat)
    requires Steps(|slots|)
  {
    forall i :: 0 <= i < j ==> slots[At(Hash(name), |slots|, i)] != null
  }

  ghost predicate Placed(slots: seq<Named?>, k: nat)
    requires Steps(|slots|) && k < |slots| && slots[k] != null
  {
    exists j: nat :: Taken(slots, slots[k].name, j) && At(Hash(slots[k].name), |slots|, j) == k
  }

  function Count(slots: seq<Named?>): nat
  {
    if slots == [] then 0 else Count(slots[..|slots| - 1]) + if slots[|slots| - 1] == null then 0 else 1
  }

  /** Each name of the map has its entry in one slot, placed where probing finds it, and no other slot is taken. */
  ghost predicate Holds(slots: seq<Named?>, m: map<Text, Named>)
  {
    && Steps(|slots|)
    && (forall k :: 0 <= k < |slots| && slots[k] != null ==>
          slots[k].name in m && m[slots[k].name] == slots[k] && Placed(slots, k))
    && (forall j, k :: 0 <= j < k < |slots| && slots[j] != null ==> slots[j] != slots[k])
    && (forall n :: n in m ==> m[n] in slots && m[n].name == n)
  }

  lemma {:induction false} SomeEmpty(slots: seq<Named?>) returns (e: nat)
    requires Count(slots) < |slots|
    ensures e < |slots| && slots[e] == null
  {
    if slots[|slots| - 1] == null {
      e := |slots| - 1;
    } else {
      e := SomeEmpty(slots[..|slots| - 1]);
    }
  }

  lemma {:induction false} CountPut(slots: seq<Named?>, e: nat, x: Named)
    requires e < |slots| && slots[e] == null
    ensures Count(slots[e := x]) == Count(slots) + 1
  {
    var n := |slots| - 1;
    if e == n {
      assert slots[e := x][..n] == slots[..n];
    } else {
      assert slots[e := x][..n] == slots[..n][e := x];
      CountPut(slots[..n], e, x);
    }
  }

  /** How many probes there are before an empty slot at most. */
  lemma ProbeBound(slots: seq<Named?>, power: nat, name: Text) returns (bound: nat)
    requires Sized(slots, power) && Count(slots) < |slots|
    ensures Steps(|slots|) && slots[At(Hash(name), |slots|, bound)] == null
  {
    hide Pow2, ProbeStep, Probe, Hash;
    var e := SomeEmpty(slots);
    bound := Reaches(Hash(name), power, e);
  }

  /** A name that is held is found before an empty slot. */
  lemma FoundOnTheWay(slots: seq<Named?>, m: map<Text, Named>, name: Text, j: nat)
    requires Holds(slots, m) && Taken(slots, name, j) && name in m
    requires forall i :: 0 <= i < j ==> slots[At(Hash(name), |slots|, i)].name != name
    ensures slots[At(Hash(name), |slots|, j)] != null
  {
    hide Probe, ProbeStep, Hash;
    var k :| 0 <= k < |slots| && slots[k] == m[name];
    assert Placed(slots, k);
    var at: nat :| Taken(slots, slots[k].name, at) && At(Hash(slots[k].name), |slots|, at) == k;
    assert at >= j;
  }

  /** Putting an entry into the first empty slot on its way. */
  lemma PutHolds(slots: seq<Named?>, m: map<Text, Named>, x: Named, j: nat)
    requires Holds(slots, m) && x.name !in m && Taken(slots, x.name, j)
    requires slots[At(Hash(x.name), |slots|, j)] == null
    ensures Holds(slots[At(Hash(x.name), |slots|, j) := x], m[x.name := x])
  {
    hide Probe, ProbeStep, Hash;
    var e := At(Hash(x.name), |slots|, j);
    var after, m' := slots[e := x], m[x.name := x];
    assert |after| == |slots|;
    forall k | 0 <= k < |after| && after[k] != null ensures Placed(after, k) {
      if k == e {
        assert Taken(after, x.name, j);
      } else {
        assert Placed(slots, k);
        var at: nat :| Taken(slots, slots[k].name, at) && At(Hash(slots[k].name), |slots|, at) == k;
        assert Taken(after, after[k].name, at);
      }
    }
    forall n | n in m' ensures m'[n] in after && m'[n].name == n {
      if n == x.name {
        assert after[e] == x;
      } else {
        var k :| 0 <= k < |slots| && slots[k] == m[n];
        assert after[k] == m[n];
      }
    }
    assert forall k :: 0 <= k < |slots| && slots[k] != null ==> slots[k].name != x.name;
  }

  lemma {:induction false} AllNull(n: nat, slots: seq<Named?>)
    requires |slots| == n && forall k :: 0 <= k < n ==> slots[k] == null
    ensures Count(slots) == 0
  {
    if n > 0 { AllNull(n - 1, slots[..n - 1]); }
  }

  /** The entries in the first `n` slots, by name. */
  ghost predicate Moved(slots: seq<Named?>, n: nat, contents: map<Text, Named>, m: map<Text, Named>)
    requires n <= |slots|
  {
    && (forall name :: name in m ==> name in contents && m[name] == contents[name])
    && (forall name :: name in contents && name !in m ==> contents[name] !in slots[..n])
    && (forall k :: n <= k < |slots| && slots[k] != null ==> slots[k].name !in m)
  }

  lemma MoveOne(slots: seq<Named?>, n: nat, contents: map<Text, Named>, m: map<Text, Named>)
    requires n < |slots| && Holds(slots, contents) && Moved(slots, n, contents, m)
    ensures Moved(slots, n + 1, contents, if slots[n] == null then m else m[slots[n].name := slots[n]])
  {
    assert slots[..n + 1] == slots[..n] + [slots[n]];
    forall k | n < k < |slots| && slots[k] != null && slots[n] != null ensures slots[k].name != slots[n].name {
      assert contents[slots[k].name] == slots[k] && contents[slots[n].name] == slots[n];
    }
  }

  lemma MovedAll(slots: seq<Named?>, contents: map<Text, Named>, m: map<Text, Named>)
    requires Holds(slots, contents) && Moved(slots, |slots|, contents, m)
    ensures m == contents
  {
    assert slots[..|slots|] == slots;
  }

  lemma CountUpTo(slots: seq<Named?>, n: nat)
    requires n < |slots|
    ensures Count(slots[..n + 1]) == Count(slots[..n]) + if slots[n] == null then 0 else 1
  {
    assert slots[..n + 1][..n] == slots[..n];
  }

  lemma {:induction false} CountMono(slots: seq<Named?>, n: nat)
    requires n <= |slots|
    ensures Count(slots[..n]) <= Count(slots)
    decreases |slots| - n
  {
    if n == |slots| {
      assert slots[..n] == slots;
    } else {
      CountUpTo(slots, n);
      CountMono(slots, n + 1);
    }
  }

  // -------------------------------------------------------------- the table

  class Table {
    var v: array<Named?>
    var power: nat
    var size: nat
    var used: nat
    ghost var contents: map<Text, Named>

    ghost predicate Valid()
      reads this, v
    {
      && size == v.Length
      && used == Count(v[..])
      && (if size == 0 then contents == map[] else
            Sized(v[..], power) && power >= INIT_POWER && 2 * used <= size && Holds(v[..], contents))
    }

    constructor ()
      ensures Valid() && contents == map[] && fresh(v)
    {
      v, power, size, used, contents := new Named?[0], 0, 0, 0, map[];
      new;
      assert v[..] == [];
    }

    /** The probe loop: the entry, or the first empty slot on the way. */
    method Find(slots: array<Named?>, pow: nat, name: Text, ghost m: map<Text, Named>) returns (i: nat, ghost j: nat)
      requires Sized(slots[..], pow) && Count(slots[..]) < slots.Length && Holds(slots[..], m)
      ensures i < slots.Length && Steps(slots.Length) && i == At(Hash(name), slots.Length, j)
      ensures if name in m then slots[i] == m[name] else slots[i] == null && Taken(slots[..], name, j)
    {
      hide Pow2, ProbeStep, Probe, Hash, Count, Sized;
      ghost var s := slots[..];
      var n := slots.Length;
      ghost var bound := ProbeBound(s, pow, name);
      var h := ComputeHash(name);
      var step := 0;
      FirstSlot(h, n);
      i, j := h % n, 0;
      while slots[i] != null && slots[i].name != name
        invariant i < n && i == At(Hash(name), n, j) && j <= bound
        invariant Taken(s, name, j) && forall k :: 0 <= k < j ==> s[At(Hash(name), n, k)].name != name
        invariant step == 0 || step == ProbeStep(h, n)
        decreases bound - j
      {
        if step == 0 {
          step := ProbeStep(h, n);
        }
        NextSlot(h, n, j);
        i := Back(i, step, n);
        j := j + 1;
      }
      if name in m {
        FoundOnTheWay(s, m, name, j);
      }
    }

    /** Twice the slots; every entry moves, as itself, to where probing will find it. */
    method Grow() returns (newV: array<Named?>)
      requires Valid() && size > 0
      ensures fresh(newV) && Sized(newV[..], power + 1) && newV.Length == 2 * size
      ensures Holds(newV[..], contents) && Count(newV[..]) == used
    {
      hide Pow2, ProbeStep, Probe, Hash, Count, Holds, Moved;
      DoublePow(power);
      newV := new Named?[2 * size](_ => null);
      AllNull(newV.Length, newV[..]);
      ghost var m: map<Text, Named>, old' := map[], v[..];
      StepsPower(power + 1);
      EmptyHolds(newV[..]);
      MovedNone(old', contents);
      CountNone();
      assert old'[..0] == [];
      for i := 0 to size
        invariant Valid() && v[..] == old' && fresh(newV) && newV.Length == 2 * size && Sized(newV[..], power + 1)
        invariant Holds(newV[..], m) && Moved(old', i, contents, m) && Count(newV[..]) == Count(old'[..i])
      {
        CountUpTo(old', i);
        CountMono(old', i);
        MoveOne(old', i, contents, m);
        if v[i] != null {
          ghost var x := v[i];
          assert x == old'[i];
          NotYet(old', i, contents, m);
          var j; ghost var k;
          j, k := Find(newV, power + 1, v[i].name, m);
          PutHolds(newV[..], m, x, k);
          CountPut(newV[..], j, x);
          assert newV[..][j := x] == newV[..][..j] + [x] + newV[..][j + 1..];
          newV[j] := v[i];
          m := m[x.name := x];
        }
      }
      MovedAll(old', contents, m);
      assert old'[..size] == old';
    }

    /** The first allocation. */
    method Initialise()
      requires Valid() && size == 0
      modifies this
      ensures Valid() && fresh(v) && contents == map[] && used == 0 && size == 64
    {
      hide Pow2, ProbeStep, Probe, Hash, Count, Holds;
      CountNone();
      assert v[..] == [];
      power, size := INIT_POWER, 64;
      v := new Named?[64](_ => null);
      SixtyFour();
      AllNull(64, v[..]);
      StepsPower(power);
      EmptyHolds(v[..]);
    }

    /** A new entry in the free slot that the probe loop ended at. */
    method Insert(name: Text, i: nat, ghost j: nat) returns (r: Named)
      requires Valid() && size > 0 && 2 * used + 2 <= size && name !in contents
      requires i < size && Steps(size) && i == At(Hash(name), size, j) && v[i] == null && Taken(v[..], name, j)
      modifies this`used, this`contents, v
      ensures Valid() && fresh(r) && r.name == name && contents == old(contents)[name := r]
    {
      hide Pow2, ProbeStep, Probe, Hash, Count, Holds, Steps, Taken, At;
      r := new Named(name);
      PutHolds(v[..], contents, r, j);
      CountPut(v[..], i, r);
      ghost var before := v[..];
      v[i] := r;
      assert v[..] == before[i := r];
      contents := contents[name := r];
      used := used + 1;
    }

    method Lookup(name: Text, create: bool) returns (r: Named?)
      requires Valid()
      modifies this, v
      ensures Valid() && (v == old(v) || fresh(v))
      ensures name in old(contents) ==> r == old(contents)[name] && contents == old(contents)
      ensures name !in old(contents) && !create ==> r == null && contents == old(contents)
      ensures name !in old(contents) && create ==>
        r != null && fresh(r) && r.name == name && contents == old(contents)[name := r]
    {
      hide Pow2, ProbeStep, Probe, Hash, Count, Holds, Sized, Steps, Taken, At;
      var i; ghost var j;
      if size == 0 {
        if !create {
          return null;
        }
        Initialise();
        i, j := Find(v, power, name, contents);
      } else {
        i, j := Find(v, power, name, contents);
        if v[i] != null {
          FoundName(v[..], contents, name, i);
          return v[i];
        }
        if !create {
          return null;
        }
        if 2 * used >= size {
          var newV := Grow();
          v, power, size := newV, power + 1, 2 * size;
          i, j := Find(v, power, name, contents);
        }
      }
      Even(v[..], power);
      r := Insert(name, i, j);
    }
  }

  lemma Even(slots: seq<Named?>, power: nat)
    requires Sized(slots, power)
    ensures |slots| % 2 == 0
  {
    hide Pow2;
    DoublePow(power - 1);
  }

  lemma SixtyFour()
    ensures Pow2(INIT_POWER) == 64
  {
    assert Pow2(3) == 8 by { assert Pow2(1) == 2; }
    assert Pow2(6) == 2 * Pow2(5) == 4 * Pow2(4) == 8 * Pow2(3);
  }

  lemma EmptyHolds(slots: seq<Named?>)
    requires Steps(|slots|) && forall k :: 0 <= k < |slots| ==> slots[k] == null
    ensures Holds(slots, map[])
  {
  }

  lemma MovedNone(slots: seq<Named?>, contents: map<Text, Named>)
    ensures Moved(slots, 0, contents, map[])
  {
  }

  lemma CountNone()
    ensures Count([]) == 0
  {
  }

  lemma NotYet(slots: seq<Named?>, n: nat, contents: map<Text, Named>, m: map<Text, Named>)
    requires n < |slots| && Moved(slots, n, contents, m) && slots[n] != null
    ensures slots[n].name !in m
  {
  }

  lemma FoundName(slots: seq<Named?>, contents: map<Text, Named>, name: Text, i: nat)
    requires Holds(slots, contents) && i < |slots| && slots[i] != null
    requires (name in contents ==> slots[i] == contents[name])
    requires name !in contents ==> slots[i] == null
    ensures name in contents
  {
  }
}
