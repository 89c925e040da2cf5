/**
  The check for duplicate attributes by expanded name, storeAtts: one open-addressed
  table serves every start tag, and a version number, counted down from tag to tag, says
  which slots belong to the tag at hand.
*/
module NsAtts {
  import opened Scanner
  import opened Probing

  const INIT_ATTS_VERSION: nat := 0xFFFFFFFF

  /** NS_ATT */
  datatype Slot = Slot(version: nat, hash: nat, uriName: Text)

  datatype Binding = Unbound | Bound(uri: Text)

  /** A prefixed attribute; `triplet` is the separator and the prefix, or nothing without triplets. */
  datatype Att = Att(binding: Binding, local: Text, triplet: Text)

  datatype Verdict = Fine | UnboundPrefix | DuplicateAttribute

  /** The expanded name, without its terminator. */
  function Name(a: Att): Text
    requires a.binding.Bound?
  {
    a.binding.uri + a.local
  }

  /** What the table keeps: where there are triplets, the separator has replaced the terminator. */
  function Stored(a: Att): Text
    requires a.binding.Bound?
  {
    Name(a) + a.triplet
  }

  /** The terminator is hashed too. */
  function NameHash(a: Att): nat
    requires a.binding.Bound?
  {
    Hash(Name(a) + [0])
  }

  /** The comparison stops at the end of the new name. */
  predicate Clash(earlier: Att, later: Att)
    requires earlier.binding.Bound? && later.binding.Bound?
  {
    NameHash(earlier) == NameHash(later) && Name(later) <= Stored(earlier)
  }

  /** The verdict after the first `n` attributes. */
  function Judge(atts: seq<Att>, n: nat): Verdict
    requires n <= |atts|
  {
    if n == 0 then Fine
    else
      var before := Judge(atts, n - 1);
      if before != Fine then before
      else if atts[n - 1].binding.Unbound? then UnboundPrefix
      else if exists k :: 0 <= k < n - 1 && atts[k].binding.Bound? && Clash(atts[k], atts[n - 1])
      then DuplicateAttribute
      else Fine
  }

  // ----------------------------------------------------- what the verdict means

  lemma {:induction false} JudgeFine(atts: seq<Att>, n: nat, k: nat)
    requires n <= |atts| && Judge(atts, n) == Fine && k < n
    ensures atts[k].binding.Bound? && forall j :: 0 <= j < k && atts[j].binding.Bound? ==> !Clash(atts[j], atts[k])
  {
    hide Clash;
    if k < n - 1 { JudgeFine(atts, n - 1, k); }
  }

  /** Two attributes with the same expanded name never pass. */
  lemma EqualNamesRejected(atts: seq<Att>, j: nat, k: nat)
    requires j < k < |atts| && atts[j].binding.Bound? && atts[k].binding.Bound? && Name(atts[j]) == Name(atts[k])
    ensures Judge(atts, |atts|) != Fine
  {
    hide Hash;
    assert Clash(atts[j], atts[k]);
    if Judge(atts, |atts|) == Fine {
      JudgeFine(atts, |atts|, k);
    }
  }

  /** When the code calls a list of bound attributes duplicate, exactly. */
  lemma {:induction false} RejectedIff(atts: seq<Att>)
    requires forall k :: 0 <= k < |atts| ==> atts[k].binding.Bound?
    ensures Judge(atts, |atts|) == DuplicateAttribute <==> exists j, k :: 0 <= j < k < |atts| && Clash(atts[j], atts[k])
  {
    hide Clash;
    RejectedUpTo(atts, |atts|);
  }

  lemma {:induction false} RejectedUpTo(atts: seq<Att>, n: nat)
    requires n <= |atts| && forall k :: 0 <= k < |atts| ==> atts[k].binding.Bound?
    ensures Judge(atts, n) != UnboundPrefix
    ensures Judge(atts, n) == DuplicateAttribute <==> exists j, k :: 0 <= j < k < n && Clash(atts[j], atts[k])
  {
    hide Clash;
    if n > 0 { RejectedUpTo(atts, n - 1); }
  }

  /**
    The converse of EqualNamesRejected fails: in the namespace "u", with '|' as separator,
    the names "aodpoeqd" and "a" differ, but their hashes agree and one extends the other.
  */
  lemma DifferentNamesRejected()
    ensures
      var u := Bound([0x75, 0x7C]);
      var atts := [Att(u, [0x61, 0x6F, 0x64, 0x70, 0x6F, 0x65, 0x71, 0x64], []), Att(u, [0x61], [])];
      Name(atts[0]) != Name(atts[1]) && Judge(atts, 2) == DuplicateAttribute
  {
    var long: Text := [0x75, 0x7C, 0x61, 0x6F, 0x64, 0x70, 0x6F, 0x65, 0x71, 0x64, 0];
    var short: Text := [0x75, 0x7C, 0x61, 0];
    var u := Bound([0x75, 0x7C]);
    var a, b := Att(u, [0x61, 0x6F, 0x64, 0x70, 0x6F, 0x65, 0x71, 0x64], []), Att(u, [0x61], []);
    assert Name(a) + [0] == long && Name(b) + [0] == short;
    SameHash(long, short);
    assert Name(b) <= Stored(a);
    assert Clash(a, b);
    hide Clash;
    var atts := [a, b];
    assert atts[0] == a && atts[1] == b;
    assert Judge(atts, 1) == Fine;
  }

  lemma HashOn(s: Text, c: Byte, h: bv32, h': bv32)
    requires HashBits(s) == h && CharHash(h, c) == h'
    ensures HashBits(s + [c]) == h'
  {
    assert (s + [c])[..|s|] == s;
  }

  /** The eleven rounds. */
  lemma Rounds()
    ensures CharHash(0x00000000, 0x75) == 0x00000075
    ensures CharHash(0x00000075, 0x7C) == 0x06F948E3
    ensures CharHash(0x06F948E3, 0x61) == 0x5D559908
    ensures CharHash(0x5D559908, 0x6F) == 0x76531D77
    ensures CharHash(0x76531D77, 0x64) == 0x1F526441
    ensures CharHash(0x1F526441, 0x70) == 0x5037FF73
    ensures CharHash(0x5037FF73, 0x6F) == 0x66408176
    ensures CharHash(0x66408176, 0x65) == 0xFA2C4D87
    ensures CharHash(0xFA2C4D87, 0x71) == 0x707E1824
    ensures CharHash(0x707E1824, 0x64) == 0x5D559908
    ensures CharHash(0x5D559908, 0x00) == 0x76531D18
  {
  }

  lemma SameHash(long: Text, short: Text)
    requires long == [0x75, 0x7C, 0x61, 0x6F, 0x64, 0x70, 0x6F, 0x65, 0x71, 0x64, 0]
    requires short == [0x75, 0x7C, 0x61, 0]
    ensures Hash(long) == Hash(short)
  {
    hide HashBits, CharHash;
    Rounds();
    assert long[..0] == [] && HashBits([]) == 0 by { NoHash(); }
    HashOn(long[..0], 0x75, 0x00000000, 0x00000075);
    assert long[..1] == long[..0] + [0x75];
    HashOn(long[..1], 0x7C, 0x00000075, 0x06F948E3);
    assert long[..2] == long[..1] + [0x7C];
    HashOn(long[..2], 0x61, 0x06F948E3, 0x5D559908);
    assert long[..3] == long[..2] + [0x61];
    HashOn(long[..3], 0x6F, 0x5D559908, 0x76531D77);
    assert long[..4] == long[..3] + [0x6F];
    HashOn(long[..4], 0x64, 0x76531D77, 0x1F526441);
    assert long[..5] == long[..4] + [0x64];
    HashOn(long[..5], 0x70, 0x1F526441, 0x5037FF73);
    assert long[..6] == long[..5] + [0x70];
    HashOn(long[..6], 0x6F, 0x5037FF73, 0x66408176);
    assert long[..7] == long[..6] + [0x6F];
    HashOn(long[..7], 0x65, 0x66408176, 0xFA2C4D87);
    assert long[..8] == long[..7] + [0x65];
    HashOn(long[..8], 0x71, 0xFA2C4D87, 0x707E1824);
    assert long[..9] == long[..8] + [0x71];
    HashOn(long[..9], 0x64, 0x707E1824, 0x5D559908);
    assert long[..10] == long[..9] + [0x64];
    HashOn(long[..10], 0x00, 0x5D559908, 0x76531D18);
    assert long[..11] == long[..10] + [0x00];
    assert long[..11] == long;
    HashOn(long[..3], 0x00, 0x5D559908, 0x76531D18);
    assert short == long[..3] + [0x00];
  }

  lemma NoHash()
    ensures HashBits([]) == 0
  {
  }

  // -------------------------------------------------------------- the table

  ghost predicate Sized(slots: seq<Slot>, power: nat) { power >= 3 && |slots| == Pow2(power) }

  /** The first `j` slots on the way of this hash belong to the tag at hand. */
  ghost predicate Taken(slots: seq<Slot>, version: nat, h: nat, j: nat)
    requires Steps(|slots|)
  {
    forall i :: 0 <= i < j ==> slots[At(h, |slots|, i)].version == version
  }

  function Busy(slots: seq<Slot>, version: nat): nat
  {
    if slots == [] then 0
    else Busy(slots[..|slots| - 1], version) + if slots[|slots| - 1].version == version then 1 else 0
  }

  function Entry(version: nat, a: Att): Slot
    requires a.binding.Bound?
  {
    Slot(version, NameHash(a), Stored(a))
  }

  /** Attribute `a` is where probing finds it. */
  ghost predicate Filed(slots: seq<Slot>, version: nat, a: Att)
    requires Steps(|slots|) && a.binding.Bound?
  {
    exists j: nat :: Taken(slots, version, NameHash(a), j) && slots[At(NameHash(a), |slots|, j)] == Entry(version, a)
  }

  /** The slots of the tag at hand hold its first `n` attributes and nothing else. */
  ghost predicate Recorded(slots: seq<Slot>, version: nat, atts: seq<Att>, n: nat)
    requires n <= |atts|
  {
    && Steps(|slots|)
    && Busy(slots, version) == n
    && (forall a :: 0 <= a < n ==> atts[a].binding.Bound? && Filed(slots, version, atts[a]))
    && (forall k :: 0 <= k < |slots| && slots[k].version == version ==>
          exists a :: 0 <= a < n && atts[a].binding.Bound? && slots[k] == Entry(version, atts[a]))
  }

  lemma {:induction false} SomeFree(slots: seq<Slot>, version: nat) returns (e: nat)
    requires Busy(slots, version) < |slots|
    ensures e < |slots| && slots[e].version != version
  {
    if slots[|slots| - 1].version != version {
      e := |slots| - 1;
    } else {
      e := SomeFree(slots[..|slots| - 1], version);
    }
  }

  lemma {:induction false} BusyPut(slots: seq<Slot>, version: nat, e: nat, x: Slot)
    requires e < |slots| && slots[e].version != version && x.version == version
    ensures Busy(slots[e := x], version) == Busy(slots, version) + 1
  {
    var n := |slots| - 1;
    if e == n {
      assert slots[e := x][..n] == slots[..n];
    } else {
      assert slots[e := x][..n] == slots[..n][e := x];
      BusyPut(slots[..n], version, e, x);
    }
  }

  lemma {:induction false} NoneBusy(slots: seq<Slot>, version: nat)
    requires forall k :: 0 <= k < |slots| ==> slots[k].version != version
    ensures Busy(slots, version) == 0
  {
    if slots != [] { NoneBusy(slots[..|slots| - 1], version); }
  }

  lemma ProbeBound(slots: seq<Slot>, version: nat, power: nat, h: nat) returns (bound: nat)
    requires Sized(slots, power) && Busy(slots, version) < |slots|
    ensures Steps(|slots|) && slots[At(h, |slots|, bound)].version != version
  {
    hide Pow2, ProbeStep, Probe;
    var e := SomeFree(slots, version);
    bound := Reaches(h, power, e);
  }

  /** The slot compares equal to the new name: same hash, and it extends the name. */
  predicate Hit(slot: Slot, h: nat, name: Text) { slot.hash == h && name <= slot.uriName }

  /** Probing meets every clashing attribute before a free slot. */
  lemma Met(slots: seq<Slot>, version: nat, atts: seq<Att>, n: nat, j: nat)
    requires n < |atts| && atts[n].binding.Bound? && Recorded(slots, version, atts, n)
    requires Taken(slots, version, NameHash(atts[n]), j) && slots[At(NameHash(atts[n]), |slots|, j)].version != version
    requires forall i :: 0 <= i < j ==> !Hit(slots[At(NameHash(atts[n]), |slots|, i)], NameHash(atts[n]), Name(atts[n]))
    ensures forall a :: 0 <= a < n && atts[a].binding.Bound? ==> !Clash(atts[a], atts[n])
  {
    hide Probe, ProbeStep, Hash;
    var h := NameHash(atts[n]);
    forall a | 0 <= a < n && atts[a].binding.Bound? ensures !Clash(atts[a], atts[n]) {
      assert Filed(slots, version, atts[a]);
      if NameHash(atts[a]) == h {
        var at: nat :| Taken(slots, version, h, at) && slots[At(h, |slots|, at)] == Entry(version, atts[a]);
        assert at < j;
        assert !Hit(slots[At(h, |slots|, at)], h, Name(atts[n]));
      }
    }
  }

  lemma HitClash(slots: seq<Slot>, version: nat, atts: seq<Att>, n: nat, k: nat)
    requires n < |atts| && atts[n].binding.Bound? && Recorded(slots, version, atts, n)
    requires k < |slots| && slots[k].version == version && Hit(slots[k], NameHash(atts[n]), Name(atts[n]))
    ensures exists a :: 0 <= a < n && atts[a].binding.Bound? && Clash(atts[a], atts[n])
  {
    hide Hash;
    var a :| 0 <= a < n && atts[a].binding.Bound? && slots[k] == Entry(version, atts[a]);
    assert Clash(atts[a], atts[n]);
  }

  lemma FiledStays(slots: seq<Slot>, version: nat, a: Att, e: nat, x: Slot)
    requires Steps(|slots|) && a.binding.Bound? && Filed(slots, version, a)
    requires e < |slots| && slots[e].version != version && x.version == version
    ensures Filed(slots[e := x], version, a)
  {
    hide Probe, ProbeStep, Hash;
    var h, after := NameHash(a), slots[e := x];
    var j: nat :| Taken(slots, version, h, j) && slots[At(h, |slots|, j)] == Entry(version, a);
    assert |after| == |slots|;
    assert Taken(after, version, h, j) && after[At(h, |after|, j)] == Entry(version, a);
  }

  lemma RecordOne(slots: seq<Slot>, version: nat, atts: seq<Att>, n: nat, j: nat)
    requires n < |atts| && atts[n].binding.Bound? && Recorded(slots, version, atts, n)
    requires Taken(slots, version, NameHash(atts[n]), j) && slots[At(NameHash(atts[n]), |slots|, j)].version != version
    ensures Recorded(slots[At(NameHash(atts[n]), |slots|, j) := Entry(version, atts[n])], version, atts, n + 1)
  {
    hide At, ProbeStep, NameHash, Stored, Busy, Filed;
    var h, x := NameHash(atts[n]), Entry(version, atts[n]);
    var e := At(h, |slots|, j);
    var after := slots[e := x];
    BusyPut(slots, version, e, x);
    assert |after| == |slots|;
    forall a | 0 <= a < n + 1 ensures atts[a].binding.Bound? && Filed(after, version, atts[a]) {
      if a < n {
        FiledStays(slots, version, atts[a], e, x);
      } else {
        FiledNow(slots, version, atts[n], j);
      }
    }
    forall k | 0 <= k < |after| && after[k].version == version
      ensures exists a :: 0 <= a < n + 1 && atts[a].binding.Bound? && after[k] == Entry(version, atts[a])
    {
      if k == e {
        assert after[k] == Entry(version, atts[n]);
      } else {
        var a :| 0 <= a < n && atts[a].binding.Bound? && slots[k] == Entry(version, atts[a]);
        assert after[k] == Entry(version, atts[a]);
      }
    }
  }

  lemma FiledNow(slots: seq<Slot>, version: nat, a: Att, j: nat)
    requires a.binding.Bound? && Steps(|slots|)
    requires Taken(slots, version, NameHash(a), j)
    ensures Filed(slots[At(NameHash(a), |slots|, j) := Entry(version, a)], version, a)
  {
    hide At, ProbeStep, NameHash, Stored;
    var after := slots[At(NameHash(a), |slots|, j) := Entry(version, a)];
    assert |after| == |slots|;
    assert Taken(after, version, NameHash(a), j);
  }

  method HashName(a: Att) returns (h: nat)
    requires a.binding.Bound?
    ensures h == NameHash(a)
  {
    hide Hash;
    h := ComputeHash(Name(a) + [0]);
  }

  class NsTable {
    var nsAtts: array<Slot>
    var nsAttsVersion: nat
    var nsAttsPower: nat

    ghost predicate Valid()
      reads this, nsAtts
    {
      && nsAttsVersion <= INIT_ATTS_VERSION
      && (if nsAttsPower == 0 then nsAtts.Length == 0 else Sized(nsAtts[..], nsAttsPower))
      && forall k :: 0 <= k < nsAtts.Length ==> nsAtts[k].version >= nsAttsVersion
    }

    constructor ()
      ensures Valid() && fresh(nsAtts)
    {
      nsAtts, nsAttsVersion, nsAttsPower := new Slot[0], 0, 0;
    }

    /** while (nPrefixes >> nsAttsPower++); and at least 3 */
    method EnoughPower(n: nat) returns (power: nat)
      requires n >= 1
      ensures power >= 3 && Pow2(power) > 2 * n
    {
      hide Pow2;
      power := nsAttsPower;
      Quotient(n, Pow2(power));
      while n / Pow2(power) > 0
        invariant n / Pow2(power) > 0 <==> n >= Pow2(power)
        decreases n - Pow2(power)
      {
        DoublePow(power);
        power := power + 1;
        Quotient(n, Pow2(power));
      }
      DoublePow(power);
      power := power + 1;
      if power < 3 {
        SmallPowers();
        power := 3;
      }
    }

    /** Make the table ready for a tag with `n` prefixed attributes. */
    method Prepare(n: nat)
      requires Valid() && n >= 1
      modifies this, nsAtts
      ensures Valid() && (nsAtts == old(nsAtts) || fresh(nsAtts))
      ensures Sized(nsAtts[..], nsAttsPower) && nsAtts.Length > 2 * n
      ensures forall k :: 0 <= k < nsAtts.Length ==> nsAtts[k].version != nsAttsVersion
    {
      var version := nsAttsVersion;
      if nsAttsPower == 0 || 2 * n >= nsAtts.Length {
        var was := nsAtts[..];
        nsAttsPower := EnoughPower(n);
        // What REALLOC adds is not initialised; whatever is in it gets its version below.
        nsAtts := new Slot[Pow2(nsAttsPower)](k => if 0 <= k < |was| then was[k] else Slot(0, 0, []));
        version := 0;
      }
      if version == 0 {
        version := INIT_ATTS_VERSION;
        var j := nsAtts.Length;
        while j != 0
          modifies nsAtts
          invariant 0 <= j <= nsAtts.Length
          invariant forall k :: j <= k < nsAtts.Length ==> nsAtts[k].version == version
        {
          j := j - 1;
          nsAtts[j] := nsAtts[j].(version := version);
        }
      }
      version := version - 1;
      nsAttsVersion := version;
    }

    /** Look for the expanded name; otherwise leave at the free slot for it. */
    method Seek(atts: seq<Att>, n: nat) returns (duplicate: bool, i: nat, ghost j: nat)
      requires n < |atts| && atts[n].binding.Bound? && Sized(nsAtts[..], nsAttsPower)
      requires Recorded(nsAtts[..], nsAttsVersion, atts, n) && n < nsAtts.Length
      ensures duplicate <==> exists a :: 0 <= a < n && atts[a].binding.Bound? && Clash(atts[a], atts[n])
      ensures !duplicate ==>
        && i < nsAtts.Length && i == At(NameHash(atts[n]), nsAtts.Length, j) && nsAtts[i].version != nsAttsVersion
        && Taken(nsAtts[..], nsAttsVersion, NameHash(atts[n]), j)
    {
      hide Pow2, ProbeStep, Probe, At, Hash, Recorded, Clash, NameHash, Name, Sized;
      RecordedRoom(nsAtts[..], nsAttsVersion, atts, n);
      var name := Name(atts[n]);
      var h := HashName(atts[n]);
      var size := nsAtts.Length;
      ghost var s := nsAtts[..];
      ghost var bound := ProbeBound(s, nsAttsVersion, nsAttsPower, h);
      var step := 0;
      FirstSlot(h, size);
      i, j, duplicate := h % size, 0, false;
      while nsAtts[i].version == nsAttsVersion
        invariant i < size && i == At(h, size, j) && j <= bound && Taken(s, nsAttsVersion, h, j)
        invariant forall k :: 0 <= k < j ==> !Hit(s[At(h, size, k)], h, name)
        invariant step == 0 || step == ProbeStep(h, size)
        decreases bound - j
      {
        if h == nsAtts[i].hash && name <= nsAtts[i].uriName {
          HitClash(s, nsAttsVersion, atts, n, i);
          duplicate := true;
          return;
        }
        if step == 0 {
          step := ProbeStep(h, size);
        }
        NextSlot(h, size, j);
        i := Back(i, step, size);
        j := j + 1;
      }
      Met(s, nsAttsVersion, atts, n, j);
    }

    /** The part of storeAtts that expands prefixed names, for one tag. */
    method ExpandNames(atts: seq<Att>) returns (verdict: Verdict)
      requires Valid()
      modifies this, nsAtts
      ensures Valid() && (nsAtts == old(nsAtts) || fresh(nsAtts))
      ensures verdict == Judge(atts, |atts|)
    {
      hide Pow2, Probe, Clash, Entry, Recorded, Judge, ProbeStep, Hash, Stored, Name, NameHash, Taken, At;
      verdict := Fine;
      JudgeNone(atts);
      if |atts| == 0 {
        return;
      }
      Prepare(|atts|);
      NothingRecorded(nsAtts[..], nsAttsVersion, nsAttsPower, atts);
      for i := 0 to |atts|
        invariant Valid() && Sized(nsAtts[..], nsAttsPower) && nsAtts.Length > 2 * |atts|
        invariant nsAtts == old(nsAtts) || fresh(nsAtts)
        invariant Recorded(nsAtts[..], nsAttsVersion, atts, i) && Judge(atts, i) == Fine
      {
        JudgeOne(atts, i);
        if atts[i].binding.Unbound? {
          JudgeStays(atts, i + 1);
          return UnboundPrefix;
        }
        var duplicate, k; ghost var j;
        duplicate, k, j := Seek(atts, i);
        if duplicate {
          JudgeStays(atts, i + 1);
          return DuplicateAttribute;
        }
        RecordOne(nsAtts[..], nsAttsVersion, atts, i, j);
        ghost var was := nsAtts[..];
        EntryIs(nsAttsVersion, atts[i]);
        var h := HashName(atts[i]);
        nsAtts[k] := Slot(nsAttsVersion, h, Stored(atts[i]));
        assert nsAtts[..] == was[k := Entry(nsAttsVersion, atts[i])];
      }
    }
  }

  lemma RecordedRoom(slots: seq<Slot>, version: nat, atts: seq<Att>, n: nat)
    requires n <= |atts| && Recorded(slots, version, atts, n) && n < |slots|
    ensures Busy(slots, version) < |slots| && Steps(|slots|)
  {
    hide Busy, Filed, Steps;
  }

  lemma JudgeNone(atts: seq<Att>)
    ensures Judge(atts, 0) == Fine
  {
  }

  lemma JudgeOne(atts: seq<Att>, i: nat)
    requires i < |atts| && Judge(atts, i) == Fine
    ensures Judge(atts, i + 1) ==
      if atts[i].binding.Unbound? then UnboundPrefix
      else if exists a :: 0 <= a < i && atts[a].binding.Bound? && Clash(atts[a], atts[i]) then DuplicateAttribute
      else Fine
  {
    hide Clash;
  }

  lemma Quotient(n: nat, d: nat)
    requires d >= 1
    ensures n / d > 0 <==> n >= d
  {
  }

  lemma SmallPowers()
    ensures Pow2(0) == 1 && Pow2(1) == 2 && Pow2(2) == 4 && Pow2(3) == 8
  {
  }

  lemma EntryIs(version: nat, a: Att)
    requires a.binding.Bound?
    ensures Entry(version, a) == Slot(version, NameHash(a), Stored(a))
  {
  }

  lemma NothingRecorded(slots: seq<Slot>, version: nat, power: nat, atts: seq<Att>)
    requires Sized(slots, power) && forall k :: 0 <= k < |slots| ==> slots[k].version != version
    ensures Recorded(slots, version, atts, 0)
  {
    NoneBusy(slots, version);
    StepsPower(power);
  }

  lemma {:induction false} JudgeStays(atts: seq<Att>, n: nat)
    requires n <= |atts| && Judge(atts, n) != Fine
    ensures Judge(atts, |atts|) == Judge(atts, n)
    decreases |atts| - n
  {
    hide Clash;
    if n < |atts| { JudgeStays(atts, n + 1); }
  }
}
