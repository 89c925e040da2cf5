/**
  The double hashing that xmlparse.c uses for its hash tables: the table size is a power
  of two and the step is odd, so probing visits every slot.
*/
module Probing {
  import opened Scanner

  function Pow2(p: nat): (r: nat)
    ensures r >= 1
  {
    if p == 0 then 1 else 2 * Pow2(p - 1)
  }

  // ------------------------------------------------------------------- hashes

  /** CHAR_HASH, on a 32-bit unsigned long. */
  function CharHash(h: bv32, c: Byte): bv32 { (h * 0xF4243) ^ (c as bv32) }

  function HashBits(s: Text): bv32
  {
    if s == [] then 0 else CharHash(HashBits(s[..|s| - 1]), s[|s| - 1])
  }

  /** hash */
  function Hash(s: Text): nat { HashBits(s) as nat }

  method ComputeHash(s: Text) returns (h: nat)
    ensures h == Hash(s)
  {
    var bits: bv32 := 0;
    for i := 0 to |s|
      invariant bits == HashBits(s[..i])
    {
      assert s[..i + 1][..i] == s[..i];
      bits := CharHash(bits, s[i]);
    }
    assert s[..|s|] == s;
    h := bits as nat;
  }

  /**
    SECOND_HASH for size = mask + 1 = 2 to the power: clearing the low bits and shifting
    by power - 1 is halving the size away, and masking with mask >> 2 is a remainder.
  */
  function SecondHash(h: nat, size: nat): nat
    requires size >= 4
  {
    ((h / size) * 2) % (size / 4)
  }

  /** PROBE_STEP: the second hash made odd, cut to an unsigned char. */
  function ProbeStep(h: nat, size: nat): nat
    requires size >= 4
  {
    (SecondHash(h, size) / 2 * 2 + 1) % 256
  }

  lemma StepOdd(h: nat, p: nat)
    requires p >= 3
    ensures Pow2(p) >= 8 && ProbeStep(h, Pow2(p)) % 2 == 1 && ProbeStep(h, Pow2(p)) <= Pow2(p)
  {
    Pow2Least(p);
    hide Pow2, SecondHash;
    SecondSmall(h, Pow2(p));
    MadeOdd(SecondHash(h, Pow2(p)));
  }

  lemma {:induction false} Pow2Least(p: nat)
    requires p >= 3
    ensures Pow2(p) >= 8
  {
    if p == 3 {
      assert Pow2(0) == 1 && Pow2(1) == 2 && Pow2(2) == 4 && Pow2(3) == 8;
    } else {
      Pow2Least(p - 1);
    }
  }

  lemma SecondSmall(h: nat, size: nat)
    requires size >= 4
    ensures SecondHash(h, size) < size / 4
  {
  }

  lemma MadeOdd(n: nat)
    ensures ((n / 2 * 2 + 1) % 256) % 2 == 1 && (n / 2 * 2 + 1) % 256 <= n + 1
  {
  }

  // ------------------------------------------------------------------ probing

  /** i < step ? i += size - step : i -= step */
  function Back(i: nat, step: nat, size: nat): (r: nat)
    requires i < size && 0 < step <= size
    ensures r < size
  {
    if i < step then i + size - step else i - step
  }

  /** The slot visited after `j` collisions. */
  function Probe(h: nat, step: nat, size: nat, j: nat): (r: nat)
    requires 0 < step <= size
    ensures r < size
  {
    if j == 0 then h % size else Back(Probe(h, step, size, j - 1), step, size)
  }

  /** Every probe is the hash less so many steps, modulo the size. */
  lemma {:induction false} ProbeIs(h: nat, step: nat, size: nat, j: nat) returns (q: int)
    requires 0 < step <= size
    ensures Probe(h, step, size, j) + j * step == h + q * size
  {
    if j == 0 {
      q := -(h / size);
      ModIs(h, size);
    } else {
      var q0 := ProbeIs(h, step, size, j - 1);
      var i := Probe(h, step, size, j - 1);
      StepTimes(j, step);
      if i < step {
        q := q0 + 1;
        OneMore(q0, size);
      } else {
        q := q0;
      }
    }
  }

  lemma ModIs(h: nat, size: nat)
    requires size > 0
    ensures h % size == h + (-(h / size)) * size
  {
    assert h == (h / size) * size + h % size;
    NegTimes(h / size, size);
  }

  lemma NegTimes(a: int, b: int)
    ensures (-a) * b == -(a * b)
  {
  }

  lemma StepTimes(j: nat, step: nat)
    requires j > 0
    ensures j * step == (j - 1) * step + step
  {
  }

  lemma OneMore(q: int, size: nat)
    ensures (q + 1) * size == q * size + size
  {
  }

  /** Multiples of an odd step reach every residue modulo a power of two. */
  lemma {:induction false} OddReaches(p: nat, step: nat, target: int) returns (j: nat, q: int)
    requires step % 2 == 1
    ensures j < Pow2(p) && j * step == target + q * Pow2(p)
    decreases p
  {
    if p == 0 {
      j, q := 0, -target;
    } else {
      var half := Pow2(p - 1);
      var j0, q0 := OddReaches(p - 1, step, target);
      if q0 % 2 == 0 {
        j, q := j0, q0 / 2;
        Regroup(q0 / 2, half);
      } else {
        j, q := j0 + half, (q0 + step) / 2;
        assert (q0 + step) % 2 == 0;
        Distribute(j0, half, step);
        Distribute(q0, step, half);
        Regroup((q0 + step) / 2, half);
      }
    }
  }

  lemma Regroup(a: int, b: int)
    ensures (2 * a) * b == a * (2 * b)
  {
  }

  lemma Distribute(a: int, b: int, c: int)
    ensures (a + b) * c == a * c + b * c
  {
  }

  /** Probing reaches every slot within as many turns as there are slots. */
  lemma Coverage(h: nat, step: nat, p: nat, slot: nat) returns (j: nat)
    requires step % 2 == 1 && 0 < step <= Pow2(p) && slot < Pow2(p)
    ensures j < Pow2(p) && Probe(h, step, Pow2(p), j) == slot
  {
    var size := Pow2(p);
    var q;
    j, q := OddReaches(p, step, h - slot);
    var q' := ProbeIs(h, step, size, j);
    var at := Probe(h, step, size, j);
    // at + j * step == h + q' * size and j * step == h - slot + q * size
    assert at - slot == q' * size - q * size;
    Distribute(q', -q, size);
    NegTimes(q, size);
    Within(at, slot, q' - q, size);
  }

  lemma Within(a: int, b: int, q: int, size: nat)
    requires 0 <= a < size && 0 <= b < size && a - b == q * size
    ensures a == b
  {
    FarApart(q, size);
  }

  lemma FarApart(q: int, size: int)
    requires size >= 0
    ensures (q > 0 ==> q * size >= size) && (q < 0 ==> q * size <= -size)
  {
  }

  lemma DoublePow(p: nat)
    ensures Pow2(p + 1) == 2 * Pow2(p)
  {
  }

  /** Every step suits a table of this size. */
  ghost predicate Steps(size: nat) { size >= 4 && forall h: nat :: 0 < ProbeStep(h, size) <= size }

  /** Slot number `j` of the probe sequence for a hash. */
  function At(h: nat, size: nat, j: nat): (r: nat)
    requires size >= 4 && 0 < ProbeStep(h, size) <= size
    ensures r < size
  {
    Probe(h, ProbeStep(h, size), size, j)
  }

  lemma StepsPower(power: nat)
    requires power >= 3
    ensures Steps(Pow2(power))
  {
    hide Pow2, ProbeStep;
    forall h: nat ensures Pow2(power) >= 4 && 0 < ProbeStep(h, Pow2(power)) <= Pow2(power) {
      StepOdd(h, power);
    }
    StepOdd(0, power);
  }

  lemma FirstSlot(h: nat, size: nat)
    requires Steps(size)
    ensures At(h, size, 0) == h % size
  {
  }

  lemma NextSlot(h: nat, size: nat, j: nat)
    requires Steps(size)
    ensures At(h, size, j + 1) == Back(At(h, size, j), ProbeStep(h, size), size)
  {
  }

  /** Probing for any hash gets to any slot. */
  lemma Reaches(h: nat, power: nat, slot: nat) returns (j: nat)
    requires power >= 3 && slot < Pow2(power)
    ensures Steps(Pow2(power)) && At(h, Pow2(power), j) == slot
  {
    hide Pow2, ProbeStep, Probe;
    StepsPower(power);
    StepOdd(h, power);
    j := Coverage(h, ProbeStep(h, Pow2(power)), power, slot);
  }
}
