/**
  Line ends: section 2.11 of XML 1.0 has a carriage return and a line feed, or a carriage
  return alone, read as one line feed. `normalizeLines` does that to a string in place.
*/
module Lines {
  import opened Scanner

  const CR_CHAR: Byte := 0x0D

  const LF_CHAR: Byte := 0x0A

  function Normalised(t: Text): (r: Text)
    ensures |r| <= |t| && CR_CHAR !in r
  {
    if t == [] then []
    else if t[0] != CR_CHAR then [t[0]] + Normalised(t[1..])
    else [LF_CHAR] + Normalised(if |t| > 1 && t[1] == LF_CHAR then t[2..] else t[1..])
  }

  lemma {:induction false} NormalIs(t: Text)
    requires CR_CHAR !in t
    ensures Normalised(t) == t
  {
    if t != [] {
      assert t[0] in t;
      NormalIs(t[1..]);
    }
  }

  lemma Idempotent(t: Text)
    ensures Normalised(Normalised(t)) == Normalised(t)
  {
    hide Normalised;
    NormalIs(Normalised(t));
  }

  /** The cut does not come between a carriage return and its line feed. */
  predicate Apart(a: Text, b: Text) { a == [] || b == [] || a[|a| - 1] != CR_CHAR || b[0] != LF_CHAR }

  lemma {:induction false} NormalConcat(a: Text, b: Text)
    requires Apart(a, b)
    ensures Normalised(a + b) == Normalised(a) + Normalised(b)
    decreases |a|
  {
    if a == [] {
      assert a + b == b;
    } else {
      hide Normalised;
      NormalStep(a);
      NormalStep(a + b);
      var k := After(a);
      ApartRest(a, b);
      NormalConcat(a[k..], b);
      Assoc([if a[0] == CR_CHAR then LF_CHAR else a[0]], Normalised(a[k..]), Normalised(b));
    }
  }

  lemma Assoc(a: Text, b: Text, c: Text)
    ensures (a + b) + c == a + (b + c)
  {
  }

  lemma Tail(t: Text, s: nat, k: nat)
    requires s + k <= |t|
    ensures t[s..][k..] == t[s + k..]
  {
  }

  /** How much the first line end or character takes. */
  function After(t: Text): (k: nat)
    requires t != []
    ensures 1 <= k <= |t|
  {
    if t[0] == CR_CHAR && |t| > 1 && t[1] == LF_CHAR then 2 else 1
  }

  lemma NormalStep(t: Text)
    requires t != []
    ensures Normalised(t) == [if t[0] == CR_CHAR then LF_CHAR else t[0]] + Normalised(t[After(t)..])
  {
  }

  lemma ApartRest(a: Text, b: Text)
    requires Apart(a, b) && a != []
    ensures After(a + b) == After(a) && Apart(a[After(a)..], b) && (a + b)[After(a)..] == a[After(a)..] + b
  {
  }

  lemma NormalNone()
    ensures Normalised([]) == []
  {
  }

  /** A string up to its terminator. */
  function Terminated(a: seq<Byte>): Text
  {
    if a == [] || a[0] == 0 then [] else [a[0]] + Terminated(a[1..])
  }

  lemma {:induction false} TerminatedAt(a: seq<Byte>, n: nat)
    requires n < |a| && a[n] == 0 && 0 !in a[..n]
    ensures Terminated(a) == a[..n]
    decreases n
  {
    if n > 0 {
      assert a[..n] == [a[0]] + a[1..][..n - 1];
      TerminatedAt(a[1..], n - 1);
    }
  }

  lemma {:induction false} Terminator(a: seq<Byte>)
    requires 0 in a
    ensures |Terminated(a)| < |a| && a[|Terminated(a)|] == 0
    ensures 0 !in Terminated(a) && a[..|Terminated(a)|] == Terminated(a)
  {
    if a[0] != 0 {
      Terminator(a[1..]);
      assert a[..|Terminated(a)|] == [a[0]] + a[1..][..|Terminated(a)| - 1];
    }
  }

  lemma {:induction false} NormalNoZero(t: Text)
    requires 0 !in t
    ensures 0 !in Normalised(t)
  {
    if t != [] {
      assert t[0] in t;
      NormalNoZero(t[After(t)..]);
    }
  }

  /** normalizeLines, on a terminated string. */
  method NormalizeLines(a: array<Byte>)
    requires 0 in a[..]
    modifies a
    ensures 0 in a[..] && Terminated(a[..]) == Normalised(Terminated(old(a[..])))
  {
    hide Normalised, Terminated;
    ghost var was := a[..];
    ghost var t := Terminated(was);
    Terminator(was);
    var s := 0;
    while a[s] != 0 && a[s] != CR_CHAR
      invariant s <= |t| && a[..] == was && CR_CHAR !in t[..s]
      decreases |t| - s
    {
      assert t[s] == was[..|t|][s];
      s := s + 1;
    }
    if a[s] == 0 {
      AtTerminator(was, s);
      NormalIs(t);
      return;
    }
    Squeeze(a, s, t);
  }

  /** The end of the string is where its terminator is. */
  lemma AtTerminator(a: seq<Byte>, s: nat)
    requires 0 in a && s <= |Terminated(a)|
    ensures s < |a| && (a[s] == 0 <==> s == |Terminated(a)|)
    ensures s < |Terminated(a)| ==> a[s] == Terminated(a)[s]
  {
    hide Terminated;
    Terminator(a);
    var t := Terminated(a);
    assert s < |t| ==> a[..|t|][s] == t[s];
  }

  /** Writing one byte at `p` leaves what stands from `s` on. */
  lemma Written(was: seq<Byte>, before: seq<Byte>, p: nat, s: nat, b: Byte)
    requires p <= s < |before| && |before| == |was| && before[s..] == was[s..]
    ensures before[p := b][..p + 1] == before[..p] + [b]
    ensures forall k :: s < k <= |before| ==> before[p := b][k..] == was[k..]
  {
    var now := before[p := b];
    forall k | s < k <= |before| ensures now[k..] == was[k..] {
      assert forall j :: k <= j < |before| ==> now[j] == before[s..][j - s] == was[s..][j - s];
    }
  }

  /** One turn of the loop below, on the string `t` that was there. */
  lemma Turn(t: Text, s: nat, done: Text)
    requires s < |t| && done + Normalised(t[s..]) == Normalised(t)
    ensures
      var k, b := After(t[s..]), if t[s] == CR_CHAR then LF_CHAR else t[s];
      s + k <= |t| && (done + [b]) + Normalised(t[s + k..]) == Normalised(t)
  {
    hide Normalised;
    NormalStep(t[s..]);
    var k, b := After(t[s..]), if t[s] == CR_CHAR then LF_CHAR else t[s];
    Tail(t, s, k);
    Assoc(done, [b], Normalised(t[s + k..]));
  }

  /** The second loop: `p` writes behind `s`, which reads. */
  method Squeeze(a: array<Byte>, start: nat, ghost t: Text)
    requires 0 in a[..] && t == Terminated(a[..]) && start < |t| && CR_CHAR !in t[..start]
    modifies a
    ensures 0 in a[..] && Terminated(a[..]) == Normalised(t)
  {
    hide Normalised, Terminated;
    ghost var was := a[..];
    Terminator(was);
    NormalIs(t[..start]);
    NormalConcat(t[..start], t[start..]);
    assert t == t[..start] + t[start..];
    assert a[..start] == was[..|t|][..start];
    var p, s := start, start;
    while a[s] != 0
      invariant p <= s <= |t| && |t| < a.Length && a[s..] == was[s..]
      invariant a[..p] + Normalised(t[s..]) == Normalised(t)
      decreases |t| - s
    {
      Reading(was, a[..], t, s);
      Turn(t, s, a[..p]);
      ghost var now := a[..];
      if a[s] == CR_CHAR {
        Written(was, now, p, s, LF_CHAR);
        a[p] := LF_CHAR;
        p, s := p + 1, s + 1;
        if a[s] == LF_CHAR {
          s := s + 1;
        }
      } else {
        Written(was, now, p, s, a[s]);
        a[p] := a[s];
        p, s := p + 1, s + 1;
      }
    }
    Reading(was, a[..], t, s);
    NormalNone();
    NormalNoZero(t);
    assert a[..p] + [] == a[..p] && t[|t|..] == [];
    a[p] := 0;
    TerminatedAt(a[..], p);
  }

  /** What the reading end of the loop sees is the string that was there. */
  lemma Reading(was: seq<Byte>, now: seq<Byte>, t: Text, s: nat)
    requires 0 in was && t == Terminated(was) && s <= |t| && |now| == |was| && |t| < |was| && now[s..] == was[s..]
    ensures (now[s] == 0 <==> s == |t|) && (s < |t| ==> now[s] == t[s])
    ensures s < |t| ==> s + 1 < |now| && (After(t[s..]) == 2 <==> now[s] == CR_CHAR && now[s + 1] == LF_CHAR)
  {
    hide Terminated;
    AtTerminator(was, s);
    assert now[s..][0] == was[s..][0];
    if s < |t| {
      AtTerminator(was, s + 1);
      assert now[s..][1] == was[s..][1];
    }
  }
}
