/**
  Transport candidates from one session to the other: ppsession.cpp flattens them into
  words, prober.cpp and peer.cpp put the words on the wire, the dialog server relays
  them, and the other end indexes them back with a stride of ten.
*/
module Candidates {
  // ---------------------------------------------------------------- messages

  datatype Kind = Initiate | AcceptIt | Reject | Terminate | Info | TransportInfo

  datatype PPMessage = PPMessage(kind: Kind, argvs: seq<string>)

  predicate OnWire(kind: Kind) { kind.Initiate? || kind.AcceptIt? || kind.TransportInfo? }

  function KindWord(kind: Kind): string
  {
    if kind.Initiate? then "pp_initiate" else if kind.AcceptIt? then "pp_accept" else "pp_transport"
  }

  /** What onOutgoingMessage hands to the peer. */
  function Body(msg: PPMessage): seq<string> { [KindWord(msg.kind)] + msg.argvs }

  /** The message that onRemoteMessage makes of a body, if it knows the first word. */
  function Understood(body: seq<string>): seq<PPMessage>
    requires body != []
  {
    if body[0] == "pp_initiate" then [PPMessage(Initiate, body[1..])]
    else if body[0] == "pp_accept" then [PPMessage(AcceptIt, body[1..])]
    else if body[0] == "pp_transport" then [PPMessage(TransportInfo, body[1..])]
    else []
  }

  lemma BodyUnderstood(msg: PPMessage)
    requires OnWire(msg.kind)
    ensures Understood(Body(msg)) == [msg]
  {
    assert Body(msg)[1..] == msg.argvs;
  }

  // -------------------------------------------------------------- candidates

  /** A candidate; preference and generation in the text form in which they travel. */
  datatype Candidate = Candidate(
    name: string, protocol: string, preference: string, ip: string, port: int,
    username: string, password: string, transport: string, network: string, generation: string)

  function Digit(d: int): char
    requires 0 <= d < 10
  {
    '0' + d as char
  }

  predicate IsDigit(c: char) { '0' <= c <= '9' }

  predicate AllDigits(s: string) { forall k :: 0 <= k < |s| ==> IsDigit(s[k]) }

  /** PortAsString */
  function Decimal(n: nat): (s: string)
    ensures s != "" && AllDigits(s)
  {
    if n < 10 then [Digit(n)] else Decimal(n / 10) + [Digit(n % 10)]
  }

  function Lead(s: string, acc: nat): nat
  {
    if s == "" || !IsDigit(s[0]) then acc else Lead(s[1..], acc * 10 + (s[0] as int - '0' as int))
  }

  predicate Blank(c: char) { c == ' ' || '\t' <= c <= '\r' }

  /** atoi */
  function Atoi(s: string): int
  {
    if s != "" && Blank(s[0]) then Atoi(s[1..])
    else if s != "" && s[0] == '-' then 0 - Lead(s[1..], 0)
    else if s != "" && s[0] == '+' then Lead(s[1..], 0)
    else Lead(s, 0)
  }

  lemma {:induction false} LeadSnoc(s: string, c: char, acc: nat)
    requires AllDigits(s) && IsDigit(c)
    ensures Lead(s + [c], acc) == Lead(s, acc) * 10 + (c as int - '0' as int)
  {
    if s == "" {
      assert (s + [c])[1..] == "";
    } else {
      assert (s + [c])[1..] == s[1..] + [c];
      LeadSnoc(s[1..], c, acc * 10 + (s[0] as int - '0' as int));
    }
  }

  lemma {:induction false} LeadDecimal(n: nat)
    ensures Lead(Decimal(n), 0) == n
  {
    if n >= 10 {
      LeadDecimal(n / 10);
      LeadSnoc(Decimal(n / 10), Digit(n % 10), 0);
    }
  }

  lemma AtoiDecimal(n: nat)
    ensures Atoi(Decimal(n)) == n
  {
    LeadDecimal(n);
    assert IsDigit(Decimal(n)[0]);
  }

  function FieldsOf(c: Candidate): (r: seq<string>)
    requires c.port >= 0
    ensures |r| == 10
  {
    [c.name, c.protocol, c.preference, c.ip, Decimal(c.port), c.username, c.password, c.transport, c.network,
      c.generation]
  }

  predicate Ports(cs: seq<Candidate>) { forall k :: 0 <= k < |cs| ==> 0 <= cs[k].port < 0x10000 }

  function Fields(cs: seq<Candidate>): (r: seq<string>)
    requires Ports(cs)
    ensures |r| == 10 * |cs|
  {
    if cs == [] then [] else Fields(cs[..|cs| - 1]) + FieldsOf(cs[|cs| - 1])
  }

  /** The ten words of candidate `i`, as the receiver finds them. */
  function CandidateAt(argvs: seq<string>, i: nat): Candidate
    requires 10 * i + 11 <= |argvs|
  {
    var k := i * 10 + 1;
    Candidate(argvs[k], argvs[k + 1], argvs[k + 2], argvs[k + 3], Atoi(argvs[k + 4]),
              argvs[k + 5], argvs[k + 6], argvs[k + 7], argvs[k + 8], argvs[k + 9])
  }

  function Decoded(argvs: seq<string>): seq<Candidate>
    requires argvs != []
  {
    seq((|argvs| - 1) / 10, i requires 0 <= i < (|argvs| - 1) / 10 => CandidateAt(argvs, i))
  }

  lemma {:induction false} FieldsAt(cs: seq<Candidate>, i: nat)
    requires Ports(cs) && i < |cs|
    ensures Fields(cs)[10 * i..10 * i + 10] == FieldsOf(cs[i])
  {
    hide FieldsOf;
    var front := cs[..|cs| - 1];
    if i == |cs| - 1 {
      assert Fields(cs)[10 * i..10 * i + 10] == FieldsOf(cs[i]);
    } else {
      FieldsAt(front, i);
      assert Fields(cs)[10 * i..10 * i + 10] == Fields(front)[10 * i..10 * i + 10];
    }
  }

  function CandidateOf(f: seq<string>): Candidate
    requires |f| == 10
  {
    Candidate(f[0], f[1], f[2], f[3], Atoi(f[4]), f[5], f[6], f[7], f[8], f[9])
  }

  lemma SliceAt(argvs: seq<string>, i: nat)
    requires 10 * i + 11 <= |argvs|
    ensures CandidateAt(argvs, i) == CandidateOf(argvs[10 * i + 1..10 * i + 11])
  {
    hide Atoi;
  }

  lemma CandidateBack(content: string, cs: seq<Candidate>, i: nat)
    requires Ports(cs) && i < |cs|
    ensures CandidateAt([content] + Fields(cs), i) == cs[i]
  {
    hide Fields, CandidateAt, Decimal, Atoi;
    var argvs := [content] + Fields(cs);
    FieldsAt(cs, i);
    SliceAt(argvs, i);
    assert argvs[10 * i + 1..10 * i + 11] == Fields(cs)[10 * i..10 * i + 10];
    AtoiDecimal(cs[i].port);
  }

  /** The stride undoes the flattening. */
  lemma StrideRoundTrip(content: string, cs: seq<Candidate>)
    requires Ports(cs)
    ensures Decoded([content] + Fields(cs)) == cs
  {
    hide Fields, CandidateAt;
    var argvs := [content] + Fields(cs);
    assert (|argvs| - 1) / 10 == |cs|;
    forall i | 0 <= i < |cs| ensures Decoded(argvs)[i] == cs[i] {
      CandidateBack(content, cs, i);
    }
  }

  /** SendTransportInfoMessage */
  method TransportMessage(content: string, candidates: seq<Candidate>) returns (msg: PPMessage)
    requires Ports(candidates)
    ensures msg == PPMessage(TransportInfo, [content] + Fields(candidates))
  {
    var argvs := [content];
    assert candidates[..0] == [];
    for i := 0 to |candidates|
      invariant argvs == [content] + Fields(candidates[..i])
    {
      var c := candidates[i];
      FieldsSnoc(candidates, i);
      argvs := argvs + [c.name];
      argvs := argvs + [c.protocol];
      argvs := argvs + [c.preference];
      argvs := argvs + [c.ip];
      argvs := argvs + [Decimal(c.port)];
      argvs := argvs + [c.username];
      argvs := argvs + [c.password];
      argvs := argvs + [c.transport];
      argvs := argvs + [c.network];
      argvs := argvs + [c.generation];
    }
    assert candidates[..|candidates|] == candidates;
    msg := PPMessage(TransportInfo, argvs);
  }

  lemma FieldsSnoc(cs: seq<Candidate>, i: nat)
    requires i < |cs| && Ports(cs)
    ensures Ports(cs[..i]) && Ports(cs[..i + 1]) && Fields(cs[..i + 1]) == Fields(cs[..i]) + FieldsOf(cs[i])
  {
    hide FieldsOf;
    assert cs[..i + 1][..i] == cs[..i];
  }

  /** The loop of OnTransportInfoMessage; words left over after the last full ten are dropped. */
  method ParseCandidates(argvs: seq<string>) returns (candidates: seq<Candidate>)
    requires argvs != []
    ensures candidates == Decoded(argvs)
  {
    candidates := [];
    var n := (|argvs| - 1) / 10;
    for i := 0 to n
      invariant candidates == Decoded(argvs)[..i]
    {
      candidates := candidates + [Candidate(
        argvs[i * 10 + 1 + 0], argvs[i * 10 + 1 + 1], argvs[i * 10 + 1 + 2], argvs[i * 10 + 1 + 3],
        Atoi(argvs[i * 10 + 1 + 4]), argvs[i * 10 + 1 + 5], argvs[i * 10 + 1 + 6], argvs[i * 10 + 1 + 7],
        argvs[i * 10 + 1 + 8], argvs[i * 10 + 1 + 9])];
    }
  }
}
