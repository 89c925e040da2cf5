/**
  End to end: what one client sends through the dialog server is what the other client
  is signalled, for any cuts that TCP makes on either hop.
*/
module Delivery {
  import opened Wire
  import opened DialogServer
  import opened Orders
  import opened Candidates
  import PeerClient

  // -------------------------------------------------------- the hop to the server

  /** The server is handed one segment after the other. */
  ghost predicate Hears(net: Net, c: Sock, segments: seq<string>, orders: seq<seq<seq<string>>>)
    decreases |segments|
  {
    && |orders| == |segments| && Formed(net) && Buffering(net, c)
    && (segments == [] ||
        (&& Listening(net, c, segments[0], orders[0])
         && Hears(ReceiveAll(net, c, segments[0], orders[0]), c, segments[1..], orders[1..])))
  }

  ghost function Heard(net: Net, c: Sock, segments: seq<string>, orders: seq<seq<seq<string>>>): (r: Net)
    requires Hears(net, c, segments, orders)
    ensures Formed(r) && r.conns.Keys == net.conns.Keys
    decreases |segments|
  {
    if segments == [] then net
    else Heard(ReceiveAll(net, c, segments[0], orders[0]), c, segments[1..], orders[1..])
  }

  function Joined(segments: seq<string>): string
  {
    if segments == [] then "" else segments[0] + Joined(segments[1..])
  }

  function Flat(orders: seq<seq<seq<string>>>): seq<seq<string>>
  {
    if orders == [] then [] else orders[0] + Flat(orders[1..])
  }

  lemma ListenNone(net: Net, c: Sock, orders: seq<seq<string>>)
    requires Formed(net) && Buffering(net, c)
    ensures Listening(net, c, "", orders) <==> orders == []
    ensures orders == [] ==> ReceiveAll(net, c, "", orders) == net
  {
  }

  lemma ListenSize(net: Net, c: Sock, d: string, orders: seq<seq<string>>)
    requires Listening(net, c, d, orders)
    ensures |orders| == |d| && Formed(net) && Buffering(net, c)
  {
  }

  lemma {:induction false} ReceiveConcat(net: Net, c: Sock, a: string, b: string, oa: seq<seq<string>>,
      ob: seq<seq<string>>)
    requires Listening(net, c, a, oa) && Listening(ReceiveAll(net, c, a, oa), c, b, ob)
    ensures Listening(net, c, a + b, oa + ob)
    ensures ReceiveAll(net, c, a + b, oa + ob) == ReceiveAll(ReceiveAll(net, c, a, oa), c, b, ob)
    decreases |b|
  {
    hide Enumerates, Receive, Formed, Listening, ReceiveAll;
    var mid := ReceiveAll(net, c, a, oa);
    ListenNone(mid, c, ob);
    if b == "" {
      assert a + b == a && oa + ob == oa;
    } else {
      var n := |b| - 1;
      assert b == b[..n] + [b[n]];
      ListenLast(mid, c, b[..n], b[n], ob);
      ReceiveConcat(net, c, a, b[..n], oa, ob[..n]);
      assert a + b == (a + b[..n]) + [b[n]] && oa + ob == (oa + ob[..n]) + [ob[n]];
      ReceiveOn(net, c, a + b[..n], oa + ob[..n], b[n], ob[n]);
    }
  }

  /** Segments are as good as the text in one piece. */
  lemma {:induction false} HeardAsOne(net: Net, c: Sock, segments: seq<string>, orders: seq<seq<seq<string>>>)
    requires Hears(net, c, segments, orders)
    ensures Listening(net, c, Joined(segments), Flat(orders))
    ensures Heard(net, c, segments, orders) == ReceiveAll(net, c, Joined(segments), Flat(orders))
    decreases |segments|
  {
    hide Receive, Enumerates, Formed;
    if segments != [] {
      var next := ReceiveAll(net, c, segments[0], orders[0]);
      HeardAsOne(next, c, segments[1..], orders[1..]);
      ReceiveConcat(net, c, segments[0], Joined(segments[1..]), orders[0], Flat(orders[1..]));
    }
  }

  lemma {:induction false} ListenSplit(net: Net, c: Sock, a: string, b: string, orders: seq<seq<string>>)
    requires Listening(net, c, a + b, orders)
    ensures Listening(net, c, a, orders[..|a|])
    ensures Listening(ReceiveAll(net, c, a, orders[..|a|]), c, b, orders[|a|..])
    ensures ReceiveAll(net, c, a + b, orders) == ReceiveAll(ReceiveAll(net, c, a, orders[..|a|]), c, b, orders[|a|..])
    decreases |b|
  {
    hide Enumerates, Receive, Formed, Listening, ReceiveAll;
    ListenSize(net, c, a + b, orders);
    if b == "" {
      assert a + b == a && orders[..|a|] == orders;
      ListenNone(ReceiveAll(net, c, a, orders), c, []);
    } else {
      var n, m := |b| - 1, |a| + |b| - 1;
      assert a + b == (a + b[..n]) + [b[n]];
      ListenLast(net, c, a + b[..n], b[n], orders);
      ListenSplit(net, c, a, b[..n], orders[..m]);
      assert orders[..m][..|a|] == orders[..|a|];
      var mid := ReceiveAll(net, c, a, orders[..|a|]);
      ReceiveOn(mid, c, b[..n], orders[..m][|a|..], b[n], orders[m]);
      assert b[..n] + [b[n]] == b && orders[..m][|a|..] + [orders[m]] == orders[|a|..];
    }
  }

  /** Characters before the `>` only pile up. */
  lemma {:induction false} ReceiveInside(net: Net, c: Sock, d: string, orders: seq<seq<string>>)
    requires Listening(net, c, d, orders) && '>' !in d
    ensures ReceiveAll(net, c, d, orders) == SetWord(net, c, net.conns[c].xmlWord + d)
  {
    hide Enumerates, Dialog, Formed;
    if d == "" {
      assert net.conns[c].xmlWord + d == net.conns[c].xmlWord;
      assert net.conns[c := net.conns[c]] == net.conns;
    } else {
      var n := |d| - 1;
      ReceiveInside(net, c, d[..n], orders[..n]);
      assert net.conns[c].xmlWord + d == (net.conns[c].xmlWord + d[..n]) + [d[n]];
    }
  }

  lemma SaidFrame(ws: seq<string>)
    requires ws != [] && PlainWords(ws)
    ensures Ended(Frame(ws)) && Split(Said(Frame(ws))) == ws
  {
    SentencePlain(ws);
    SplitSentence(ws);
    hide Split, PlainWords, Sentence;
    var f := Frame(ws);
    assert f[..|f| - 1] == "<" + Sentence(ws);
    EndedIndex(f);
    assert IndexOf(f, '<') == 0;
    assert Said(f) == Sentence(ws);
  }

  /** A whole frame that arrives on an empty buffer. */
  lemma ReceiveWords(net: Net, c: Sock, ws: seq<string>, orders: seq<seq<string>>)
    requires ws != [] && PlainWords(ws) && ws[0] == "send"
    requires Listening(net, c, Frame(ws), orders) && net.conns[c].xmlWord == ""
    ensures ReceiveAll(net, c, Frame(ws), orders) == Send(net, c, ws)
  {
    hide Enumerates, Send, Split, Said, Receive, PlainWords, Sentence, Formed, Login, ReceiveAll;
    SaidFrame(ws);
    var inside := "<" + Sentence(ws);
    SentencePlain(ws);
    assert Frame(ws) == inside + ">";
    ListenSplit(net, c, inside, ">", orders);
    ReceiveInside(net, c, inside, orders[..|inside|]);
    var before := ReceiveAll(net, c, inside, orders[..|inside|]);
    assert "" + inside == inside;
    ReceiveLast(before, c, orders[|inside|..]);
    assert SetWord(before, c, "") == net by { Unword(net, c, inside); }
  }

  lemma Unword(net: Net, c: Sock, word: string)
    requires c in net.conns && net.conns[c].xmlWord == ""
    ensures SetWord(SetWord(net, c, word), c, "") == net
  {
    assert net.conns[c := net.conns[c].(xmlWord := word)][c := net.conns[c]] == net.conns;
  }

  lemma ReceiveLast(net: Net, c: Sock, orders: seq<seq<string>>)
    requires Listening(net, c, ">", orders)
    ensures |orders| == 1 && Enumerates(orders[0], net.peers.Keys)
    ensures ReceiveAll(net, c, ">", orders) == Acted(net, c, orders[0])
  {
    hide Enumerates, Completed, Formed, Acted;
    assert ">"[..0] == "" && orders[..0] == [];
    ReceiveFrame(net, c, orders[0]);
  }

  // ---------------------------------------------------------------- both hops

  /** The frames that carry the bodies to the server, and on to the other client. */
  function Outgoing(to: string, bodies: seq<seq<string>>): seq<seq<string>>
  {
    seq(|bodies|, i requires 0 <= i < |bodies| => ["send", to] + bodies[i])
  }

  function Incoming(sender: string, bodies: seq<seq<string>>): seq<seq<string>>
  {
    seq(|bodies|, i requires 0 <= i < |bodies| => ["message", sender] + bodies[i])
  }

  ghost predicate PlainBodies(bodies: seq<seq<string>>) { forall i :: 0 <= i < |bodies| ==> PlainWords(bodies[i]) }

  /** The connection is logged in as `sender`, between frames, and `to` is registered. */
  ghost predicate Connected(net: Net, c: Sock, sender: string, to: string)
  {
    && Formed(net) && c in net.conns && net.conns[c].xmlWord == "" && net.conns[c].pid == Named(sender)
    && PlainWord(sender) && PlainWord(to) && to in net.peers
  }

  /** The server writes the bodies to the addressee, in order, and changes nothing else. */
  lemma {:induction false} ServerRelays(net: Net, c: Sock, sender: string, to: string, bodies: seq<seq<string>>,
      orders: seq<seq<string>>)
    requires Connected(net, c, sender, to) && PlainBodies(bodies)
    requires Listening(net, c, Frames(Outgoing(to, bodies)), orders)
    ensures
      var r := net.peers[to];
      ReceiveAll(net, c, Frames(Outgoing(to, bodies)), orders)
      == net.(written := net.written[r := net.written[r] + Frames(Incoming(sender, bodies))])
    decreases |bodies|
  {
    hide Receive, Frame, Frames, ReceiveAll, Listening, Send;
    var r := net.peers[to];
    if bodies == [] {
      NoFrames();
      assert Outgoing(to, bodies) == [] && Incoming(sender, bodies) == [];
      assert net.written[r] + "" == net.written[r];
      assert net.written[r := net.written[r]] == net.written;
      ReceiveNothing(net, c, orders);
    } else {
      var front, last := bodies[..|bodies| - 1], bodies[|bodies| - 1];
      assert Outgoing(to, bodies) == Outgoing(to, front) + [["send", to] + last];
      assert Incoming(sender, bodies) == Incoming(sender, front) + [["message", sender] + last];
      FramesSnoc(Outgoing(to, front), ["send", to] + last);
      FramesSnoc(Incoming(sender, front), ["message", sender] + last);
      var a, b := Frames(Outgoing(to, front)), Frame(["send", to] + last);
      OrdersLength(net, c, a + b, orders);
      ListenSplit(net, c, a, b, orders);
      ServerRelays(net, c, sender, to, front, orders[..|a|]);
      var mid := ReceiveAll(net, c, a, orders[..|a|]);
      OutgoingPlain(to, last);
      ReceiveWords(mid, c, ["send", to] + last, orders[|a|..]);
      SendBody(mid, c, sender, to, last);
      WrittenTwice(net.written, r, Frames(Incoming(sender, front)), Frame(["message", sender] + last));
    }
  }

  lemma WrittenTwice(written: map<Sock, string>, r: Sock, a: string, b: string)
    requires r in written
    ensures
      var w := written[r := written[r] + a];
      w[r := w[r] + b] == written[r := written[r] + (a + b)]
  {
    assert (written[r] + a) + b == written[r] + (a + b);
  }

  lemma OrdersLength(net: Net, c: Sock, d: string, orders: seq<seq<string>>)
    requires Listening(net, c, d, orders)
    ensures |orders| == |d|
  {
  }

  lemma NoFrames()
    ensures Frames([]) == ""
  {
  }

  lemma ReceiveNothing(net: Net, c: Sock, orders: seq<seq<string>>)
    requires Listening(net, c, "", orders)
    ensures ReceiveAll(net, c, "", orders) == net
  {
  }

  lemma OutgoingPlain(to: string, body: seq<string>)
    requires PlainWord(to) && PlainWords(body)
    ensures PlainWords(["send", to] + body)
  {
  }

  lemma IncomingPlain(sender: string, body: seq<string>)
    requires PlainWord(sender) && PlainWords(body)
    ensures PlainWords(["message", sender] + body)
  {
  }

  lemma SendBody(net: Net, c: Sock, sender: string, to: string, body: seq<string>)
    requires Connected(net, c, sender, to)
    ensures
      var r := net.peers[to];
      Send(net, c, ["send", to] + body) ==
        net.(written := net.written[r := net.written[r] + Frame(["message", sender] + body)])
  {
    hide Frame;
    assert (["send", to] + body)[2..] == body;
  }

  lemma {:induction false} IncomingSignals(sender: string, bodies: seq<seq<string>>)
    ensures
      var raised := PeerClient.Signals(Incoming(sender, bodies));
      |raised| == |bodies| && forall i :: 0 <= i < |bodies| ==> raised[i] == PeerClient.RemoteMessage(sender, bodies[i])
    decreases |bodies|
  {
    if bodies != [] {
      var front, last := bodies[..|bodies| - 1], bodies[|bodies| - 1];
      var ws := ["message", sender] + last;
      assert Incoming(sender, bodies) == Incoming(sender, front) + [ws];
      PeerClient.SignalsSnoc(Incoming(sender, front), ws);
      assert ws[2..] == last;
      IncomingSignals(sender, front);
    }
  }

  /**
    Any list of messages, any cuts on the way to the server; on the way on, the client
    reads the text however it is cut (PeerClient.Peer.OnReadEvent and Wire.ReadConcat).
  */
  lemma MessagesDelivered(net: Net, c: Sock, sender: string, to: string, bodies: seq<seq<string>>,
                          segments: seq<string>, orders: seq<seq<seq<string>>>, onward: seq<string>, at: Reader)
    requires Connected(net, c, sender, to) && PlainBodies(bodies)
    requires Hears(net, c, segments, orders) && Joined(segments) == Frames(Outgoing(to, bodies))
    requires Heard(net, c, segments, orders).written[net.peers[to]] == net.written[net.peers[to]] + Joined(onward)
    requires at.buffer == ""
    ensures
      var r := ReadSegments(at, onward);
      && r.buffer == ""
      && r.frames == at.frames + Incoming(sender, bodies)
      && |PeerClient.Signals(Incoming(sender, bodies))| == |bodies|
      && forall i :: 0 <= i < |bodies| ==>
        PeerClient.Signals(Incoming(sender, bodies))[i] == PeerClient.RemoteMessage(sender, bodies[i])
  {
    hide Heard, ReceiveAll, Frames, ReadAll, Listening, Hears, Joined, PeerClient.Signals;
    HeardAsOne(net, c, segments, orders);
    ServerRelays(net, c, sender, to, bodies, Flat(orders));
    var text := Frames(Incoming(sender, bodies));
    var was := net.written[net.peers[to]];
    assert was + Joined(onward) == was + text;
    assert Joined(onward) == (was + Joined(onward))[|was|..] && text == (was + text)[|was|..];
    ReadSegmentsAsOne(at, onward);
    forall i | 0 <= i < |bodies| ensures Incoming(sender, bodies)[i] != [] && PlainWords(Incoming(sender, bodies)[i]) {
      IncomingPlain(sender, bodies[i]);
    }
    ReadFrames(at, Incoming(sender, bodies));
    IncomingSignals(sender, bodies);
  }

  function ReadSegments(r: Reader, segments: seq<string>): Reader
    decreases |segments|
  {
    if segments == [] then r else ReadSegments(ReadAll(r, segments[0]), segments[1..])
  }

  lemma {:induction false} ReadSegmentsAsOne(r: Reader, segments: seq<string>)
    ensures ReadSegments(r, segments) == ReadAll(r, Joined(segments))
    decreases |segments|
  {
    if segments != [] {
      ReadSegmentsAsOne(ReadAll(r, segments[0]), segments[1..]);
      ReadConcat(r, segments[0], Joined(segments[1..]));
    }
  }

  /** A batch of candidates under a content name. */
  datatype Batch = Batch(content: string, candidates: seq<Candidate>)

  ghost predicate PlainBatch(b: Batch)
  {
    PlainWord(b.content) && Ports(b.candidates) && PlainWords(Fields(b.candidates))
  }

  function BatchBody(b: Batch): seq<string>
    requires Ports(b.candidates)
  {
    Body(PPMessage(TransportInfo, [b.content] + Fields(b.candidates)))
  }

  ghost function Bodies(batches: seq<Batch>): (r: seq<seq<string>>)
    requires forall i :: 0 <= i < |batches| ==> PlainBatch(batches[i])
  {
    seq(|batches|, i requires 0 <= i < |batches| && PlainBatch(batches[i]) => BatchBody(batches[i]))
  }

  /** A delivered body gives the batch back. */
  lemma BatchBack(b: Batch)
    requires PlainBatch(b)
    ensures PlainWords(BatchBody(b))
    ensures
      var got := Understood(BatchBody(b));
      && |got| == 1 && got[0].kind.TransportInfo? && got[0].argvs != []
      && got[0].argvs[0] == b.content && Decoded(got[0].argvs) == b.candidates
  {
    hide Fields;
    BodyUnderstood(PPMessage(TransportInfo, [b.content] + Fields(b.candidates)));
    StrideRoundTrip(b.content, b.candidates);
  }

  /** Every batch of every list arrives as it was sent, in order. */
  lemma CandidatesDelivered(net: Net, c: Sock, sender: string, to: string, batches: seq<Batch>,
                            segments: seq<string>, orders: seq<seq<seq<string>>>, onward: seq<string>, at: Reader)
    requires Connected(net, c, sender, to)
    requires forall i :: 0 <= i < |batches| ==> PlainBatch(batches[i])
    requires Hears(net, c, segments, orders)
    requires Joined(segments) == Frames(Outgoing(to, Bodies(batches)))
    requires Heard(net, c, segments, orders).written[net.peers[to]] == net.written[net.peers[to]] + Joined(onward)
    requires at.buffer == ""
    ensures
      var r := ReadSegments(at, onward);
      && at.frames <= r.frames
      && var got := PeerClient.Signals(r.frames[|at.frames|..]);
         && |got| == |batches|
         && forall i :: 0 <= i < |batches| ==>
              && got[i].RemoteMessage? && got[i].sender == sender && got[i].body != []
              && var msg := Understood(got[i].body);
                 && |msg| == 1 && msg[0].kind.TransportInfo? && msg[0].argvs != []
                 && msg[0].argvs[0] == batches[i].content && Decoded(msg[0].argvs) == batches[i].candidates
  {
    hide Heard, Frames, ReadAll, Hears, Formed, Joined, PeerClient.Signals, Decoded, Fields, BatchBody, ReadSegments;
    hide Understood;
    var bodies := Bodies(batches);
    forall i | 0 <= i < |batches|
      ensures PlainWords(bodies[i]) && bodies[i] != []
      ensures
        var got := Understood(bodies[i]);
        && |got| == 1 && got[0].kind.TransportInfo? && got[0].argvs != []
        && got[0].argvs[0] == batches[i].content && Decoded(got[0].argvs) == batches[i].candidates
    {
      BodyThere(batches[i]);
      BatchBack(batches[i]);
    }
    MessagesDelivered(net, c, sender, to, bodies, segments, orders, onward, at);
    var r := ReadSegments(at, onward);
    assert r.frames[|at.frames|..] == Incoming(sender, bodies);
  }

  lemma BodyThere(b: Batch)
    requires Ports(b.candidates)
    ensures BatchBody(b) != []
  {
  }
}
