/**
  Presence as the client's application sees it: the signals that a Peer raises on what the
  server wrote to it, however the text is cut, amount to exactly who else is registered.
*/
module Presence {
  import opened Wire
  import opened DialogServer
  import opened PeerClient
  import Delivery

  /** A signal on an application's list of who is there. */
  function Told(who: set<string>, s: Signal): set<string>
  {
    match s
    case RemoteOnline(id) => who + {id}
    case RemoteLogin(id) => who + {id}
    case RemoteOffline(id) => who - {id}
    case RemoteMessage(_, _) => who
  }

  /** The names that an application has on its list after these signals. */
  function Known(signals: seq<Signal>): set<string>
  {
    if signals == [] then {} else Told(Known(signals[..|signals| - 1]), signals[|signals| - 1])
  }

  lemma KnownSnoc(signals: seq<Signal>, s: Signal)
    ensures Known(signals + [s]) == Told(Known(signals), s)
  {
    assert (signals + [s])[..|signals|] == signals;
  }

  /** What a frame adds to the signals is what it adds to the list. */
  lemma KnownNote(signals: seq<Signal>, ws: seq<string>)
    ensures Known(signals + SignalOf(ws)) == Note(Known(signals), ws)
  {
    hide Known;
    if SignalOf(ws) == [] {
      assert signals + SignalOf(ws) == signals;
    } else {
      KnownSnoc(signals, SignalOf(ws)[0]);
      assert SignalOf(ws) == [SignalOf(ws)[0]];
    }
  }

  lemma {:induction false} KnownRoster(frames: seq<seq<string>>)
    ensures Known(Signals(frames)) == Roster(frames)
  {
    if frames == [] {
      NoSignals();
    } else {
      hide Known, Signals, SignalOf;
      var front, last := frames[..|frames| - 1], frames[|frames| - 1];
      KnownRoster(front);
      assert frames == front + [last];
      SignalsSnoc(front, last);
      KnownNote(Signals(front), last);
    }
  }

  /** Whole frames of two words or more, read in pieces. */
  lemma PiecesAddressed(r: Reader, segments: seq<string>)
    requires AllAddressed(ReadAll(r, Delivery.Joined(segments)).frames)
    ensures segments != [] ==>
      && AllAddressed(ReadAll(r, segments[0]).frames)
      && AllAddressed(ReadAll(ReadAll(r, segments[0]), Delivery.Joined(segments[1..])).frames)
  {
    hide ReadAll, Addressed;
    if segments != [] {
      var text := Delivery.Joined(segments);
      ReadConcat(r, segments[0], Delivery.Joined(segments[1..]));
      assert text[..|segments[0]|] == segments[0];
      FramesGrow(r, text, |segments[0]|);
    }
  }

  lemma TellsAddressed(text: string, who: set<string>)
    requires Tells(text, who)
    ensures var r := ReadAll(FRESH, text);
      AllAddressed(r.frames) && Roster(r.frames) == who
  {
    hide ReadAll, Roster;
  }

  /** Reading goes on from what was read: a reader that has read frames, and one that starts with the same buffer. */
  lemma {:induction false} ReadFrom(buffer: string, before: seq<seq<string>>, text: string)
    ensures
      var a, b := ReadAll(Reader(buffer, before), text), ReadAll(Reader(buffer, []), text);
      a.buffer == b.buffer && a.frames == before + b.frames
  {
    if text == "" {
      assert before + [] == before;
    } else {
      ReadFrom(buffer, before, text[..|text| - 1]);
    }
  }

  /** The socket's read events, one segment after the other. */
  method HearSegments(peer: PeerClient.Peer, segments: seq<string>)
    requires peer.xmlBuffer == "" && AllAddressed(ReadAll(FRESH, Delivery.Joined(segments)).frames)
    modifies peer
    ensures
      var r := ReadAll(FRESH, Delivery.Joined(segments));
      peer.xmlBuffer == r.buffer && peer.raised == old(peer.raised) + Signals(r.frames)
  {
    hide ReadAll, Signals, Addressed;
    ghost var r := FRESH;
    ReadNothing(r);
    NoSignals();
    var rest := segments;
    assert rest == segments;
    while rest != []
      invariant '>' !in peer.xmlBuffer && peer.xmlBuffer == r.buffer
      invariant peer.raised == old(peer.raised) + Signals(r.frames)
      invariant ReadAll(r, Delivery.Joined(rest)) == ReadAll(FRESH, Delivery.Joined(segments))
      decreases |rest|
    {
      var data := rest[0];
      PiecesAddressed(r, rest);
      ReadConcat(r, data, Delivery.Joined(rest[1..]));
      ReadFrom(r.buffer, r.frames, data);
      ghost var more := ReadAll(Reader(r.buffer, []), data).frames;
      AddressedPart(r.frames, more);
      SignalsConcat(r.frames, more);
      peer.OnReadEvent(data);
      r := ReadAll(r, data);
      rest := rest[1..];
    }
    ReadNothing(r);
  }

  lemma AddressedPart(a: seq<seq<string>>, b: seq<seq<string>>)
    requires AllAddressed(a + b)
    ensures AllAddressed(b)
  {
    hide Addressed;
    forall k | 0 <= k < |b| ensures Addressed(b[k]) {
      assert (a + b)[|a| + k] == b[k];
    }
  }

  /**
    In every orderly run: a client reads what the server wrote to it, in segments of any
    sizes, and the signals it raises put exactly the other registered names on the list.
  */
  method PresenceSignalled(ghost events: seq<Event>, ghost p: string, segments: seq<string>)
      returns (peer: PeerClient.Peer)
    requires OrderlyRun(events) && p in After(events).peers && After(events).peers[p] in After(events).written
    requires Delivery.Joined(segments) == After(events).written[After(events).peers[p]]
    ensures peer.xmlBuffer == "" && Known(peer.raised) == After(events).peers.Keys - {p}
  {
    hide After, Inv, Tells, ReadAll, Known, Signals, Roster;
    ghost var who := After(events).peers.Keys - {p};
    PresenceReplicated(events);
    TellsAddressed(Delivery.Joined(segments), who);
    TellsWhole(Delivery.Joined(segments), who);
    KnownRoster(ReadAll(FRESH, Delivery.Joined(segments)).frames);
    peer := new PeerClient.Peer();
    HearSegments(peer, segments);
    assert [] + Signals(ReadAll(FRESH, Delivery.Joined(segments)).frames) ==
      Signals(ReadAll(FRESH, Delivery.Joined(segments)).frames);
  }

  lemma TellsWhole(text: string, who: set<string>)
    requires Tells(text, who)
    ensures ReadAll(FRESH, text).buffer == ""
  {
    hide ReadAll, Roster;
  }

  /** The same as a law about the signals, without the client's own state. */
  lemma SignalsTell(events: seq<Event>, p: string)
    requires OrderlyRun(events) && p in After(events).peers
    ensures
      var net := After(events);
      && net.peers[p] in net.written
      && Known(Signals(ReadAll(FRESH, net.written[net.peers[p]]).frames)) == net.peers.Keys - {p}
  {
    hide Tells, ReadAll, Known, Signals, Roster;
    PresenceReplicated(events);
    var net := After(events);
    var text := net.written[net.peers[p]];
    TellsAddressed(text, net.peers.Keys - {p});
    KnownRoster(ReadAll(FRESH, text).frames);
  }
}
