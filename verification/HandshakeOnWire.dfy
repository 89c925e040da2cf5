/**
  The handshake down to the characters: two probers, their sockets, the dialog server
  and any other clients, where each step is one character received by the server, one
  character read by a client, or something that happens to one party. Characters of all
  connections interleave freely.

  Every run of this system is a run of the message-level World of Handshake (`Refines`),
  so what is safe there is safe here (`SafeOnWire`). Other clients may connect, log in
  under other names, talk to each other and leave; they do not send to the two probers,
  since onRemoteMessage does not look at the sender.
*/
module HandshakeOnWire {
  import opened Wire
  import opened Orders
  import opened Candidates
  import opened PPSessions
  import H = Handshake
  import D = DialogServer
  import PeerClient
  import Delivery

  datatype Link = Off | On(c: D.Sock)

  /** `queued` was sent and is not yet received; `read` counts what the client has read of what was written to it. */
  datatype System = System(
    net: D.Net, links: H.Pair<Link>, ends: H.Pair<H.End>,
    queued: H.Pair<string>, read: H.Pair<nat>, buffers: H.Pair<string>)

  const START := System(
    D.NO_NET, H.Pair(Off, Off), H.Pair(H.NEW_END, H.NEW_END), H.Pair("", ""), H.Pair(0, 0), H.Pair("", ""))

  datatype Step =
    | Connect(x: H.Side, c: D.Sock, sid: string)
    | Receive(x: H.Side, order: seq<string>)
    | Read(x: H.Side, order: seq<string>)
    | Work(x: H.Side, order: seq<string>)
    | Report(x: H.Side, proxy: string, candidates: seq<Candidate>)
    | Lose(x: H.Side, order: seq<string>)
    | Other(e: D.Event)

  // ------------------------------------------------------------------- words

  predicate PlainCandidates(cs: seq<Candidate>) { Ports(cs) && PlainWords(Fields(cs)) }

  /** A message that can be put into words without delimiters. */
  predicate PlainMessage(m: Message)
  {
    && H.Carried(m)
    && (match m
        case InitiateMsg(content) => PlainWord(content)
        case AcceptMsg(content) => PlainWord(content)
        case TransportMsg(content, candidates) => PlainWord(content) && PlainCandidates(candidates)
        case _ => false)
  }

  predicate PlainMessages(ms: seq<Message>) { forall k :: 0 <= k < |ms| ==> PlainMessage(ms[k]) }

  function MessageWords(m: Message): seq<string> { if Portable(m) then Body(ToWire(m)) else [] }

  /** What SendMessage puts into its frame. */
  function SendWords(names: H.Pair<string>, x: H.Side, m: Message): seq<string>
  {
    ["send", names.Get(H.Other(x))] + MessageWords(m)
  }

  function RequestWords(names: H.Pair<string>, x: H.Side, r: H.Request): seq<string>
  {
    match r
    case LoginRequest => ["login", names.Get(x)]
    case SendRequest(m) => SendWords(names, x, m)
  }

  function RequestFrames(names: H.Pair<string>, x: H.Side, up: seq<H.Request>): (r: seq<seq<string>>)
    ensures |r| == |up| && forall k :: 0 <= k < |r| ==> r[k] != []
  {
    seq(|up|, i requires 0 <= i < |up| => RequestWords(names, x, up[i]))
  }

  /** What a prober sends for these messages. */
  function Spoken(names: H.Pair<string>, x: H.Side, ms: seq<Message>): string
  {
    Frames(RequestFrames(names, x, H.Requests(ms)))
  }

  // ------------------------------------------------------------------- steps

  /** The prober's slots for what processXML signals. */
  ghost function Handled(names: H.Pair<string>, x: H.Side, e: H.End, ws: seq<string>, order: seq<string>): H.Effect
    requires Enumerates(order, e.s.unsent.Keys)
  {
    var raised := PeerClient.SignalOf(ws);
    if raised == [] then H.Effect(e, [])
    else match raised[0]
      case RemoteLogin(id) => H.Effect(if id == names.Get(H.Other(x)) then H.RemoteLogin(e) else e, [])
      case RemoteMessage(sender, body) =>
        var msgs := if body == [] then [] else Understood(body);
        if msgs == [] || msgs[0].argvs == [] then H.Effect(e, []) else H.RemoteMessage(e, FromWire(msgs[0]), order)
      case _ => H.Effect(e, [])
  }

  /** Two different names, as login frames can carry them. */
  predicate Named(names: H.Pair<string>) { names.a != names.b && PlainWord(names.a) && PlainWord(names.b) }

  /** An event of another client, which keeps off the two names. */
  ghost predicate Stranger(names: H.Pair<string>, b: System, e: D.Event)
    requires D.Basic(b.net)
  {
    && b.links.a != On(e.c) && b.links.b != On(e.c)
    && D.Possible(b.net, e) && D.Orderly(b.net, e)
    && (e.Received? && e.ch == '>' ==>
          var ws := D.Completed(b.net, e.c);
          ws[0] == "login" || ws[0] == "send" ==>
            D.Key(D.WordAt(ws, 1)) != names.a && D.Key(D.WordAt(ws, 1)) != names.b)
  }

  ghost predicate Enabled(names: H.Pair<string>, b: System, step: Step)
    requires D.Basic(b.net)
  {
    match step
    case Connect(x, c, sid) =>
      b.links.Get(x).Off? && D.Possible(b.net, D.Accepted(c, sid)) && D.Orderly(b.net, D.Accepted(c, sid))
    case Receive(x, order) =>
      b.links.Get(x).On? && b.queued.Get(x) != "" &&
        D.Possible(b.net, D.Received(b.links.Get(x).c, b.queued.Get(x)[0], order))
    case Read(x, order) =>
      && b.links.Get(x).On? && b.links.Get(x).c in b.net.written
      && b.read.Get(x) < |b.net.written[b.links.Get(x).c]| && Enumerates(order, b.ends.Get(x).s.unsent.Keys)
    case Work(x, order) => b.ends.Get(x).tasks != [] && Enumerates(order, b.ends.Get(x).s.unsent.Keys)
    case Report(x, proxy, candidates) => !b.ends.Get(x).s.state.Init? && PlainCandidates(candidates)
    case Lose(x, order) => b.links.Get(x).On? && D.Possible(b.net, D.Closed(b.links.Get(x).c, order))
    case Other(e) => Stranger(names, b, e)
  }

  /** The prober does something and sends something. */
  function Did(names: H.Pair<string>, b: System, x: H.Side, r: H.Effect): System
  {
    b.(ends := b.ends.Set(x, r.e), queued := b.queued.Set(x, b.queued.Get(x) + Spoken(names, x, r.out)))
  }

  ghost function ReadOne(names: H.Pair<string>, b: System, x: H.Side, ch: char, order: seq<string>): System
    requires Enumerates(order, b.ends.Get(x).s.unsent.Keys)
  {
    var got := b.(read := b.read.Set(x, b.read.Get(x) + 1));
    if ch == '>' then
      Did(names, got.(buffers := b.buffers.Set(x, "")), x,
          Handled(names, x, b.ends.Get(x), FrameWords(b.buffers.Get(x) + [ch]), order))
    else got.(buffers := b.buffers.Set(x, b.buffers.Get(x) + [ch]))
  }

  ghost function Next(names: H.Pair<string>, b: System, step: Step): (r: System)
    requires D.Basic(b.net) && Enabled(names, b, step)
    ensures D.Basic(r.net)
  {
    match step
    case Connect(x, c, sid) =>
      b.(net := D.Next(b.net, D.Accepted(c, sid)), links := b.links.Set(x, On(c)),
         queued := b.queued.Set(x, b.queued.Get(x) + Frame(["login", names.Get(x)])))
    case Receive(x, order) =>
      b.(net := D.Next(b.net, D.Received(b.links.Get(x).c, b.queued.Get(x)[0], order)),
         queued := b.queued.Set(x, b.queued.Get(x)[1..]))
    case Read(x, order) => ReadOne(names, b, x, b.net.written[b.links.Get(x).c][b.read.Get(x)], order)
    case Work(x, order) => Did(names, b, x, H.RunTask(b.ends.Get(x), order))
    case Report(x, proxy, candidates) => Did(names, b, x, H.Reported(b.ends.Get(x), proxy, candidates))
    case Lose(x, order) => b.(net := D.Next(b.net, D.Closed(b.links.Get(x).c, order)))
    case Other(e) => b.(net := D.Next(b.net, e))
  }

  ghost predicate Run(names: H.Pair<string>, steps: seq<Step>)
    decreases |steps|, 0
  {
    steps == [] || (var n := |steps| - 1; Run(names, steps[..n]) && Enabled(names, After(names, steps[..n]), steps[n]))
  }

  ghost function After(names: H.Pair<string>, steps: seq<Step>): (b: System)
    requires Run(names, steps)
    ensures D.Basic(b.net)
    decreases |steps|, 1
  {
    if steps == [] then START else var n := |steps| - 1; Next(names, After(names, steps[..n]), steps[n])
  }

  // ------------------------------------------------------- the message-level view

  /** A frame on its way to `x` and the notice it is. */
  ghost predicate NoticeIs(names: H.Pair<string>, x: H.Side, ws: seq<string>, n: H.Notice)
  {
    && ws != [] && PlainWords(ws)
    && match n
       case LoginNotice => ws == ["login", names.Get(H.Other(x))]
       case MessageNotice(m) => PlainMessage(m) && ws == ["message", names.Get(H.Other(x))] + MessageWords(m)
       case OtherNotice =>
         |ws| == 2 && (ws[0] == "online" || ws[0] == "offline" || (ws[0] == "login" && ws[1] != names.Get(H.Other(x))))
  }

  ghost predicate Told(names: H.Pair<string>, x: H.Side, fs: seq<seq<string>>, down: seq<H.Notice>)
  {
    |fs| == |down| && forall k :: 0 <= k < |fs| ==> NoticeIs(names, x, fs[k], down[k])
  }

  predicate PlainRequests(up: seq<H.Request>)
  {
    forall k :: 0 <= k < |up| && up[k].SendRequest? ==> PlainMessage(up[k].msg)
  }

  /** All that a session may have to send is plain. */
  ghost predicate PlainEnd(e: H.End)
  {
    PlainWord(e.s.content) && forall n :: n in e.s.unsent ==> PlainWord(n) && PlainCandidates(e.s.unsent[n])
  }

  /** What is known of `x`'s connection `c`. */
  ghost predicate Wired(names: H.Pair<string>, b: System, w: H.World, x: H.Side, fs: seq<seq<string>>, c: D.Sock)
  {
    && c in b.net.conns && c in b.net.written
    && w.connected.Get(x)
    && b.net.conns[c].pid == (if w.logged.Get(x) then D.Named(names.Get(x)) else D.Null)
    && (w.closed.Get(x) <==> c !in b.net.live)
    && (!w.closed.Get(x) ==> b.net.conns[c].xmlWord + b.queued.Get(x) == Frames(RequestFrames(names, x, w.up.Get(x))))
    && PlainFrames(fs) && Told(names, x, fs, w.down.Get(x))
    && '>' !in b.buffers.Get(x) && b.read.Get(x) <= |b.net.written[c]|
    && b.buffers.Get(x) + b.net.written[c][b.read.Get(x)..] == Frames(fs)
  }

  ghost predicate Unwired(b: System, w: H.World, x: H.Side, fs: seq<seq<string>>)
  {
    && !w.connected.Get(x) && !w.logged.Get(x) && !w.closed.Get(x)
    && w.up.Get(x) == [] && w.down.Get(x) == [] && fs == []
    && b.queued.Get(x) == "" && b.buffers.Get(x) == "" && b.read.Get(x) == 0
  }

  ghost predicate SideOk(names: H.Pair<string>, b: System, w: H.World, x: H.Side, fs: seq<seq<string>>)
  {
    && b.ends.Get(x) == w.ends.Get(x) && PlainEnd(b.ends.Get(x)) && PlainRequests(w.up.Get(x))
    && match b.links.Get(x)
       case Off => Unwired(b, w, x, fs)
       case On(c) => Wired(names, b, w, x, fs, c)
  }

  /** The table holds `x`'s name if and only if the world has it on the table, and then for its connection. */
  ghost predicate TableOk(names: H.Pair<string>, b: System, w: H.World, x: H.Side)
  {
    && (names.Get(x) in b.net.peers <==> H.OnTable(w, x))
    && (names.Get(x) in b.net.peers ==> b.links.Get(x) == On(b.net.peers[names.Get(x)]))
  }

  ghost predicate Matches(names: H.Pair<string>, b: System, w: H.World, f: H.Pair<seq<seq<string>>>)
  {
    && Named(names) && D.Inv(b.net) && D.Basic(b.net)
    && (b.links.a.On? ==> b.links.a != b.links.b)
    && (forall x :: SideOk(names, b, w, x, f.Get(x)) && TableOk(names, b, w, x))
  }

  ghost predicate Reaches(w: H.World) { exists steps :: H.Run(steps) && H.After(steps) == w }

  lemma Extend(w: H.World, step: H.Step)
    requires Reaches(w) && H.Enabled(w, step)
    ensures Reaches(H.Next(w, step))
  {
    hide H.Next, H.Enabled;
    var steps :| H.Run(steps) && H.After(steps) == w;
    var more := steps + [step];
    assert more[..|steps|] == steps;
    assert H.Run(more) && H.After(more) == H.Next(w, step);
  }

  lemma ReachedInv(w: H.World)
    requires Reaches(w)
    ensures H.Inv(w)
  {
    hide H.Inv;
    var steps :| H.Run(steps) && H.After(steps) == w;
    H.InvRun(steps);
  }

  lemma StartMatches(names: H.Pair<string>)
    requires Named(names)
    ensures Reaches(H.NEW_WORLD) && Matches(names, START, H.NEW_WORLD, H.Pair([], []))
  {
    assert H.Run([]) && H.After([]) == H.NEW_WORLD;
  }

  // --------------------------------------------------------------- one side's view

  /** The notices to `x` and the text written to it grow by the same frames, and nothing else about it changes. */
  lemma SideHears(names: H.Pair<string>, b: System, w: H.World, b': System, w': H.World, x: H.Side,
                  fs: seq<seq<string>>, gs: seq<seq<string>>, ns: seq<H.Notice>)
    requires SideOk(names, b, w, x, fs)
    requires PlainFrames(gs) && Told(names, x, gs, ns) && (gs == [] || b.links.Get(x).On?)
    requires b'.links.Get(x) == b.links.Get(x) && b'.ends.Get(x) == b.ends.Get(x) && b'.queued.Get(x) == b.queued.Get(x)
    requires b'.read.Get(x) == b.read.Get(x) && b'.buffers.Get(x) == b.buffers.Get(x)
    requires w'.ends.Get(x) == w.ends.Get(x) && w'.up.Get(x) == w.up.Get(x) && w'.down.Get(x) == w.down.Get(x) + ns
    requires w'.connected.Get(x) == w.connected.Get(x) && w'.logged.Get(x) == w.logged.Get(x)
    requires w'.closed.Get(x) == w.closed.Get(x)
    requires b.links.Get(x).On? ==>
      var c := b.links.Get(x).c;
      && c in b'.net.conns && b'.net.conns[c] == b.net.conns[c] && (c in b'.net.live <==> c in b.net.live)
      && c in b'.net.written && b'.net.written[c] == b.net.written[c] + Frames(gs)
    ensures SideOk(names, b', w', x, fs + gs)
  {
    hide NoticeIs, PlainWords, RequestFrames, Frames, PlainEnd, PlainRequests;
    match b.links.Get(x)
    case Off =>
      assert ns == [];
    case On(c) =>
      FramesConcat(fs, gs);
      var n := b.read.Get(x);
      assert (b.net.written[c] + Frames(gs))[n..] == b.net.written[c][n..] + Frames(gs);
      assert (b.buffers.Get(x) + b.net.written[c][n..]) + Frames(gs) ==
        b.buffers.Get(x) + (b.net.written[c][n..] + Frames(gs));
  }

  /** `x`'s side when nothing about it changes. */
  lemma SideStays(names: H.Pair<string>, b: System, w: H.World, b': System, w': H.World, x: H.Side,
      fs: seq<seq<string>>)
    requires SideOk(names, b, w, x, fs)
    requires b'.links.Get(x) == b.links.Get(x) && b'.ends.Get(x) == b.ends.Get(x) && b'.queued.Get(x) == b.queued.Get(x)
    requires b'.read.Get(x) == b.read.Get(x) && b'.buffers.Get(x) == b.buffers.Get(x)
    requires w'.ends.Get(x) == w.ends.Get(x) && w'.up.Get(x) == w.up.Get(x) && w'.down.Get(x) == w.down.Get(x)
    requires w'.connected.Get(x) == w.connected.Get(x) && w'.logged.Get(x) == w.logged.Get(x)
    requires w'.closed.Get(x) == w.closed.Get(x)
    requires b.links.Get(x).On? ==>
      var c := b.links.Get(x).c;
      && c in b'.net.conns && b'.net.conns[c] == b.net.conns[c] && (c in b'.net.live <==> c in b.net.live)
      && c in b'.net.written && b'.net.written[c] == b.net.written[c]
    ensures SideOk(names, b', w', x, fs)
  {
    hide NoticeIs, PlainWords, RequestFrames, Frames, PlainEnd, PlainRequests;
  }

  /** Two sides are all there are. */
  lemma BothMatch(names: H.Pair<string>, b: System, w: H.World, f: H.Pair<seq<seq<string>>>, x: H.Side)
    requires Named(names) && D.Inv(b.net) && D.Basic(b.net) && (b.links.a.On? ==> b.links.a != b.links.b)
    requires SideOk(names, b, w, x, f.Get(x)) && TableOk(names, b, w, x)
    requires SideOk(names, b, w, H.Other(x), f.Get(H.Other(x))) && TableOk(names, b, w, H.Other(x))
    ensures Matches(names, b, w, f)
  {
    hide SideOk, TableOk, D.Inv, D.Basic;
    forall z ensures SideOk(names, b, w, z, f.Get(z)) && TableOk(names, b, w, z) {
      assert z == x || z == H.Other(x);
    }
  }

  lemma LinksDiffer(names: H.Pair<string>, b: System, w: H.World, f: H.Pair<seq<seq<string>>>, x: H.Side)
    requires Matches(names, b, w, f)
    ensures b.links.Get(x).On? ==> b.links.Get(x) != b.links.Get(H.Other(x))
    ensures SideOk(names, b, w, x, f.Get(x)) && TableOk(names, b, w, x)
    ensures SideOk(names, b, w, H.Other(x), f.Get(H.Other(x))) && TableOk(names, b, w, H.Other(x))
    ensures b.links.Get(x).On? ==> b.links.Get(x).c in b.net.conns && b.links.Get(x).c in b.net.written
    ensures b.links.Get(H.Other(x)).On? ==>
      b.links.Get(H.Other(x)).c in b.net.conns && b.links.Get(H.Other(x)).c in b.net.written
  {
    hide NoticeIs, PlainWords, RequestFrames, Frames, PlainEnd, PlainRequests, D.Inv, D.Basic;
  }

  // ----------------------------------------------------------------- connecting

  lemma ConnectMatches(names: H.Pair<string>, b: System, w: H.World, f: H.Pair<seq<seq<string>>>, x: H.Side, c: D.Sock,
      sid: string)
      returns (w': H.World)
    requires Matches(names, b, w, f) && Reaches(w) && Enabled(names, b, Connect(x, c, sid))
    ensures Reaches(w') && Matches(names, Next(names, b, Connect(x, c, sid)), w', f)
  {
    hide D.Inv, D.Basic, Frame, Frames, PlainWords, PlainEnd, H.Enabled, Reaches;
    var b' := Next(names, b, Connect(x, c, sid));
    LinksDiffer(names, b, w, f, x);
    D.InvNext(b.net, D.Accepted(c, sid));
    assert H.Enabled(w, H.Connect(x)) by { CanConnect(names, b, w, x, f.Get(x)); }
    w' := H.Next(w, H.Connect(x));
    Extend(w, H.Connect(x));
    SideStays(names, b, w, b', w', H.Other(x), f.Get(H.Other(x)));
    ConnectSide(names, b, w, x, c, sid);
    BothMatch(names, b', w', f, x);
  }

  lemma CanConnect(names: H.Pair<string>, b: System, w: H.World, x: H.Side, fs: seq<seq<string>>)
    requires SideOk(names, b, w, x, fs) && b.links.Get(x).Off?
    ensures H.Enabled(w, H.Connect(x))
  {
  }

  lemma ConnectSide(names: H.Pair<string>, b: System, w: H.World, x: H.Side, c: D.Sock, sid: string)
    requires Named(names) && D.Basic(b.net) && Enabled(names, b, Connect(x, c, sid)) && SideOk(names, b, w, x, [])
    ensures H.Enabled(w, H.Connect(x))
    ensures SideOk(names, Next(names, b, Connect(x, c, sid)), H.Next(w, H.Connect(x)), x, [])
  {
    hide D.Inv, D.Basic, Frame, Frames, PlainEnd;
    var login := ["login", names.Get(x)];
    assert [] + [H.LoginRequest] == [H.LoginRequest];
    assert RequestFrames(names, x, [H.LoginRequest]) == [login];
    FramesSnoc([], login);
    NoFrame();
    assert [] + [login] == [login];
    assert "" + Frame(login) == Frame(login);
  }

  // -------------------------------------------------------- the server's characters

  lemma RequestsPlain(names: H.Pair<string>, x: H.Side, up: seq<H.Request>)
    requires Named(names) && PlainRequests(up)
    ensures PlainFrames(RequestFrames(names, x, up))
  {
    hide PlainMessage;
    forall k | 0 <= k < |up| ensures PlainWords(RequestWords(names, x, up[k])) {
      if up[k].SendRequest? {
        MessagePlain(up[k].msg);
      }
    }
  }

  lemma MessagePlain(m: Message)
    requires PlainMessage(m)
    ensures Portable(m) && PlainWords(MessageWords(m))
  {
    hide Fields;
  }

  /** A connection that is still open, mid-frame. */
  ghost predicate Sending(names: H.Pair<string>, b: System, w: H.World, f: H.Pair<seq<seq<string>>>, x: H.Side,
      order: seq<string>)
  {
    Matches(names, b, w, f) && Reaches(w) && D.Basic(b.net) && Enabled(names, b, Receive(x, order))
  }

  /** What the next character of `x` is to the server. */
  lemma NextChar(names: H.Pair<string>, b: System, w: H.World, f: H.Pair<seq<seq<string>>>, x: H.Side,
      order: seq<string>)
    requires Sending(names, b, w, f, x, order)
    ensures
      var c, q := b.links.Get(x).c, b.queued.Get(x);
      && c in b.net.conns && !w.closed.Get(x) && w.up.Get(x) != []
      && (if q[0] == '>' then
            && D.Buffering(b.net, c) && D.Completed(b.net, c) == RequestWords(names, x, w.up.Get(x)[0])
            && q[1..] == Frames(RequestFrames(names, x, w.up.Get(x)[1..]))
          else (b.net.conns[c].xmlWord + [q[0]]) + q[1..] == Frames(RequestFrames(names, x, w.up.Get(x))))
  {
    hide D.Inv, Frames, Frame, PlainEnd, NoticeIs, RequestWords, Split, D.Said;
    LinksDiffer(names, b, w, f, x);
    var c, q, fs := b.links.Get(x).c, b.queued.Get(x), RequestFrames(names, x, w.up.Get(x));
    RequestsPlain(names, x, w.up.Get(x));
    assert D.Buffering(b.net, c);
    FirstFrame(b.net.conns[c].xmlWord, q, fs);
    assert fs[1..] == RequestFrames(names, x, w.up.Get(x)[1..]);
    if q[0] == '>' {
      Delivery.SaidFrame(fs[0]);
    }
  }

  lemma MidFrame(names: H.Pair<string>, b: System, w: H.World, f: H.Pair<seq<seq<string>>>, x: H.Side,
      order: seq<string>)
    requires Sending(names, b, w, f, x, order) && b.queued.Get(x)[0] != '>'
    ensures Matches(names, Next(names, b, Receive(x, order)), w, f)
  {
    hide D.Inv, D.Basic, Frames, PlainEnd, NoticeIs, RequestFrames, D.Dialog, Enumerates, PlainRequests;
    LinksDiffer(names, b, w, f, x);
    NextChar(names, b, w, f, x, order);
    var b' := Next(names, b, Receive(x, order));
    var c, ch := b.links.Get(x).c, b.queued.Get(x)[0];
    ReceivePlain(b.net, c, ch, order);
    D.InvNext(b.net, D.Received(c, ch, order));
    SideStays(names, b, w, b', w, H.Other(x), f.Get(H.Other(x)));
    BothMatch(names, b', w, f, x);
  }

  /** A character inside a frame only goes into the buffer. */
  lemma ReceivePlain(net: D.Net, c: D.Sock, ch: char, order: seq<string>)
    requires D.Basic(net) && D.Possible(net, D.Received(c, ch, order)) && ch != '>'
    ensures D.Next(net, D.Received(c, ch, order)) == D.SetWord(net, c, net.conns[c].xmlWord + [ch])
    ensures D.Orderly(net, D.Received(c, ch, order))
  {
    hide D.Dialog, Enumerates;
  }

  /** `x`'s own side once a frame of its has been served, if nothing was written to it but `gs`. */
  lemma ServedSide(names: H.Pair<string>, b: System, w: H.World, b': System, w': H.World, x: H.Side,
                   fs: seq<seq<string>>, gs: seq<seq<string>>, ns: seq<H.Notice>)
    requires SideOk(names, b, w, x, fs) && b.links.Get(x).On? && w.up.Get(x) != []
    requires PlainFrames(gs) && Told(names, x, gs, ns)
    requires b'.links.Get(x) == b.links.Get(x) && b'.ends.Get(x) == b.ends.Get(x)
    requires b'.read.Get(x) == b.read.Get(x) && b'.buffers.Get(x) == b.buffers.Get(x)
    requires w'.ends.Get(x) == w.ends.Get(x) && w'.up.Get(x) == w.up.Get(x)[1..] && w'.down.Get(x) == w.down.Get(x) + ns
    requires w'.connected.Get(x) == w.connected.Get(x) && w'.closed.Get(x) == w.closed.Get(x)
    requires
      var c := b.links.Get(x).c;
      && c in b'.net.conns && b'.net.conns[c].xmlWord == "" && (c in b'.net.live <==> c in b.net.live)
      && b'.net.conns[c].pid == (if w'.logged.Get(x) then D.Named(names.Get(x)) else D.Null)
      && c in b.net.written && c in b'.net.written && b'.net.written[c] == b.net.written[c] + Frames(gs)
    requires b'.queued.Get(x) == Frames(RequestFrames(names, x, w.up.Get(x)[1..]))
    ensures SideOk(names, b', w', x, fs + gs)
  {
    hide NoticeIs, PlainWords, RequestFrames, Frames, PlainEnd, PlainMessage;
    var c, n := b.links.Get(x).c, b.read.Get(x);
    FramesConcat(fs, gs);
    assert (b.net.written[c] + Frames(gs))[n..] == b.net.written[c][n..] + Frames(gs);
    assert (b.buffers.Get(x) + b.net.written[c][n..]) + Frames(gs) ==
      b.buffers.Get(x) + (b.net.written[c][n..] + Frames(gs));
    assert "" + b'.queued.Get(x) == b'.queued.Get(x);
  }

  /** What the server writes for a message of `x`: the frame that carries it, to the other, if both are logged in. */
  ghost function RelayedNet(names: H.Pair<string>, b: System, w: H.World, x: H.Side, m: Message): D.Net
    requires b.links.Get(x).On? && b.links.Get(x).c in b.net.conns
  {
    var clear, to := D.SetWord(b.net, b.links.Get(x).c, ""), names.Get(H.Other(x));
    if w.logged.Get(x) && H.OnTable(w, H.Other(x)) && to in b.net.peers && b.net.peers[to] in clear.written then
      var r := b.net.peers[to];
      clear.(written := clear.written[r := clear.written[r] + Frame(["message", names.Get(x)] + MessageWords(m))])
    else clear
  }

  lemma ServerRelays(names: H.Pair<string>, b: System, w: H.World, f: H.Pair<seq<seq<string>>>, x: H.Side,
      order: seq<string>)
    requires Sending(names, b, w, f, x, order) && b.queued.Get(x)[0] == '>' && w.up.Get(x) != []
    requires w.up.Get(x)[0].SendRequest?
    ensures
      var c := b.links.Get(x).c;
      && c in b.net.conns
      && D.Orderly(b.net, D.Received(c, '>', order))
      && D.Next(b.net, D.Received(c, '>', order)) == RelayedNet(names, b, w, x, w.up.Get(x)[0].msg)
  {
    hide D.Inv, Frames, Frame, PlainEnd, NoticeIs, Split, D.Said, RequestFrames, MessageWords, D.Dialog, Enumerates;
    hide D.Completed;
    hide PlainFrames, Told, PlainRequests, D.Send, RelayedNet, SendWords;
    LinksDiffer(names, b, w, f, x);
    NextChar(names, b, w, f, x, order);
    D.ReceiveFrame(b.net, b.links.Get(x).c, order);
    SendIs(names, b, w, x, w.up.Get(x)[0].msg);
  }

  /** What the server does with the words of a message. */
  lemma SendIs(names: H.Pair<string>, b: System, w: H.World, x: H.Side, m: Message)
    requires D.Formed(b.net) && b.links.Get(x).On? && b.links.Get(x).c in b.net.conns
    requires TableOk(names, b, w, H.Other(x))
    requires b.net.conns[b.links.Get(x).c].pid == if w.logged.Get(x) then D.Named(names.Get(x)) else D.Null
    ensures
      var c, ws := b.links.Get(x).c, SendWords(names, x, m);
      ws != [] && ws[0] == "send" && D.Send(D.SetWord(b.net, c, ""), c, ws) == RelayedNet(names, b, w, x, m)
  {
    hide Frame, MessageWords;
    var ws := SendWords(names, x, m);
    assert ws[1] == names.Get(H.Other(x)) && ws[2..] == MessageWords(m);
  }

  /** A message of `x` is served. */
  lemma SendMatches(names: H.Pair<string>, b: System, w: H.World, f: H.Pair<seq<seq<string>>>, x: H.Side,
      order: seq<string>)
      returns (w': H.World, f': H.Pair<seq<seq<string>>>)
    requires Sending(names, b, w, f, x, order) && b.queued.Get(x)[0] == '>' && w.up.Get(x) != []
    requires w.up.Get(x)[0].SendRequest?
    ensures Reaches(w') && Matches(names, Next(names, b, Receive(x, order)), w', f')
  {
    hide D.Inv, D.Basic, Frames, Frame, PlainEnd, NoticeIs, RequestFrames, MessageWords, D.Next, D.Possible, D.Orderly;
    hide Reaches;
    hide PlainFrames, Told;
    LinksDiffer(names, b, w, f, x);
    NextChar(names, b, w, f, x, order);
    ServerRelays(names, b, w, f, x, order);
    var b', y, m := Next(names, b, Receive(x, order)), H.Other(x), w.up.Get(x)[0].msg;
    D.InvNext(b.net, D.Received(b.links.Get(x).c, '>', order));
    w' := H.Next(w, H.Serve(x));
    Extend(w, H.Serve(x));
    NoneTold(names, x);
    var fx, fy := f.Get(x), f.Get(y);
    ServedSide(names, b, w, b', w', x, fx, [], []);
    assert fx + [] == fx;
    if w.logged.Get(x) && H.OnTable(w, y) {
      var ws := ["message", names.Get(x)] + MessageWords(m);
      OneTold(names, y, ws, m);
      SideHears(names, b, w, b', w', y, fy, [ws], [H.MessageNotice(m)]);
      f' := f.Set(y, fy + [ws]);
    } else {
      SideStays(names, b, w, b', w', y, fy);
      f' := f;
    }
    BothMatch(names, b', w', f', x);
  }

  lemma NoneTold(names: H.Pair<string>, x: H.Side)
    ensures PlainFrames([]) && Told(names, x, [], []) && Frames([]) == ""
  {
  }

  lemma OneTold(names: H.Pair<string>, y: H.Side, ws: seq<string>, m: Message)
    requires Named(names) && PlainMessage(m) && ws == ["message", names.Get(H.Other(y))] + MessageWords(m)
    ensures PlainFrames([ws]) && Told(names, y, [ws], [H.MessageNotice(m)]) && Frames([ws]) == Frame(ws)
  {
    hide PlainMessage, Frame, MessageWords;
    MessagePlain(m);
    OneFrame(ws);
  }

  lemma OneFrame(ws: seq<string>)
    requires ws != []
    ensures Frames([ws]) == Frame(ws)
  {
    hide Frame, Frames;
    FramesSnoc([], ws);
    NoFrame();
    assert [] + [ws] == [ws] && "" + Frame(ws) == Frame(ws);
  }

  // ------------------------------------------------------------------ logging in

  /** `k` notices of no consequence for `x`. */
  function Noted(w: H.World, x: H.Side, k: nat): H.World
  {
    w.(down := w.down.Set(x, w.down.Get(x) + News(k)))
  }

  function News(k: nat): seq<H.Notice> { seq(k, i => H.OtherNotice) }

  lemma {:induction false} NewsMany(w: H.World, x: H.Side, k: nat)
    requires Reaches(w) && H.OnTable(w, x)
    ensures Reaches(Noted(w, x, k))
  {
    hide Reaches;
    if k == 0 {
      assert w.down.Get(x) + News(0) == w.down.Get(x);
      SetSame(w.down, x);
    } else {
      NewsMany(w, x, k - 1);
      var before := Noted(w, x, k - 1);
      Extend(before, H.News(x));
      assert News(k) == News(k - 1) + [H.OtherNotice];
      assert (w.down.Get(x) + News(k - 1)) + [H.OtherNotice] == w.down.Get(x) + News(k);
      SetTwice(w.down, x, w.down.Get(x) + News(k - 1), w.down.Get(x) + News(k));
    }
  }

  lemma SetSame<T>(p: H.Pair<T>, x: H.Side)
    ensures p.Set(x, p.Get(x)) == p
  {
  }

  lemma SetTwice<T>(p: H.Pair<T>, x: H.Side, u: T, v: T)
    ensures p.Set(x, u).Set(x, v) == p.Set(x, v)
  {
  }

  /** A login request is the first thing the server hears of `x`. */
  lemma LoginFirst(w: H.World, x: H.Side)
    requires Reaches(w)
    ensures w.up.Get(x) != [] && w.up.Get(x)[0].LoginRequest? ==> !w.logged.Get(x)
  {
    ReachedInv(w);
    hide H.Arrives, H.Logins, H.Mood, Reaches;
    if !H.Calm(w) {
      var y, stage :| H.At(w, y, stage);
      assert H.OnlySends(w.up.Get(x));
    }
  }

  /** A connection on the table is there under its own name. */
  lemma InTable(names: H.Pair<string>, b: System, w: H.World, f: H.Pair<seq<seq<string>>>, x: H.Side)
    requires Matches(names, b, w, f) && b.links.Get(x).On?
    ensures b.links.Get(x).c in b.net.peers.Values <==> names.Get(x) in b.net.peers
  {
    hide D.Tells, Frames, RequestFrames, NoticeIs, PlainEnd, PlainWord;
    LinksDiffer(names, b, w, f, x);
    var c := b.links.Get(x).c;
    if c in b.net.peers.Values {
      var p :| p in b.net.peers && b.net.peers[p] == c;
      assert D.Registered(b.net, p);
    }
  }

  lemma ServerLogs(names: H.Pair<string>, b: System, w: H.World, f: H.Pair<seq<seq<string>>>, x: H.Side,
      order: seq<string>)
    requires Sending(names, b, w, f, x, order) && b.queued.Get(x)[0] == '>' && w.up.Get(x) != []
    requires w.up.Get(x)[0].LoginRequest?
    ensures
      var c, pid := b.links.Get(x).c, D.Named(names.Get(x));
      && c in b.net.conns && !w.logged.Get(x)
      && D.Orderly(b.net, D.Received(c, '>', order))
      && D.LogsIn(D.SetWord(b.net, c, ""), c, pid, order)
      && D.Next(b.net, D.Received(c, '>', order)) == D.Login(D.SetWord(b.net, c, ""), c, pid, order)
  {
    hide D.Inv, Frames, Frame, PlainEnd, NoticeIs, Split, D.Said, RequestFrames, D.Dialog, Enumerates, D.Completed;
    hide PlainFrames, Reaches, D.Login;
    LinksDiffer(names, b, w, f, x);
    NextChar(names, b, w, f, x, order);
    LoginFirst(w, x);
    InTable(names, b, w, f, x);
    var c := b.links.Get(x).c;
    D.ReceiveFrame(b.net, c, order);
    D.InvSetWord(b.net, c, "");
  }

  function OnlineFrames(order: seq<string>): seq<seq<string>>
  {
    seq(|order|, i requires 0 <= i < |order| => ["online", order[i]])
  }

  /** The list of those online, as frames and as news. */
  lemma {:induction false} OnlineHeard(names: H.Pair<string>, net: D.Net, order: seq<string>, x: H.Side)
    requires D.Inv(net) && forall k :: 0 <= k < |order| ==> order[k] in net.peers
    ensures PlainFrames(OnlineFrames(order)) && Told(names, x, OnlineFrames(order), News(|order|))
    ensures D.OnlineText(net, order) == Frames(OnlineFrames(order))
  {
    hide D.Inv, Frame, Frames, D.OnlineText;
    if order == [] {
      D.OnlineNone(net);
      NoFrame();
      assert OnlineFrames(order) == [];
    } else {
      var front, p := order[..|order| - 1], order[|order| - 1];
      OnlineHeard(names, net, front, x);
      D.OnlineSnoc(net, front, p);
      assert order == front + [p];
      assert OnlineFrames(order) == OnlineFrames(front) + [["online", p]];
      assert News(|order|) == News(|front|) + [H.OtherNotice];
      FramesSnoc(OnlineFrames(front), ["online", p]);
    }
  }

  lemma {:induction false} NoGt(fs: seq<seq<string>>)
    requires PlainFrames(fs)
    ensures fs != [] ==> '>' in Frames(fs)
  {
    hide Frame;
    if fs != [] {
      var front, last := fs[..|fs| - 1], fs[|fs| - 1];
      OneGt(last);
      assert Frames(fs) == Frames(front) + Frame(last);
      assert '>' in Frame(last);
    }
  }

  /** Nothing was written to `x` before its login. */
  lemma NothingYet(names: H.Pair<string>, b: System, w: H.World, f: H.Pair<seq<seq<string>>>, x: H.Side)
    requires Matches(names, b, w, f) && b.links.Get(x).On? && b.links.Get(x).c in b.net.live
    requires names.Get(x) !in b.net.peers
    ensures b.links.Get(x).c in b.net.written && b.net.written[b.links.Get(x).c] == ""
    ensures f.Get(x) == [] && w.down.Get(x) == []
  {
    hide D.Registered, Frames, RequestFrames, NoticeIs, PlainEnd;
    LinksDiffer(names, b, w, f, x);
    InTable(names, b, w, f, x);
    var text := b.buffers.Get(x);
    assert text + ""[0..] == text;
    NoGt(f.Get(x));
  }

  /** What the server has done once `x` is logged in, for the other side. */
  lemma LoginOther(names: H.Pair<string>, b: System, w: H.World, f: H.Pair<seq<seq<string>>>, x: H.Side,
      order: seq<string>)
      returns (gs: seq<seq<string>>, ns: seq<H.Notice>)
    requires Sending(names, b, w, f, x, order) && b.queued.Get(x)[0] == '>' && w.up.Get(x) != []
    requires w.up.Get(x)[0].LoginRequest?
    ensures PlainFrames(gs) && Told(names, H.Other(x), gs, ns) && (gs == [] || b.links.Get(H.Other(x)).On?)
    ensures ns == if H.OnTable(w, H.Other(x)) then [H.LoginNotice] else []
    ensures b.links.Get(H.Other(x)).On? ==>
      var d, net' := b.links.Get(H.Other(x)).c, Next(names, b, Receive(x, order)).net;
      && d in b.net.conns && d in net'.conns && net'.conns[d] == b.net.conns[d] && (d in net'.live <==> d in b.net.live)
      && d in b.net.written && d in net'.written && net'.written[d] == b.net.written[d] + Frames(gs)
  {
    hide D.Inv, D.Basic, Frames, Frame, PlainEnd, NoticeIs, RequestFrames, D.Next, D.Possible, D.Orderly, Reaches;
    hide PlainFrames, D.OnlineText, D.Broadcast, Enumerates;
    LinksDiffer(names, b, w, f, x);
    ServerLogs(names, b, w, f, x, order);
    var y, c := H.Other(x), b.links.Get(x).c;
    var clear := D.SetWord(b.net, c, "");
    gs, ns := [], [];
    NoneTold(names, y);
    if b.links.Get(y).On? {
      var d := b.links.Get(y).c;
      InTable(names, b, w, f, y);
      D.LoginWrites(clear, c, D.Named(names.Get(x)), order, d);
      assert b.net.written[d] + "" == b.net.written[d];
      if H.OnTable(w, y) {
        gs, ns := [["login", names.Get(x)]], [H.LoginNotice];
        LoginTold(names, y);
      }
    }
  }

  lemma LoginTold(names: H.Pair<string>, y: H.Side)
    requires Named(names)
    ensures
      var ws := ["login", names.Get(H.Other(y))];
      PlainFrames([ws]) && Told(names, y, [ws], [H.LoginNotice]) && Frames([ws]) == Frame(ws)
  {
    hide Frame;
    OneFrame(["login", names.Get(H.Other(y))]);
  }

  /** And for `x` itself. */
  lemma LoginSelf(names: H.Pair<string>, b: System, w: H.World, f: H.Pair<seq<seq<string>>>, x: H.Side,
      order: seq<string>)
    requires Sending(names, b, w, f, x, order) && b.queued.Get(x)[0] == '>' && w.up.Get(x) != []
    requires w.up.Get(x)[0].LoginRequest?
    ensures
      var c, net' := b.links.Get(x).c, Next(names, b, Receive(x, order)).net;
      && c in b.net.written && f.Get(x) == [] && w.down.Get(x) == []
      && PlainFrames(OnlineFrames(order)) && Told(names, x, OnlineFrames(order), News(|order|))
      && c in net'.conns && net'.conns[c].xmlWord == "" && net'.conns[c].pid == D.Named(names.Get(x)) &&
        (c in net'.live <==> c in b.net.live)
      && c in net'.written && net'.written[c] == b.net.written[c] + Frames(OnlineFrames(order))
      && names.Get(x) !in b.net.peers && net'.peers == b.net.peers[names.Get(x) := c]
      && (H.OnTable(w, H.Other(x)) ==> |order| >= 1)
  {
    hide D.Inv, Frames, Frame, PlainEnd, NoticeIs, RequestFrames, D.Next, D.Orderly, Reaches, PlainFrames, D.OnlineText;
    hide D.Broadcast;
    LinksDiffer(names, b, w, f, x);
    NextChar(names, b, w, f, x, order);
    ServerLogs(names, b, w, f, x, order);
    var c := b.links.Get(x).c;
    var clear := D.SetWord(b.net, c, "");
    D.LoginWrites(clear, c, D.Named(names.Get(x)), order, c);
    OnlineHeard(names, clear, order, x);
    NothingYet(names, b, w, f, x);
    assert "" + Frames(OnlineFrames(order)) == Frames(OnlineFrames(order));
    if H.OnTable(w, H.Other(x)) {
      assert names.Get(H.Other(x)) in order;
    }
  }

  lemma LoginMatches(names: H.Pair<string>, b: System, w: H.World, f: H.Pair<seq<seq<string>>>, x: H.Side,
      order: seq<string>)
      returns (w': H.World, f': H.Pair<seq<seq<string>>>)
    requires Sending(names, b, w, f, x, order) && b.queued.Get(x)[0] == '>' && w.up.Get(x) != []
    requires w.up.Get(x)[0].LoginRequest?
    ensures Reaches(w') && Matches(names, Next(names, b, Receive(x, order)), w', f')
  {
    hide D.Inv, D.Basic, Frames, PlainEnd, RequestFrames, D.Next, D.Possible, D.Orderly, Reaches, PlainFrames, D.Login;
    hide OnlineFrames, News, SideOk, Told;
    LinksDiffer(names, b, w, f, x);
    NextChar(names, b, w, f, x, order);
    ServerLogs(names, b, w, f, x, order);
    LoginSelf(names, b, w, f, x, order);
    D.InvNext(b.net, D.Received(b.links.Get(x).c, '>', order));
    var b', y := Next(names, b, Receive(x, order)), H.Other(x);
    var gs, ns := LoginOther(names, b, w, f, x, order);
    w' := LoginWorld(w, x, |order|);
    var fx, fy := f.Get(x), f.Get(y);
    ServedSide(names, b, w, b', w', x, fx, OnlineFrames(order), News(|order|));
    SideHears(names, b, w, b', w', y, fy, gs, ns);
    f' := f.Set(x, fx + OnlineFrames(order)).Set(y, fy + gs);
    BothMatch(names, b', w', f', x);
  }

  /** The world serves a login and adds the news of the strangers on the table. */
  lemma LoginWorld(w: H.World, x: H.Side, n: nat) returns (w': H.World)
    requires Reaches(w) && w.up.Get(x) != [] && w.up.Get(x)[0].LoginRequest? && !w.closed.Get(x)
    requires H.OnTable(w, H.Other(x)) ==> n >= 1
    ensures Reaches(w') && w'.ends == w.ends && w'.connected == w.connected && w'.closed == w.closed
    ensures w'.logged.Get(x) && w'.logged.Get(H.Other(x)) == w.logged.Get(H.Other(x))
    ensures w'.up.Get(x) == w.up.Get(x)[1..] && w'.up.Get(H.Other(x)) == w.up.Get(H.Other(x))
    ensures w'.down.Get(x) == w.down.Get(x) + News(n)
    ensures w'.down.Get(H.Other(x)) == w.down.Get(H.Other(x)) + if H.OnTable(w, H.Other(x)) then [H.LoginNotice] else []
  {
    hide Reaches, News;
    var y := H.Other(x);
    var w1 := H.Next(w, H.Serve(x));
    Extend(w, H.Serve(x));
    var k := if H.OnTable(w, y) then n - 1 else n;
    w' := Noted(w1, x, k);
    NewsMany(w1, x, k);
    NewsMore(k);
    assert w.down.Get(y) + [] == w.down.Get(y);
    if H.OnTable(w, y) {
      assert (w.down.Get(x) + [H.OtherNotice]) + News(k) == w.down.Get(x) + ([H.OtherNotice] + News(k));
    }
  }

  lemma NewsMore(k: nat)
    ensures [H.OtherNotice] + News(k) == News(k + 1) && [] + News(k) == News(k)
  {
  }

  // ------------------------------------------------------------ what is sent is plain

  lemma {:induction false} FieldsConcat(a: seq<Candidate>, b: seq<Candidate>)
    requires Ports(a) && Ports(b)
    ensures Ports(a + b) && Fields(a + b) == Fields(a) + Fields(b)
    decreases |b|
  {
    hide Fields;
    if b == [] {
      assert a + b == a;
      FieldsNone();
    } else {
      var front, last := b[..|b| - 1], b[|b| - 1];
      FieldsConcat(a, front);
      assert a + b == (a + front) + [last] && b == front + [last];
      FieldsSnoc(a + front, last);
      FieldsSnoc(front, last);
    }
  }

  lemma FieldsNone()
    ensures Fields([]) == []
  {
  }

  lemma FieldsSnoc(front: seq<Candidate>, last: Candidate)
    requires Ports(front) && 0 <= last.port < 0x10000
    ensures Ports(front + [last]) && Fields(front + [last]) == Fields(front) + FieldsOf(last)
  {
    hide FieldsOf;
    assert (front + [last])[..|front|] == front;
  }

  lemma PlainTogether(a: seq<Candidate>, b: seq<Candidate>)
    requires PlainCandidates(a) && PlainCandidates(b)
    ensures PlainCandidates(a + b)
  {
    hide Fields;
    FieldsConcat(a, b);
  }

  lemma {:induction false} FlushPlain(unsent: map<string, seq<Candidate>>, order: seq<string>)
    requires forall k :: 0 <= k < |order| ==> order[k] in unsent
    requires forall n :: n in unsent ==> PlainWord(n) && PlainCandidates(unsent[n])
    ensures PlainMessages(Flush(unsent, order))
  {
    hide PlainCandidates, PlainWord;
    if order != [] { FlushPlain(unsent, order[..|order| - 1]); }
  }

  lemma NonePlain()
    ensures PlainCandidates([]) && PlainMessages([]) && PlainWord(H.CONTENT)
  {
  }

  lemma MessageEffectPlain(e: H.End, m: Message, order: seq<string>)
    requires PlainEnd(e) && PlainMessage(m) && Enumerates(order, e.s.unsent.Keys)
    ensures
      var r := H.RemoteMessage(e, m, order);
      PlainEnd(r.e) && PlainMessages(r.out)
  {
    hide PlainCandidates, PlainWord, Enumerates, Flush;
    NonePlain();
    EnumeratedIn(order, e.s.unsent.Keys);
    FlushPlain(e.s.unsent, order);
  }

  lemma TaskEffectPlain(e: H.End, order: seq<string>)
    requires PlainEnd(e) && e.tasks != [] && Enumerates(order, e.s.unsent.Keys)
    ensures
      var r := H.RunTask(e, order);
      PlainEnd(r.e) && PlainMessages(r.out)
  {
    hide PlainCandidates, PlainWord, Enumerates, Flush;
    NonePlain();
    EnumeratedIn(order, e.s.unsent.Keys);
    FlushPlain(e.s.unsent, order);
  }

  lemma ReportEffectPlain(e: H.End, proxy: string, candidates: seq<Candidate>)
    requires PlainEnd(e) && PlainCandidates(candidates)
    ensures
      var r := H.Reported(e, proxy, candidates);
      PlainEnd(r.e) && PlainMessages(r.out)
  {
    hide PlainCandidates, PlainWord;
    if proxy in e.s.unsent {
      PlainTogether(e.s.unsent[proxy], candidates);
    }
  }

  // ------------------------------------------------------------- a prober at work

  lemma OffQuiet(w: H.World, x: H.Side)
    requires Reaches(w)
    ensures !w.connected.Get(x) ==> w.ends.Get(x) == H.NEW_END
  {
    ReachedInv(w);
    hide H.Arrives, H.Logins, H.Mood, Reaches;
    if !H.Calm(w) {
      var y, stage :| H.At(w, y, stage);
    }
  }

  lemma RequestsMore(names: H.Pair<string>, x: H.Side, up: seq<H.Request>, ms: seq<Message>)
    requires PlainRequests(up) && PlainMessages(ms)
    ensures PlainRequests(up + H.Requests(ms))
    ensures Frames(RequestFrames(names, x, up + H.Requests(ms))) ==
      Frames(RequestFrames(names, x, up)) + Spoken(names, x, ms)
  {
    hide PlainMessage, Frames, RequestWords;
    assert RequestFrames(names, x, up + H.Requests(ms)) ==
      RequestFrames(names, x, up) + RequestFrames(names, x, H.Requests(ms));
    FramesConcat(RequestFrames(names, x, up), RequestFrames(names, x, H.Requests(ms)));
  }

  /** A prober that does and says something says it on the wire. */
  lemma DidSide(names: H.Pair<string>, b: System, w: H.World, x: H.Side, fs: seq<seq<string>>, r: H.Effect)
    requires SideOk(names, b, w, x, fs) && PlainEnd(r.e) && PlainMessages(r.out) && b.links.Get(x).On?
    ensures SideOk(names, Did(names, b, x, r), H.Did(w, x, r), x, fs)
  {
    hide NoticeIs, PlainWords, RequestFrames, Frames, PlainEnd, PlainRequests, PlainMessages, Spoken, H.Requests;
    RequestsMore(names, x, w.up.Get(x), r.out);
    var c := b.links.Get(x).c;
    var word, q := b.net.conns[c].xmlWord, b.queued.Get(x);
    assert word + (q + Spoken(names, x, r.out)) == (word + q) + Spoken(names, x, r.out);
  }

  lemma DidMatches(names: H.Pair<string>, b: System, w: H.World, f: H.Pair<seq<seq<string>>>, x: H.Side, r: H.Effect)
    requires Matches(names, b, w, f) && PlainEnd(r.e) && PlainMessages(r.out) && b.links.Get(x).On?
    ensures Matches(names, Did(names, b, x, r), H.Did(w, x, r), f)
  {
    hide NoticeIs, PlainWords, RequestFrames, Frames, PlainEnd, PlainRequests, PlainMessages, Spoken, H.Requests, D.Inv;
    hide D.Basic;
    LinksDiffer(names, b, w, f, x);
    DidSide(names, b, w, x, f.Get(x), r);
    SideStays(names, b, w, Did(names, b, x, r), H.Did(w, x, r), H.Other(x), f.Get(H.Other(x)));
    BothMatch(names, Did(names, b, x, r), H.Did(w, x, r), f, x);
  }

  lemma OnIfBusy(names: H.Pair<string>, b: System, w: H.World, f: H.Pair<seq<seq<string>>>, x: H.Side)
    requires Matches(names, b, w, f) && Reaches(w)
    ensures b.ends.Get(x) != H.NEW_END ==> b.links.Get(x).On?
    ensures b.ends.Get(x) == w.ends.Get(x) && PlainEnd(b.ends.Get(x))
  {
    hide NoticeIs, PlainWords, RequestFrames, Frames, PlainEnd, PlainRequests, D.Inv, D.Basic, Reaches;
    LinksDiffer(names, b, w, f, x);
    OffQuiet(w, x);
  }

  lemma WorkMatches(names: H.Pair<string>, b: System, w: H.World, f: H.Pair<seq<seq<string>>>, x: H.Side,
      order: seq<string>)
      returns (w': H.World)
    requires Matches(names, b, w, f) && Reaches(w) && Enabled(names, b, Work(x, order))
    ensures Reaches(w') && Matches(names, Next(names, b, Work(x, order)), w', f)
  {
    hide Matches, Reaches, PlainEnd, PlainMessages, H.RunTask, D.Basic;
    OnIfBusy(names, b, w, f, x);
    TaskEffectPlain(b.ends.Get(x), order);
    w' := H.Next(w, H.Work(x, order));
    Extend(w, H.Work(x, order));
    DidMatches(names, b, w, f, x, H.RunTask(b.ends.Get(x), order));
  }

  lemma ReportMatches(names: H.Pair<string>, b: System, w: H.World, f: H.Pair<seq<seq<string>>>, x: H.Side,
      proxy: string, candidates: seq<Candidate>)
      returns (w': H.World)
    requires Matches(names, b, w, f) && Reaches(w) && Enabled(names, b, Report(x, proxy, candidates))
    ensures Reaches(w') && Matches(names, Next(names, b, Report(x, proxy, candidates)), w', f)
  {
    hide Matches, Reaches, PlainEnd, PlainMessages, PlainCandidates, D.Basic, H.Reported;
    OnIfBusy(names, b, w, f, x);
    ReportEffectPlain(b.ends.Get(x), proxy, candidates);
    w' := H.Next(w, H.Report(x, proxy, candidates));
    Extend(w, H.Report(x, proxy, candidates));
    DidMatches(names, b, w, f, x, H.Reported(b.ends.Get(x), proxy, candidates));
  }

  // ------------------------------------------------------------- a prober reading

  /** The words of a frame make the prober do what the notice does. */
  lemma HandledIs(names: H.Pair<string>, x: H.Side, e: H.End, ws: seq<string>, n: H.Notice, order: seq<string>)
    requires NoticeIs(names, x, ws, n) && Enumerates(order, e.s.unsent.Keys)
    ensures Handled(names, x, e, ws, order) ==
      match n
      case LoginNotice => H.Effect(H.RemoteLogin(e), [])
      case MessageNotice(m) => H.RemoteMessage(e, m, order)
      case OtherNotice => H.Effect(e, [])
  {
    hide H.RemoteMessage, Enumerates, Body, Understood, FromWire, ToWire, PlainWords;
    if n.MessageNotice? {
      MessageHeard(n.msg);
      assert ws[2..] == MessageWords(n.msg);
    }
  }

  lemma MessageHeard(m: Message)
    requires PlainMessage(m)
    ensures
      var body := MessageWords(m);
      && body != [] && |Understood(body)| == 1
      && Understood(body)[0].argvs != [] && FromWire(Understood(body)[0]) == m
  {
    hide Fields, Decoded;
    MessagePlain(m);
    BodyUnderstood(ToWire(m));
    WireRoundTrip(m);
  }

  ghost predicate Reading(names: H.Pair<string>, b: System, w: H.World, f: H.Pair<seq<seq<string>>>, x: H.Side,
      order: seq<string>)
  {
    Matches(names, b, w, f) && Reaches(w) && D.Basic(b.net) && Enabled(names, b, Read(x, order))
  }

  /** What the next character is to the client. */
  lemma NextRead(names: H.Pair<string>, b: System, w: H.World, f: H.Pair<seq<seq<string>>>, x: H.Side,
      order: seq<string>)
    requires Reading(names, b, w, f, x, order)
    ensures
      var c, n, fs := b.links.Get(x).c, b.read.Get(x), f.Get(x);
      var text := b.net.written[c];
      && fs != [] && w.down.Get(x) != [] && NoticeIs(names, x, fs[0], w.down.Get(x)[0])
      && PlainFrames(fs[1..]) && Told(names, x, fs[1..], w.down.Get(x)[1..])
      && (if text[n] == '>' then FrameWords(b.buffers.Get(x) + [text[n]]) == fs[0] && text[n + 1..] == Frames(fs[1..])
          else (b.buffers.Get(x) + [text[n]]) + text[n + 1..] == Frames(fs))
  {
    hide D.Inv, D.Basic, Frames, Frame, PlainEnd, RequestFrames, FrameWords;
    LinksDiffer(names, b, w, f, x);
    var c, n, fs := b.links.Get(x).c, b.read.Get(x), f.Get(x);
    var unread := b.net.written[c][n..];
    FirstFrame(b.buffers.Get(x), unread, fs);
    assert unread[0] == b.net.written[c][n] && unread[1..] == b.net.written[c][n + 1..];
    WordsBack(fs[0]);
  }

  lemma MidRead(names: H.Pair<string>, b: System, w: H.World, f: H.Pair<seq<seq<string>>>, x: H.Side,
      order: seq<string>)
    requires Reading(names, b, w, f, x, order) && b.net.written[b.links.Get(x).c][b.read.Get(x)] != '>'
    ensures Matches(names, Next(names, b, Read(x, order)), w, f)
  {
    hide D.Inv, D.Basic, Frames, PlainEnd, RequestFrames, NoticeIs, PlainRequests, Enumerates, FrameWords;
    LinksDiffer(names, b, w, f, x);
    NextRead(names, b, w, f, x, order);
    var b' := Next(names, b, Read(x, order));
    SideStays(names, b, w, b', w, H.Other(x), f.Get(H.Other(x)));
    BothMatch(names, b', w, f, x);
  }

  /** The frame is out of the buffer and its notice out of the channel; the prober has yet to act. */
  lemma Popped(names: H.Pair<string>, b: System, w: H.World, f: H.Pair<seq<seq<string>>>, x: H.Side, order: seq<string>,
      w1: H.World)
    requires Reading(names, b, w, f, x, order) && b.net.written[b.links.Get(x).c][b.read.Get(x)] == '>'
    requires w.down.Get(x) != [] && f.Get(x) != []
    requires w1.(got := w.got) == w.(down := w.down.Set(x, w.down.Get(x)[1..]))
    ensures
      var b1 := b.(read := b.read.Set(x, b.read.Get(x) + 1), buffers := b.buffers.Set(x, ""));
      Matches(names, b1, w1, f.Set(x, f.Get(x)[1..]))
  {
    hide D.Inv, D.Basic, Frames, PlainEnd, RequestFrames, NoticeIs, PlainRequests, Enumerates, FrameWords, Reaches;
    LinksDiffer(names, b, w, f, x);
    NextRead(names, b, w, f, x, order);
    var b1 := b.(read := b.read.Set(x, b.read.Get(x) + 1), buffers := b.buffers.Set(x, ""));
    var f1 := f.Set(x, f.Get(x)[1..]);
    var c, n := b.links.Get(x).c, b.read.Get(x);
    assert "" + b.net.written[c][n + 1..] == b.net.written[c][n + 1..];
    SideStays(names, b, w, b1, w1, H.Other(x), f.Get(H.Other(x)));
    assert SideOk(names, b1, w1, x, f1.Get(x));
    BothMatch(names, b1, w1, f1, x);
  }

  lemma ReadMatches(names: H.Pair<string>, b: System, w: H.World, f: H.Pair<seq<seq<string>>>, x: H.Side,
      order: seq<string>)
      returns (w': H.World, f': H.Pair<seq<seq<string>>>)
    requires Reading(names, b, w, f, x, order) && b.net.written[b.links.Get(x).c][b.read.Get(x)] == '>'
    ensures Reaches(w') && Matches(names, Next(names, b, Read(x, order)), w', f')
  {
    hide D.Inv, D.Basic, Frames, Frame, PlainEnd, RequestFrames, PlainRequests, PlainMessages, PlainMessage, Enumerates;
    hide FrameWords, Reaches, Matches, Handled, H.RemoteMessage, Spoken, PlainWords, MessageWords;
    NextRead(names, b, w, f, x, order);
    OnIfBusy(names, b, w, f, x);
    var n, e := w.down.Get(x)[0], b.ends.Get(x);
    var r := Handled(names, x, e, f.Get(x)[0], order);
    HandledIs(names, x, e, f.Get(x)[0], n, order);
    var b1 := b.(read := b.read.Set(x, b.read.Get(x) + 1), buffers := b.buffers.Set(x, ""));
    var w1 := w.(down := w.down.Set(x, w.down.Get(x)[1..]));
    if n.MessageNotice? {
      w1 := w1.(got := w1.got.Set(x, w1.got.Get(x) + [n.msg]));
      MessageEffectPlain(e, n.msg, order);
    } else {
      NonePlain();
      LoginPlain(e);
    }
    f' := f.Set(x, f.Get(x)[1..]);
    Popped(names, b, w, f, x, order, w1);
    DidMatches(names, b1, w1, f', x, r);
    w' := H.Next(w, H.Deliver(x, order));
    Extend(w, H.Deliver(x, order));
    DidSilent(w1, x, r);
  }

  lemma LoginPlain(e: H.End)
    requires PlainEnd(e)
    ensures PlainEnd(H.RemoteLogin(e))
  {
  }

  lemma DidSilent(w: H.World, x: H.Side, r: H.Effect)
    ensures r.out == [] ==> H.Did(w, x, r) == w.(ends := w.ends.Set(x, r.e))
  {
    if r.out == [] {
      assert w.up.Get(x) + H.Requests([]) == w.up.Get(x) && w.said.Get(x) + [] == w.said.Get(x);
      SetSame(w.up, x);
      SetSame(w.said, x);
    }
  }

  // ------------------------------------------------------------- losing a connection

  lemma NewsTold(names: H.Pair<string>, x: H.Side, ws: seq<string>)
    requires NoticeIs(names, x, ws, H.OtherNotice)
    ensures PlainFrames([ws]) && Told(names, x, [ws], [H.OtherNotice]) && Frames([ws]) == Frame(ws)
  {
    hide Frame, NoticeIs;
    NoticePlain(names, x, ws);
    OneFrame(ws);
  }

  lemma NoticePlain(names: H.Pair<string>, x: H.Side, ws: seq<string>)
    requires NoticeIs(names, x, ws, H.OtherNotice)
    ensures ws != [] && PlainWords(ws)
  {
  }

  /** A live connection is on the table under its name, or has not logged in. */
  lemma LiveName(names: H.Pair<string>, b: System, w: H.World, f: H.Pair<seq<seq<string>>>, x: H.Side)
    requires Matches(names, b, w, f) && b.links.Get(x).On? && b.links.Get(x).c in b.net.live
    ensures
      var c := b.links.Get(x).c;
      && c in b.net.conns
      && (H.OnTable(w, x) ==>
        b.net.conns[c].pid == D.Named(names.Get(x)) && names.Get(x) in b.net.peers && b.net.peers[names.Get(x)] == c)
      && (!H.OnTable(w, x) ==> c !in b.net.peers.Values)
  {
    hide D.Inv, D.Basic, Frames, RequestFrames, NoticeIs, PlainEnd;
    LinksDiffer(names, b, w, f, x);
    InTable(names, b, w, f, x);
  }

  /** The connection of nobody on the table closes without a trace. */
  lemma CloseQuiet(net: D.Net, c: D.Sock, order: seq<string>)
    requires D.Inv(net) && D.Basic(net) && D.Possible(net, D.Closed(c, order)) && c !in net.peers.Values
    ensures D.Next(net, D.Closed(c, order)) == net.(live := net.live - {c})
  {
    hide D.Tells, Enumerates, D.Broadcast, PlainWord;
    var p := D.Key(net.conns[c].pid);
    if p in net.peers {
      assert D.Registered(net, p);
    }
  }

  lemma LoseMatches(names: H.Pair<string>, b: System, w: H.World, f: H.Pair<seq<seq<string>>>, x: H.Side,
      order: seq<string>)
      returns (w': H.World, f': H.Pair<seq<seq<string>>>)
    requires Matches(names, b, w, f) && Reaches(w) && D.Basic(b.net) && Enabled(names, b, Lose(x, order))
    ensures Reaches(w') && Matches(names, Next(names, b, Lose(x, order)), w', f')
  {
    hide D.Inv, D.Basic, Frames, Frame, PlainEnd, RequestFrames, NoticeIs, PlainRequests, Reaches, D.Next, PlainFrames;
    hide Enumerates;
    LinksDiffer(names, b, w, f, x);
    LiveName(names, b, w, f, x);
    var b', y, c := Next(names, b, Lose(x, order)), H.Other(x), b.links.Get(x).c;
    D.InvNext(b.net, D.Closed(c, order));
    w' := H.Next(w, H.Lose(x));
    Extend(w, H.Lose(x));
    if H.OnTable(w, x) {
      f' := OwnerLost(names, b, w, f, x, order);
    } else {
      CloseQuiet(b.net, c, order);
      SideStays(names, b, w, b', w', y, f.Get(y));
      f' := f;
      BothMatch(names, b', w', f', x);
    }
  }

  lemma OfflineNotice(names: H.Pair<string>, y: H.Side)
    requires Named(names)
    ensures NoticeIs(names, y, ["offline", names.Get(H.Other(y))], H.OtherNotice)
  {
  }

  lemma OwnerNet(names: H.Pair<string>, b: System, w: H.World, f: H.Pair<seq<seq<string>>>, x: H.Side,
      order: seq<string>)
    requires Matches(names, b, w, f) && D.Basic(b.net) && Enabled(names, b, Lose(x, order)) && H.OnTable(w, x)
    ensures
      var c, net', p := b.links.Get(x).c, D.Next(b.net, D.Closed(b.links.Get(x).c, order)), names.Get(x);
      && net'.conns == b.net.conns && net'.live == b.net.live - {c}
      && p in b.net.peers && net'.peers == (map q | q in b.net.peers && q != p :: b.net.peers[q])
      && forall d :: d in b.net.conns && d in b.net.written ==>
           && d in net'.written
           && net'.written[d] == if d in net'.peers.Values then b.net.written[d] + Frame(["offline", p])
             else b.net.written[d]
  {
    hide Frames, Frame, PlainEnd, RequestFrames, NoticeIs, PlainRequests, D.Broadcast, D.Tells, PlainWord, Enumerates;
    LinksDiffer(names, b, w, f, x);
    LiveName(names, b, w, f, x);
    var c := b.links.Get(x).c;
    forall d | d in b.net.conns && d in b.net.written
      ensures
        var net' := D.Next(b.net, D.Closed(c, order));
        && d in net'.written
        && net'.written[d] ==
           if d in net'.peers.Values then b.net.written[d] + Frame(["offline", names.Get(x)]) else b.net.written[d]
    {
      D.CloseWrites(b.net, c, order, d);
    }
  }

  lemma OwnerLost(names: H.Pair<string>, b: System, w: H.World, f: H.Pair<seq<seq<string>>>, x: H.Side,
      order: seq<string>)
      returns (f': H.Pair<seq<seq<string>>>)
    requires Matches(names, b, w, f) && D.Basic(b.net) && Enabled(names, b, Lose(x, order)) && H.OnTable(w, x)
    requires H.Enabled(w, H.Lose(x)) && D.Inv(Next(names, b, Lose(x, order)).net)
    ensures Matches(names, Next(names, b, Lose(x, order)), H.Next(w, H.Lose(x)), f')
  {
    hide D.Inv, D.Basic, Frames, Frame, PlainEnd, RequestFrames, NoticeIs, PlainRequests, D.Next, D.Possible;
    hide PlainFrames;
    LinksDiffer(names, b, w, f, x);
    OwnerNet(names, b, w, f, x, order);
    var b', w', y := Next(names, b, Lose(x, order)), H.Next(w, H.Lose(x)), H.Other(x);
    var c, fy := b.links.Get(x).c, f.Get(y);
    LiveName(names, b, w, f, x);
    assert c !in b'.net.peers.Values by { GoneFrom(names, b, w, f, x); }
    f' := f;
    if b.links.Get(y).On? {
      InTable(names, b, w, f, y);
      StaysIn(b.net.peers, b'.net.peers, names.Get(x), names.Get(y), b.links.Get(y).c);
    }
    if H.OnTable(w, y) {
      var ws := ["offline", names.Get(x)];
      OfflineNotice(names, y);
      NewsTold(names, y, ws);
      SideHears(names, b, w, b', w', y, fy, [ws], [H.OtherNotice]);
      f' := f.Set(y, fy + [ws]);
    } else {
      SideStays(names, b, w, b', w', y, fy);
    }
    BothMatch(names, b', w', f', x);
  }

  /** No other name leads to `x`'s connection. */
  lemma GoneFrom(names: H.Pair<string>, b: System, w: H.World, f: H.Pair<seq<seq<string>>>, x: H.Side)
    requires Matches(names, b, w, f) && names.Get(x) in b.net.peers && b.links.Get(x).On?
    ensures
      var p := names.Get(x);
      b.links.Get(x).c !in (map q | q in b.net.peers && q != p :: b.net.peers[q]).Values
  {
    hide D.Inv, D.Basic, Frames, RequestFrames, NoticeIs, PlainEnd;
    LinksDiffer(names, b, w, f, x);
    D.PeersDiffer(b.net);
  }

  lemma StaysIn(peers: map<string, D.Sock>, peers': map<string, D.Sock>, p: string, q: string, d: D.Sock)
    requires peers' == (map n | n in peers && n != p :: peers[n]) && p != q && (d in peers.Values <==> q in peers)
    requires q in peers ==> peers[q] == d
    ensures d in peers'.Values <==> q in peers
  {
    if q in peers {
      assert peers'[q] == d;
    }
  }

  // ---------------------------------------------------------------- other clients

  /** How a stranger's event looks from `x`'s connection `c`: its table entry stays, and it may be written some text. */
  ghost predicate Aside(net: D.Net, net': D.Net, c: D.Sock, p: string, text: string)
  {
    && c in net.conns && c in net'.conns && net'.conns[c] == net.conns[c] && (c in net'.live <==> c in net.live)
    && c in net.written && c in net'.written && net'.written[c] == net.written[c] + text
    && (p in net'.peers <==> p in net.peers) && (p in net.peers ==> net'.peers[p] == net.peers[p])
  }

  /** `x`'s connection and its name, while a stranger acts. */
  ghost predicate Bystander(net: D.Net, c: D.Sock, p: string, e: D.Event)
  {
    && D.Inv(net) && D.Basic(net) && c in net.conns && e.c != c
    && (c in net.peers.Values <==> p in net.peers) && (p in net.peers ==> net.peers[p] == c)
  }

  lemma BystanderNow(names: H.Pair<string>, b: System, w: H.World, f: H.Pair<seq<seq<string>>>, x: H.Side, e: D.Event)
    requires Matches(names, b, w, f) && b.links.Get(x).On? && Stranger(names, b, e)
    ensures Bystander(b.net, b.links.Get(x).c, names.Get(x), e)
  {
    hide D.Inv, D.Basic, Frames, RequestFrames, NoticeIs, PlainEnd, D.Possible, D.Orderly, D.Completed;
    LinksDiffer(names, b, w, f, x);
    InTable(names, b, w, f, x);
  }

  lemma AcceptAside(net: D.Net, c: D.Sock, p: string, e: D.Event)
    requires Bystander(net, c, p, e) && e.Accepted? && D.Possible(net, e)
    ensures Aside(net, D.Next(net, e), c, p, "")
  {
    hide D.Inv;
  }

  lemma CharAside(net: D.Net, c: D.Sock, p: string, e: D.Event)
    requires Bystander(net, c, p, e) && e.Received? && e.ch != '>' && D.Possible(net, e)
    ensures Aside(net, D.Next(net, e), c, p, "")
  {
    hide D.Inv, Enumerates;
    ReceivePlain(net, e.c, e.ch, e.order);
  }

  /** The words that a stranger's frame leaves with the server. */
  lemma FrameAside(net: D.Net, c: D.Sock, p: string, e: D.Event) returns (text: string, z: string)
    requires Bystander(net, c, p, e) && e.Received? && e.ch == '>' && D.Possible(net, e) && D.Orderly(net, e)
    requires
      var ws := D.Completed(net, e.c);
      ws[0] == "login" || ws[0] == "send" ==> D.Key(D.WordAt(ws, 1)) != p
    ensures Aside(net, D.Next(net, e), c, p, text)
    ensures text == "" || (p in net.peers && PlainWord(z) && z != p && text == Frame(["login", z])
                           && D.Completed(net, e.c)[0] == "login" && z == D.Key(D.WordAt(D.Completed(net, e.c), 1)))
  {
    hide D.Inv, Frame, Split, D.Said, D.Dialog, Enumerates, D.Login, D.Send, Aside;
    var d, ws, clear := e.c, D.Completed(net, e.c), D.SetWord(net, e.c, "");
    D.ReceiveFrame(net, d, e.order);
    D.InvSetWord(net, d, "");
    D.SaidPlain(net.conns[d].xmlWord + ['>']);
    D.NamePlain(ws);
    text, z := "", D.Key(D.WordAt(ws, 1));
    if ws[0] == "login" {
      text := LoginAside(net, c, p, e, D.WordAt(ws, 1));
    } else if ws[0] == "send" {
      SendAside(net, c, p, e, ws);
    } else {
      NothingAside(net, c, p, e);
    }
  }

  lemma NothingAside(net: D.Net, c: D.Sock, p: string, e: D.Event)
    requires Bystander(net, c, p, e) && e.c in net.conns
    ensures Aside(net, D.SetWord(net, e.c, ""), c, p, "")
  {
  }

  lemma LoginAside(net: D.Net, c: D.Sock, p: string, e: D.Event, pid: D.Pid) returns (text: string)
    requires Bystander(net, c, p, e) && e.Received? && e.c in net.live && D.Inv(D.SetWord(net, e.c, ""))
    requires Enumerates(e.order, net.peers.Keys) && !pid.Null? && PlainWord(D.Key(pid)) && D.Key(pid) != p
    requires D.MayLogin(net, e.c, pid)
    ensures Aside(net, D.Login(D.SetWord(net, e.c, ""), e.c, pid, e.order), c, p, text)
    ensures text == "" || (p in net.peers && text == Frame(["login", D.Key(pid)]))
  {
    hide D.Inv, Frame, Enumerates, D.Broadcast, D.OnlineText, PlainWord;
    text := "";
    if D.Key(pid) !in net.peers {
      var clear := D.SetWord(net, e.c, "");
      assert e.c !in clear.peers.Values;
      D.LoginWrites(clear, e.c, pid, e.order, c);
      if p in net.peers {
        text := Frame(["login", D.Key(pid)]);
      }
    }
  }

  lemma SendAside(net: D.Net, c: D.Sock, p: string, e: D.Event, ws: seq<string>)
    requires Bystander(net, c, p, e) && |ws| >= 1 && D.Key(D.WordAt(ws, 1)) != p && e.c in net.conns
    ensures Aside(net, D.Send(D.SetWord(net, e.c, ""), e.c, ws), c, p, "")
  {
    hide D.Tells, D.Relayed, PlainWord;
    var to := D.Key(D.WordAt(ws, 1));
    if to in net.peers {
      assert D.Registered(net, to);
      D.PeersDiffer(net);
    }
  }

  lemma CloseAside(net: D.Net, c: D.Sock, p: string, e: D.Event) returns (text: string, z: string)
    requires Bystander(net, c, p, e) && e.Closed? && D.Possible(net, e)
    ensures Aside(net, D.Next(net, e), c, p, text)
    ensures text == "" || (p in net.peers && PlainWord(z) && text == Frame(["offline", z]))
  {
    hide D.Tells, Frame, Enumerates, D.Broadcast, PlainWord;
    var d := e.c;
    text, z := "", "";
    if d in net.peers.Values {
      var q :| q in net.peers && net.peers[q] == d;
      assert D.Registered(net, q) && D.Sane(net.conns[d]);
      D.CloseWrites(net, d, e.order, c);
      D.PeersDiffer(net);
      if p in net.peers {
        assert D.Next(net, e).peers[p] == c;
        text, z := Frame(["offline", q]), q;
      }
    } else {
      CloseQuiet(net, d, e.order);
    }
  }

  lemma OtherNoticeIs(names: H.Pair<string>, x: H.Side, verb: string, z: string)
    requires PlainWord(z) && (verb == "offline" || (verb == "login" && z != names.Get(H.Other(x))))
    ensures NoticeIs(names, x, [verb, z], H.OtherNotice)
  {
  }

  /** A stranger's event from `x`'s side: nothing, or one more piece of news. */
  lemma StrangerSide(names: H.Pair<string>, b: System, w: H.World, f: H.Pair<seq<seq<string>>>, e: D.Event, x: H.Side)
      returns (gs: seq<seq<string>>, k: nat)
    requires Matches(names, b, w, f) && Stranger(names, b, e) && b.links.Get(x).On?
    ensures PlainFrames(gs) && Told(names, x, gs, News(k)) && (k > 0 ==> H.OnTable(w, x))
    ensures Aside(b.net, D.Next(b.net, e), b.links.Get(x).c, names.Get(x), Frames(gs))
  {
    hide D.Inv, D.Basic, Frames, Frame, RequestFrames, NoticeIs, PlainEnd, D.Possible, D.Orderly, D.Completed;
    hide PlainFrames, D.Next, Aside, PlainWord;
    LinksDiffer(names, b, w, f, x);
    BystanderNow(names, b, w, f, x, e);
    var c, p := b.links.Get(x).c, names.Get(x);
    gs, k := [], 0;
    NoneTold(names, x);
    assert News(0) == [] && News(1) == [H.OtherNotice];
    match e
    case Accepted(_, _) => AcceptAside(b.net, c, p, e);
    case Received(_, ch, _) =>
      if ch != '>' {
        CharAside(b.net, c, p, e);
      } else {
        var text, z := FrameAside(b.net, c, p, e);
        if text != "" {
          var ws := ["login", z];
          OtherNoticeIs(names, x, ws[0], ws[1]);
          NewsTold(names, x, ws);
          gs, k := [ws], 1;
        }
      }
    case Closed(_, _) =>
      var text, z := CloseAside(b.net, c, p, e);
      if text != "" {
        var ws := ["offline", z];
        OtherNoticeIs(names, x, ws[0], ws[1]);
        NewsTold(names, x, ws);
        gs, k := [ws], 1;
      }
  }

  /** A stranger does not log in under a name of the two. */
  lemma NameAbsent(net: D.Net, e: D.Event, p: string)
    requires D.Basic(net) && D.Possible(net, e) && p !in net.peers
    requires e.Received? && e.ch == '>' ==>
      var ws := D.Completed(net, e.c);
      ws[0] == "login" || ws[0] == "send" ==> D.Key(D.WordAt(ws, 1)) != p
    ensures p !in D.Next(net, e).peers
  {
    hide Frame, Split, D.Said, D.Dialog, Enumerates, D.Broadcast, D.OnlineText, D.Relayed;
    if e.Received? && e.ch == '>' {
      D.ReceiveFrame(net, e.c, e.order);
    }
  }

  /** One side while a stranger acts. */
  lemma StrangerMatches(names: H.Pair<string>, b: System, w: H.World, f: H.Pair<seq<seq<string>>>, e: D.Event,
      x: H.Side)
      returns (k: nat, gs: seq<seq<string>>)
    requires Matches(names, b, w, f) && Stranger(names, b, e)
    ensures k > 0 ==> H.OnTable(w, x)
    ensures forall w': H.World :: w'.(down := w.down) == w && w'.down.Get(x) == w.down.Get(x) + News(k) ==>
      var b' := b.(net := D.Next(b.net, e));
      SideOk(names, b', w', x, f.Get(x) + gs) && TableOk(names, b', w', x)
  {
    hide D.Inv, D.Basic, Frames, RequestFrames, NoticeIs, PlainEnd, D.Possible, D.Orderly, D.Completed, PlainFrames;
    hide D.Next, PlainRequests, Told;
    LinksDiffer(names, b, w, f, x);
    var b' := b.(net := D.Next(b.net, e));
    k, gs := 0, [];
    if b.links.Get(x).On? {
      gs, k := StrangerSide(names, b, w, f, e, x);
      forall w': H.World | w'.(down := w.down) == w && w'.down.Get(x) == w.down.Get(x) + News(k)
        ensures SideOk(names, b', w', x, f.Get(x) + gs) && TableOk(names, b', w', x)
      {
        SideHears(names, b, w, b', w', x, f.Get(x), gs, News(k));
      }
    } else {
      NameAbsent(b.net, e, names.Get(x));
      assert News(0) == [];
      forall w': H.World | w'.(down := w.down) == w && w'.down.Get(x) == w.down.Get(x) + News(k)
        ensures SideOk(names, b', w', x, f.Get(x) + gs) && TableOk(names, b', w', x)
      {
        assert w.down.Get(x) + [] == w.down.Get(x) && f.Get(x) + [] == f.Get(x);
        SideStays(names, b, w, b', w', x, f.Get(x));
      }
    }
  }

  lemma OtherMatches(names: H.Pair<string>, b: System, w: H.World, f: H.Pair<seq<seq<string>>>, e: D.Event)
      returns (w': H.World, f': H.Pair<seq<seq<string>>>)
    requires Matches(names, b, w, f) && Reaches(w) && D.Basic(b.net) && Enabled(names, b, Other(e))
    ensures Reaches(w') && Matches(names, Next(names, b, Other(e)), w', f')
  {
    hide D.Inv, Reaches, SideOk, TableOk, D.Next, D.Orderly, D.Possible, D.Completed, News;
    var i, ga := StrangerMatches(names, b, w, f, e, H.A);
    var j, gb := StrangerMatches(names, b, w, f, e, H.B);
    D.InvNext(b.net, e);
    var w1 := Noted(w, H.A, i);
    NewsAny(w, H.A, i);
    w' := Noted(w1, H.B, j);
    NewsAny(w1, H.B, j);
    f' := H.Pair(f.a + ga, f.b + gb);
    BothMatch(names, Next(names, b, Other(e)), w', f', H.A);
  }

  lemma NewsAny(w: H.World, x: H.Side, k: nat)
    requires Reaches(w) && (k > 0 ==> H.OnTable(w, x))
    ensures Reaches(Noted(w, x, k))
  {
    if k == 0 {
      assert w.down.Get(x) + News(0) == w.down.Get(x);
      SetSame(w.down, x);
    } else {
      NewsMany(w, x, k);
    }
  }

  // ------------------------------------------------------------------- refinement

  lemma StepMatches(names: H.Pair<string>, b: System, w: H.World, f: H.Pair<seq<seq<string>>>, step: Step)
      returns (w': H.World, f': H.Pair<seq<seq<string>>>)
    requires Matches(names, b, w, f) && Reaches(w) && D.Basic(b.net) && Enabled(names, b, step)
    ensures Reaches(w') && Matches(names, Next(names, b, step), w', f')
  {
    hide Matches, Reaches, Next, D.Basic, D.Possible, D.Orderly, Stranger, PlainCandidates;
    w', f' := w, f;
    match step
    case Connect(x, c, sid) => w' := ConnectMatches(names, b, w, f, x, c, sid);
    case Receive(x, order) =>
      if b.queued.Get(x)[0] != '>' {
        MidFrame(names, b, w, f, x, order);
      } else {
        NextChar(names, b, w, f, x, order);
        if w.up.Get(x)[0].LoginRequest? {
          w', f' := LoginMatches(names, b, w, f, x, order);
        } else {
          w', f' := SendMatches(names, b, w, f, x, order);
        }
      }
    case Read(x, order) =>
      if b.net.written[b.links.Get(x).c][b.read.Get(x)] != '>' {
        MidRead(names, b, w, f, x, order);
      } else {
        w', f' := ReadMatches(names, b, w, f, x, order);
      }
    case Work(x, order) => w' := WorkMatches(names, b, w, f, x, order);
    case Report(x, proxy, candidates) => w' := ReportMatches(names, b, w, f, x, proxy, candidates);
    case Lose(x, order) => w', f' := LoseMatches(names, b, w, f, x, order);
    case Other(e) => w', f' := OtherMatches(names, b, w, f, e);
  }

  /** Every run of the system, character by character, is a run of the message-level world. */
  lemma {:induction false} Refines(names: H.Pair<string>, steps: seq<Step>)
      returns (w: H.World, f: H.Pair<seq<seq<string>>>)
    requires Named(names) && Run(names, steps)
    ensures Reaches(w) && Matches(names, After(names, steps), w, f)
  {
    if steps == [] {
      StartMatches(names);
      w, f := H.NEW_WORLD, H.Pair([], []);
    } else {
      hide Matches, Reaches, Enabled, Next;
      var n := |steps| - 1;
      w, f := Refines(names, steps[..n]);
      w, f := StepMatches(names, After(names, steps[..n]), w, f, steps[n]);
    }
  }

  /** The session that the frame just completed is for is in a state that expects it. */
  ghost predicate TimelyOnWire(names: H.Pair<string>, b: System, x: H.Side)
  {
    b.links.Get(x).On? && b.links.Get(x).c in b.net.written && b.read.Get(x) < |b.net.written[b.links.Get(x).c]|
    && b.net.written[b.links.Get(x).c][b.read.Get(x)] == '>' ==>
      var ws, s := FrameWords(b.buffers.Get(x) + ['>']), b.ends.Get(x).s;
      |ws| >= 3 && ws[0] == "message" ==>
        && ws[2] in {"pp_initiate", "pp_accept", "pp_transport"}
        && (ws[2] == "pp_initiate" ==> s.state.Init?)
        && (ws[2] == "pp_accept" ==> s.state.SentInitiate?)
        && (ws[2] == "pp_transport" ==> s.state.SentAccept? || s.state.ReceivedAccept?)
  }

  /** An accept received means that the other session has sent one, for the same content. */
  ghost predicate AgreedOnWire(b: System, x: H.Side)
  {
    var s, other := b.ends.Get(x).s, b.ends.Get(H.Other(x)).s;
    s.state.ReceivedAccept? ==> other.state.SentAccept? && other.content == s.content
  }

  /**
    In every run, for every interleaving of the characters of all connections: the two
    sessions are never both initiator; a message frame that a client completes finds its
    session in a state that expects it; and an accept received means that the other
    session has sent one, for the same content.
  */
  lemma SafeOnWire(names: H.Pair<string>, steps: seq<Step>)
    requires Named(names) && Run(names, steps)
    ensures
      var b := After(names, steps);
      && !(Initiator(b.ends.a) && Initiator(b.ends.b))
      && (forall x :: TimelyOnWire(names, b, x))
      && forall x :: AgreedOnWire(b, x)
  {
    hide Run, After, Matches, Reaches, TimelyOnWire;
    var w, f := Refines(names, steps);
    var b := After(names, steps);
    OneInitiates(w);
    OnIfBusy(names, b, w, f, H.A);
    OnIfBusy(names, b, w, f, H.B);
    forall x ensures TimelyOnWire(names, b, x) && AgreedOnWire(b, x) {
      WireTimely(names, b, w, f, x);
    }
  }

  lemma OneInitiates(w: H.World)
    requires Reaches(w)
    ensures !(Initiator(w.ends.a) && Initiator(w.ends.b))
  {
    ReachedInv(w);
    hide H.At, H.Calm, Reaches;
    if H.Calm(w) {
      CalmRoles(w, H.A);
    } else {
      var x, stage :| H.At(w, x, stage);
      AtRoles(w, x, stage);
    }
  }

  predicate Initiator(e: H.End) { e.s.state.SentInitiate? || e.s.state.ReceivedAccept? }

  lemma CalmRoles(w: H.World, x: H.Side)
    requires H.Calm(w)
    ensures !Initiator(w.ends.Get(x))
  {
    hide H.Arrives;
  }

  lemma AtRoles(w: H.World, x: H.Side, stage: H.Stage)
    requires H.At(w, x, stage)
    ensures !Initiator(w.ends.Get(H.Other(x)))
  {
    hide H.Base, H.Opens;
  }

  lemma ReachedSafe(w: H.World, x: H.Side)
    requires Reaches(w)
    ensures H.Timely(w, x) && H.Agreed(w, x)
  {
    hide H.Timely, H.Agreed;
    var steps :| H.Run(steps) && H.After(steps) == w;
    H.HandshakeSafe(steps);
  }

  lemma WireTimely(names: H.Pair<string>, b: System, w: H.World, f: H.Pair<seq<seq<string>>>, x: H.Side)
    requires Matches(names, b, w, f) && Reaches(w)
    ensures TimelyOnWire(names, b, x) && H.Agreed(w, x)
  {
    hide D.Inv, D.Basic, Frames, Frame, PlainEnd, RequestFrames, FrameWords, Reaches, Incoming, Enumerates, H.Agreed;
    ReachedSafe(w, x);
    LinksDiffer(names, b, w, f, x);
    if b.links.Get(x).On? && b.read.Get(x) < |b.net.written[b.links.Get(x).c]| &&
      b.net.written[b.links.Get(x).c][b.read.Get(x)] == '>' {
      HeadNotice(names, b, w, f, x);
      var ws, n := f.Get(x)[0], w.down.Get(x)[0];
      if n.MessageNotice? {
        MessageVerb(n.msg);
        assert ws[2] == MessageWords(n.msg)[0];
      }
    }
  }

  /** The frame that is about to be complete is that of the first notice on its way. */
  lemma HeadNotice(names: H.Pair<string>, b: System, w: H.World, f: H.Pair<seq<seq<string>>>, x: H.Side)
    requires Matches(names, b, w, f) && b.links.Get(x).On? && b.links.Get(x).c in b.net.written
    requires b.read.Get(x) < |b.net.written[b.links.Get(x).c]| && b.net.written[b.links.Get(x).c][b.read.Get(x)] == '>'
    ensures f.Get(x) != [] && w.down.Get(x) != [] && NoticeIs(names, x, f.Get(x)[0], w.down.Get(x)[0])
    ensures FrameWords(b.buffers.Get(x) + ['>']) == f.Get(x)[0]
  {
    hide D.Inv, D.Basic, Frames, Frame, PlainEnd, RequestFrames, FrameWords;
    LinksDiffer(names, b, w, f, x);
    var c, n, fs := b.links.Get(x).c, b.read.Get(x), f.Get(x);
    var unread := b.net.written[c][n..];
    FirstFrame(b.buffers.Get(x), unread, fs);
    WordsBack(fs[0]);
  }

  lemma MessageVerb(m: Message)
    requires PlainMessage(m)
    ensures
      var body := MessageWords(m);
      body != [] && body[0] ==
        (if m.InitiateMsg? then "pp_initiate" else if m.AcceptMsg? then "pp_accept" else "pp_transport")
  {
    MessagePlain(m);
  }
}
