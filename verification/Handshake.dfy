/**
  prober.cpp on both ends, the dialog server between them: who may initiate, and in what
  order the two sessions hear from each other.

  `World` is two endpoints, the server's table and the four FIFO channels, which carry
  whole messages (Delivery shows that the wire does). Any step may come at any time:
  connecting, a request served, a notice delivered, a posted task run, candidates
  reported, a connection lost. Each name connects once, and notices about other clients
  are allowed, their messages are not, since onRemoteMessage does not look at the sender.
*/
module Handshake {
  import opened Candidates
  import opened PPSessions
  import opened Orders

  const CONTENT := "data"

  /** MSG_DO_INITIATE, MSG_DO_ACCEPT */
  datatype Task = DoInitiate | DoAccept

  /** An IceProber. */
  datatype End = End(s: Session, tasks: seq<Task>, remoteOnline: bool)

  /** What an event makes of an endpoint, and what it sends to the other. */
  datatype Effect = Effect(e: End, out: seq<Message>)

  /** onRemoteLogin, for the name that this endpoint waits for. */
  function RemoteLogin(e: End): End
  {
    if e.remoteOnline then e else e.(remoteOnline := true, tasks := e.tasks + [DoInitiate])
  }

  /** onRemoteMessage, with onStateChanged where the session's state changes. */
  ghost function RemoteMessage(e: End, msg: Message, order: seq<string>): Effect
    requires Enumerates(order, e.s.unsent.Keys)
  {
    var o := Incoming(e.s, msg, order);
    Effect(e.(s := o.s, tasks := if o.s.state != e.s.state && o.s.state.ReceivedInitiate? && o.s.content == CONTENT
                                 then e.tasks + [DoAccept] else e.tasks),
           o.sent)
  }

  /** OnMessage: doInitiate_s or doAccept_s */
  ghost function RunTask(e: End, order: seq<string>): Effect
    requires e.tasks != [] && Enumerates(order, e.s.unsent.Keys)
  {
    var rest := e.(tasks := e.tasks[1..]);
    var o := if e.tasks[0].DoInitiate? then Initiated(e.s, CONTENT) else Accepted(e.s, order);
    Effect(rest.(s := o.s), o.sent)
  }

  class IceProber {
    var session: PPSession
    var tasks: seq<Task>
    var remoteOnline: bool
    const remoteName: string
    var sent: seq<(string, Message)>   // handed to the peer for the server

    function E(): End
      reads this, session
    {
      End(session.S(), tasks, remoteOnline)
    }

    constructor (remoteName: string)
      ensures fresh(session) && this.remoteName == remoteName && sent == []
      ensures E() == End(Session(Init, "", false, map[CONTENT := []]), [], false) && session.outgoing == []
    {
      this.remoteName := remoteName;
      tasks, remoteOnline, sent := [], false, [];
      var s := new PPSession();
      s.unsent := s.unsent[CONTENT := []];
      session := s;
    }

    /** onOutgoingMessage, on the messages that the last call signalled; kinds that have no word are dropped. */
    method Forward(from: nat)
      requires from <= |session.outgoing|
      modifies this`sent
      ensures sent == old(sent) + Addressed(remoteName, Carriable(session.outgoing[from..]))
    {
      hide Addressed, Carriable;
      ghost var out := session.outgoing[from..];
      AddressedNone(remoteName);
      assert out[..0] == [];
      for i := from to |session.outgoing|
        invariant sent == old(sent) + Addressed(remoteName, Carriable(out[..i - from]))
      {
        var m := session.outgoing[i];
        assert out[..i + 1 - from] == out[..i - from] + [m];
        CarriableMore(out[..i - from], m);
        AddressedMore(remoteName, Carriable(out[..i - from]), m);
        if m.InitiateMsg? || m.AcceptMsg? || m.TransportMsg? {
          sent := sent + [(remoteName, m)];
        }
      }
      assert out[..|out|] == out;
    }

    method OnRemoteLogin(remote: string)
      modifies this`remoteOnline, this`tasks
      ensures E() == if remote == remoteName then RemoteLogin(old(E())) else old(E())
    {
      if remote == remoteName && remoteOnline == false {
        remoteOnline := true;
        tasks := tasks + [DoInitiate];
      }
    }

    method OnRemoteMessage(msg: Message) returns (ghost order: seq<string>)
      modifies this, session
      ensures session == old(session) && Enumerates(order, old(session.unsent.Keys))
      ensures
        var r := RemoteMessage(old(E()), msg, order);
        E() == r.e && sent == old(sent) + Addressed(remoteName, r.out)
    {
      hide Enumerates, Addressed, Incoming, Carriable;
      var was, n := session.state, |session.outgoing|;
      var valid;
      valid, order := session.OnIncomingMessage(msg);
      if session.state != was && session.state == ReceivedInitiate && session.contentName == CONTENT {
        tasks := tasks + [DoAccept];
      }
      IncomingCarried(old(session.S()), msg, order);
      CarriableAll(session.outgoing[n..]);
      Forward(n);
    }

    method OnMessage() returns (ghost order: seq<string>)
      requires tasks != []
      modifies this, session
      ensures session == old(session) && Enumerates(order, old(session.unsent.Keys))
      ensures
        var r := RunTask(old(E()), order);
        E() == r.e && sent == old(sent) + Addressed(remoteName, r.out)
    {
      hide Enumerates, Addressed;
      var n, task := |session.outgoing|, tasks[0];
      tasks := tasks[1..];
      var ok;
      if task == DoInitiate {
        order := SomeOrder(session.unsent.Keys);
        ok := session.Initiate(CONTENT);
      } else {
        ok, order := session.Accept();
        AcceptCarried(old(session.S()), order);
      }
      CarriableAll(session.outgoing[n..]);
      Forward(n);
    }
  }

  /** onOutgoingMessage knows these kinds. */
  predicate Carried(m: Message) { m.InitiateMsg? || m.AcceptMsg? || m.TransportMsg? }

  predicate AllCarried(ms: seq<Message>) { forall k :: 0 <= k < |ms| ==> Carried(ms[k]) }

  function Addressed(to: string, ms: seq<Message>): seq<(string, Message)>
  {
    seq(|ms|, i requires 0 <= i < |ms| => (to, ms[i]))
  }

  function Carriable(ms: seq<Message>): seq<Message>
  {
    if ms == [] then []
    else Carriable(ms[..|ms| - 1]) + if Carried(ms[|ms| - 1]) then [ms[|ms| - 1]] else []
  }

  lemma CarriableMore(ms: seq<Message>, m: Message)
    ensures Carriable(ms + [m]) == if Carried(m) then Carriable(ms) + [m] else Carriable(ms)
  {
    assert (ms + [m])[..|ms|] == ms;
  }

  lemma {:induction false} CarriableAll(ms: seq<Message>)
    requires AllCarried(ms)
    ensures Carriable(ms) == ms
  {
    if ms != [] {
      CarriableAll(ms[..|ms| - 1]);
    }
  }

  lemma AddressedNone(to: string)
    ensures Addressed(to, Carriable([])) == []
  {
  }

  lemma AddressedMore(to: string, ms: seq<Message>, m: Message)
    ensures Addressed(to, ms + [m]) == Addressed(to, ms) + [(to, m)]
  {
  }

  /** Flushing sends only candidates, of proxies there are. */
  lemma {:induction false} FlushCarried(unsent: map<string, seq<Candidate>>, order: seq<string>)
    requires forall k :: 0 <= k < |order| ==> order[k] in unsent
    ensures forall k :: 0 <= k < |Flush(unsent, order)| ==>
      Flush(unsent, order)[k].TransportMsg? && Flush(unsent, order)[k].content in unsent
  {
    if order != [] { FlushCarried(unsent, order[..|order| - 1]); }
  }

  lemma IncomingCarried(s: Session, msg: Message, order: seq<string>)
    requires Enumerates(order, s.unsent.Keys)
    ensures AllCarried(Incoming(s, msg, order).sent)
  {
    FlushCarried(s.unsent, order);
  }

  lemma AcceptCarried(s: Session, order: seq<string>)
    requires Enumerates(order, s.unsent.Keys)
    ensures AllCarried(Accepted(s, order).sent)
  {
    FlushCarried(s.unsent, order);
  }

  // ------------------------------------------------------------------ the world

  datatype Side = A | B

  function Other(x: Side): Side { if x == A then B else A }

  datatype Pair<T> = Pair(a: T, b: T) {
    function Get(x: Side): T { if x == A then a else b }
    function Set(x: Side, v: T): (r: Pair<T>)
      ensures r.Get(x) == v && r.Get(Other(x)) == Get(Other(x))
    {
      if x == A then Pair(v, b) else Pair(a, v)
    }
  }

  datatype Request = LoginRequest | SendRequest(msg: Message)

  /** A login of the other endpoint, one of its messages, or news of no consequence. */
  datatype Notice = LoginNotice | MessageNotice(msg: Message) | OtherNotice

  /** `logged`: the server has processed the login; `said` and `got` are history. */
  datatype World = World(
    ends: Pair<End>, up: Pair<seq<Request>>, down: Pair<seq<Notice>>,
    connected: Pair<bool>, logged: Pair<bool>, closed: Pair<bool>,
    said: Pair<seq<Message>>, got: Pair<seq<Message>>)

  const NEW_END := End(Session(Init, "", false, map[CONTENT := []]), [], false)

  const NEW_WORLD := World(Pair(NEW_END, NEW_END), Pair([], []), Pair([], []),
                          Pair(false, false), Pair(false, false), Pair(false, false), Pair([], []), Pair([], []))

  datatype Step =
    | Connect(x: Side)
    | Serve(x: Side)
    | Deliver(x: Side, order: seq<string>)
    | Work(x: Side, order: seq<string>)
    | Report(x: Side, proxy: string, candidates: seq<Candidate>)
    | Lose(x: Side)
    | News(x: Side)

  predicate OnTable(w: World, x: Side) { w.logged.Get(x) && !w.closed.Get(x) }

  ghost predicate Enabled(w: World, step: Step)
  {
    match step
    case Connect(x) => !w.connected.Get(x)
    case Serve(x) => w.up.Get(x) != [] && !w.closed.Get(x)
    case Deliver(x, order) => w.down.Get(x) != [] && Enumerates(order, w.ends.Get(x).s.unsent.Keys)
    case Work(x, order) => w.ends.Get(x).tasks != [] && Enumerates(order, w.ends.Get(x).s.unsent.Keys)
    case Report(x, _, _) => !w.ends.Get(x).s.state.Init?
    case Lose(x) => w.connected.Get(x) && !w.closed.Get(x)
    case News(x) => OnTable(w, x)
  }

  function Requests(ms: seq<Message>): seq<Request>
  {
    seq(|ms|, i requires 0 <= i < |ms| => SendRequest(ms[i]))
  }

  /** The endpoint does something and says something. */
  function Did(w: World, x: Side, r: Effect): World
  {
    w.(ends := w.ends.Set(x, r.e), up := w.up.Set(x, w.up.Get(x) + Requests(r.out)),
      said := w.said.Set(x, w.said.Get(x) + r.out))
  }

  function Tell(w: World, x: Side, n: Notice): World
  {
    w.(down := w.down.Set(x, w.down.Get(x) + [n]))
  }

  function Served(w: World, x: Side): World
    requires w.up.Get(x) != []
  {
    var rest := w.(up := w.up.Set(x, w.up.Get(x)[1..]));
    var y := Other(x);
    match w.up.Get(x)[0]
    case LoginRequest =>
      var in' := rest.(logged := rest.logged.Set(x, true));
      if OnTable(w, y) then Tell(Tell(in', x, OtherNotice), y, LoginNotice) else in'
    case SendRequest(m) =>
      if w.logged.Get(x) && OnTable(w, y) then Tell(rest, y, MessageNotice(m)) else rest
  }

  ghost function Delivered(w: World, x: Side, order: seq<string>): World
    requires w.down.Get(x) != [] && Enumerates(order, w.ends.Get(x).s.unsent.Keys)
  {
    var rest := w.(down := w.down.Set(x, w.down.Get(x)[1..]));
    match w.down.Get(x)[0]
    case LoginNotice => rest.(ends := rest.ends.Set(x, RemoteLogin(rest.ends.Get(x))))
    case MessageNotice(m) => Did(rest.(got := rest.got.Set(x, rest.got.Get(x) + [m])), x,
      RemoteMessage(rest.ends.Get(x), m, order))
    case OtherNotice => rest
  }

  function Reported(e: End, proxy: string, candidates: seq<Candidate>): Effect
  {
    var o := Ready(e.s, proxy, candidates);
    Effect(e.(s := o.s), o.sent)
  }

  ghost function Next(w: World, step: Step): World
    requires Enabled(w, step)
  {
    match step
    case Connect(x) => w.(connected := w.connected.Set(x, true), up := w.up.Set(x, w.up.Get(x) + [LoginRequest]))
    case Serve(x) => Served(w, x)
    case Deliver(x, order) => Delivered(w, x, order)
    case Work(x, order) => Did(w, x, RunTask(w.ends.Get(x), order))
    case Report(x, proxy, candidates) => Did(w, x, Reported(w.ends.Get(x), proxy, candidates))
    case Lose(x) =>
      var lost := w.(closed := w.closed.Set(x, true));
      if OnTable(w, x) && OnTable(w, Other(x)) then Tell(lost, Other(x), OtherNotice) else lost
    case News(x) => Tell(w, x, OtherNotice)
  }

  // --------------------------------------------------------------- the channels

  function Messages(down: seq<Notice>): seq<Message>
  {
    if down == [] then []
    else (if down[0].MessageNotice? then [down[0].msg] else []) + Messages(down[1..])
  }

  function Asked(up: seq<Request>): seq<Message>
  {
    if up == [] then []
    else (if up[0].SendRequest? then [up[0].msg] else []) + Asked(up[1..])
  }

  function Logins(down: seq<Notice>): nat
  {
    if down == [] then 0 else (if down[0].LoginNotice? then 1 else 0) + Logins(down[1..])
  }

  lemma {:induction false} MessagesSnoc(down: seq<Notice>, n: Notice)
    ensures Messages(down + [n]) == Messages(down) + if n.MessageNotice? then [n.msg] else []
    ensures Logins(down + [n]) == Logins(down) + if n.LoginNotice? then 1 else 0
  {
    if down != [] {
      MessagesSnoc(down[1..], n);
      assert (down + [n])[1..] == down[1..] + [n];
    } else {
      assert (down + [n])[1..] == [];
    }
  }

  lemma {:induction false} AskedMore(up: seq<Request>, ms: seq<Message>)
    ensures Asked(up + Requests(ms)) == Asked(up) + ms
  {
    if up != [] {
      AskedMore(up[1..], ms);
      assert (up + Requests(ms))[1..] == up[1..] + Requests(ms);
    } else {
      assert up + Requests(ms) == Requests(ms);
      AskedRequests(ms);
    }
  }

  lemma {:induction false} AskedRequests(ms: seq<Message>)
    ensures Asked(Requests(ms)) == ms
  {
    if ms != [] {
      assert Requests(ms)[1..] == Requests(ms[1..]);
      AskedRequests(ms[1..]);
    }
  }

  lemma AskedLogin(up: seq<Request>)
    ensures Asked(up + [LoginRequest]) == Asked(up)
  {
    AskedConcat(up, [LoginRequest]);
    assert Asked([LoginRequest]) == [];
    assert Asked(up) + [] == Asked(up);
  }

  lemma {:induction false} AskedConcat(a: seq<Request>, b: seq<Request>)
    ensures Asked(a + b) == Asked(a) + Asked(b)
  {
    if a != [] {
      AskedConcat(a[1..], b);
      assert (a + b)[1..] == a[1..] + b;
    } else {
      assert a + b == b;
    }
  }

  predicate Gone(w: World) { w.closed.a || w.closed.b }

  /**
    What `x` said is what the other got, what is on its way down, and what waits to be
    served, in this order; once a connection is lost nothing more gets through.
  */
  ghost predicate Arrives(w: World, x: Side)
  {
    var y := Other(x);
    if Gone(w) then w.got.Get(y) + Messages(w.down.Get(y)) <= w.said.Get(x)
    else w.got.Get(y) + Messages(w.down.Get(y)) + Asked(w.up.Get(x)) == w.said.Get(x)
  }

  lemma TellArrives(w: World, z: Side, n: Notice, x: Side)
    requires Arrives(w, x) && !n.MessageNotice?
    ensures Arrives(Tell(w, z, n), x)
  {
    MessagesSnoc(w.down.Get(z), n);
    assert Messages(w.down.Get(z)) + [] == Messages(w.down.Get(z));
  }

  lemma DidArrives(w: World, z: Side, r: Effect, x: Side)
    requires Arrives(w, x)
    ensures Arrives(Did(w, z, r), x)
  {
    hide Messages, Requests;
    AskedMore(w.up.Get(z), r.out);
    if z == x && !Gone(w) {
      var got, up := w.got.Get(Other(x)) + Messages(w.down.Get(Other(x))), Asked(w.up.Get(x));
      assert got + (up + r.out) == (got + up) + r.out;
    }
  }

  lemma ConnectArrives(w: World, z: Side, x: Side)
    requires Arrives(w, x)
    ensures Arrives(w.(connected := w.connected.Set(z, true), up := w.up.Set(z, w.up.Get(z) + [LoginRequest])), x)
  {
    AskedLogin(w.up.Get(z));
  }

  lemma LoseArrives(w: World, z: Side, x: Side)
    requires Arrives(w, x)
    ensures Arrives(w.(closed := w.closed.Set(z, true)), x)
  {
  }

  lemma ServeLoginArrives(w: World, z: Side, x: Side)
    requires Arrives(w, x) && w.up.Get(z) != [] && w.up.Get(z)[0].LoginRequest?
    ensures Arrives(Served(w, z), x)
  {
    hide Messages, Tell;
    var rest := w.(up := w.up.Set(z, w.up.Get(z)[1..]));
    var in' := rest.(logged := rest.logged.Set(z, true));
    assert [] + Asked(w.up.Get(z)[1..]) == Asked(w.up.Get(z)[1..]);
    assert Arrives(in', x);
    hide Arrives;
    TellArrives(in', z, OtherNotice, x);
    TellArrives(Tell(in', z, OtherNotice), Other(z), LoginNotice, x);
  }

  lemma ServeSendArrives(w: World, z: Side, x: Side)
    requires Arrives(w, x) && w.up.Get(z) != [] && !w.closed.Get(z) && w.up.Get(z)[0].SendRequest? && w.logged.a
    requires w.logged.b
    ensures Arrives(Served(w, z), x)
  {
    hide Messages, Asked;
    var y, m := Other(z), w.up.Get(z)[0].msg;
    MessagesSnoc(w.down.Get(y), MessageNotice(m));
    AskedHead(w.up.Get(z));
    if x == z && !Gone(w) {
      var got, down, up := w.got.Get(y), Messages(w.down.Get(y)), Asked(w.up.Get(x)[1..]);
      assert got + down + ([m] + up) == got + (down + [m]) + up;
    }
  }

  lemma AskedHead(up: seq<Request>)
    requires up != [] && up[0].SendRequest?
    ensures Asked(up) == [up[0].msg] + Asked(up[1..])
  {
  }

  /** The next message for `z` is the next one that the other said. */
  lemma HeadSaid(w: World, z: Side)
    requires Arrives(w, Other(z)) && w.down.Get(z) != [] && w.down.Get(z)[0].MessageNotice?
    ensures |w.got.Get(z)| < |w.said.Get(Other(z))| && w.down.Get(z)[0].msg == w.said.Get(Other(z))[|w.got.Get(z)|]
  {
    assert Other(Other(z)) == z;
    var k, down := |w.got.Get(z)|, Messages(w.down.Get(z));
    assert down[0] == w.down.Get(z)[0].msg;
    assert (w.got.Get(z) + down)[k] == down[0];
    if !Gone(w) {
      assert (w.got.Get(z) + down + Asked(w.up.Get(Other(z))))[k] == (w.got.Get(z) + down)[k];
    }
  }

  lemma DeliverArrives(w: World, z: Side, order: seq<string>, x: Side)
    requires Arrives(w, x) && w.down.Get(z) != [] && Enumerates(order, w.ends.Get(z).s.unsent.Keys)
    ensures Arrives(Delivered(w, z, order), x)
  {
    hide Asked, RemoteMessage, Enumerates;
    var n := w.down.Get(z)[0];
    var rest := w.(down := w.down.Set(z, w.down.Get(z)[1..]));
    if n.MessageNotice? {
      var g := rest.(got := rest.got.Set(z, rest.got.Get(z) + [n.msg]));
      assert w.got.Get(z) + ([n.msg] + Messages(w.down.Get(z)[1..])) ==
        (w.got.Get(z) + [n.msg]) + Messages(w.down.Get(z)[1..]);
      assert Arrives(g, x);
      DidArrives(g, z, RemoteMessage(rest.ends.Get(z), n.msg, order), x);
    } else {
      assert [] + Messages(w.down.Get(z)[1..]) == Messages(w.down.Get(z)[1..]);
    }
  }

  lemma NextArrives(w: World, step: Step, x: Side)
    requires Enabled(w, step) && Arrives(w, x)
    requires step.Serve? && w.up.Get(step.x)[0].SendRequest? ==> w.logged.a && w.logged.b
    ensures Arrives(Next(w, step), x)
  {
    hide Arrives, Served, Delivered, Did, Tell, RunTask, Enumerates;
    match step
    case Connect(z) => ConnectArrives(w, z, x);
    case Serve(z) => if w.up.Get(z)[0].SendRequest? { ServeSendArrives(w, z, x); } else { ServeLoginArrives(w, z, x); }
    case Deliver(z, order) => DeliverArrives(w, z, order, x);
    case Work(z, order) => DidArrives(w, z, RunTask(w.ends.Get(z), order), x);
    case Report(z, proxy, candidates) => DidArrives(w, z, Reported(w.ends.Get(z), proxy, candidates), x);
    case Lose(z) =>
      LoseArrives(w, z, x);
      TellArrives(w.(closed := w.closed.Set(z, true)), Other(z), OtherNotice, x);
    case News(z) => TellArrives(w, z, OtherNotice, x);
  }

  // --------------------------------------------------------------- the stages

  /** Before either has heard of the other. */
  ghost predicate Calm(w: World)
  {
    && w.ends == Pair(NEW_END, NEW_END) && w.said == Pair([], []) && w.got == Pair([], [])
    && (forall x :: Logins(w.down.Get(x)) == 0)
    && (forall x :: w.up.Get(x) == [] || (w.up.Get(x) == [LoginRequest] && w.connected.Get(x) && !w.logged.Get(x)))
    && (forall x :: w.logged.Get(x) ==> w.connected.Get(x) && w.up.Get(x) == [])
    && !(OnTable(w, A) && OnTable(w, B))
    && Arrives(w, A) && Arrives(w, B)
  }

  datatype Stage = Told | Called | Initiating | Answering | Accepting | Settled

  predicate OnlySends(up: seq<Request>) { forall k :: 0 <= k < |up| ==> up[k].SendRequest? }

  /** Opened by `m`, then only candidates. */
  predicate Opens(ms: seq<Message>, m: Message)
  {
    ms != [] && ms[0] == m && forall k :: 1 <= k < |ms| ==> ms[k].TransportMsg? && ms[k].content == CONTENT
  }

  predicate In(e: End, state: State, pending: bool, tasks: seq<Task>, remoteOnline: bool)
  {
    && e.s.state == state && e.s.content == CONTENT && e.s.pending == pending && e.s.unsent.Keys == {CONTENT}
    && e.tasks == tasks && e.remoteOnline == remoteOnline
  }

  /** How far the initiator `ex` and the other, `ey`, have come, by what they said and got. */
  predicate Mood(ex: End, ey: End, saidX: seq<Message>, saidY: seq<Message>, gotX: seq<Message>, gotY: seq<Message>,
      stage: Stage)
  {
    match stage
    case Told => ex == NEW_END && ey == NEW_END && saidX == saidY == gotX == gotY == []
    case Called => ex == NEW_END.(tasks := [DoInitiate], remoteOnline := true) && ey == NEW_END &&
      saidX == saidY == gotX == gotY == []
    case Initiating =>
      In(ex, SentInitiate, true, [], true) && ey == NEW_END && saidX == [InitiateMsg(CONTENT)] &&
        saidY == gotX == gotY == []
    case Answering =>
      && In(ex, SentInitiate, true, [], true) && In(ey, ReceivedInitiate, true, [DoAccept], false)
      && saidX == [InitiateMsg(CONTENT)] == gotY && saidY == gotX == []
    case Accepting =>
      && In(ex, SentInitiate, true, [], true) && In(ey, SentAccept, false, [], false)
      && saidX == [InitiateMsg(CONTENT)] == gotY && Opens(saidY, AcceptMsg(CONTENT)) && gotX == []
    case Settled =>
      && In(ex, ReceivedAccept, false, [], true) && In(ey, SentAccept, false, [], false)
      && Opens(saidX, InitiateMsg(CONTENT)) && Opens(saidY, AcceptMsg(CONTENT)) && gotX != [] && gotY != []
  }

  /** Both are logged in; `x` has yet to hear of it if `told` is 1. */
  ghost predicate Base(w: World, x: Side, told: nat)
  {
    && w.connected == w.logged == Pair(true, true)
    && OnlySends(w.up.a) && OnlySends(w.up.b)
    && Logins(w.down.Get(Other(x))) == 0 && Logins(w.down.Get(x)) == told
    && Arrives(w, A) && Arrives(w, B)
  }

  /** `x` was first on the table, so it is told of the other's login and initiates. */
  ghost predicate At(w: World, x: Side, stage: Stage)
  {
    var y := Other(x);
    && Base(w, x, if stage.Told? then 1 else 0)
    && Mood(w.ends.Get(x), w.ends.Get(y), w.said.Get(x), w.said.Get(y), w.got.Get(x), w.got.Get(y), stage)
  }

  ghost predicate Inv(w: World) { Calm(w) || exists x, stage :: At(w, x, stage) }

  lemma TellLogins(w: World, z: Side, n: Notice, x: Side)
    ensures Logins(Tell(w, z, n).down.Get(x)) == Logins(w.down.Get(x)) + if x == z && n.LoginNotice? then 1 else 0
  {
    MessagesSnoc(w.down.Get(z), n);
  }

  // ------------------------------------------------------- steps while calm

  lemma CalmConnect(w: World, z: Side)
    requires Calm(w) && Enabled(w, Connect(z))
    ensures Calm(Next(w, Connect(z)))
  {
    hide Arrives, Logins;
    NextArrives(w, Connect(z), A);
    NextArrives(w, Connect(z), B);
    assert [] + [LoginRequest] == [LoginRequest];
  }

  /** The second login on a live table starts the exchange; the first on the table will initiate. */
  lemma CalmServe(w: World, z: Side)
    requires Calm(w) && Enabled(w, Serve(z))
    ensures if OnTable(w, Other(z)) then At(Next(w, Serve(z)), Other(z), Told) else Calm(Next(w, Serve(z)))
  {
    hide Arrives, Logins;
    NextArrives(w, Serve(z), A);
    NextArrives(w, Serve(z), B);
    assert w.up.Get(z) == [LoginRequest];
    var rest := w.(up := w.up.Set(z, w.up.Get(z)[1..]));
    var in' := rest.(logged := rest.logged.Set(z, true));
    forall x ensures Logins(Next(w, Serve(z)).down.Get(x)) == if OnTable(w, Other(z)) && x == Other(z) then 1 else 0 {
      TellLogins(in', z, OtherNotice, x);
      TellLogins(Tell(in', z, OtherNotice), Other(z), LoginNotice, x);
      assert Logins(w.down.Get(x)) == 0;
    }
    if OnTable(w, Other(z)) {
      assert w.up.Get(Other(z)) == [];
      assert forall x :: Next(w, Serve(z)).up.Get(x) == [];
      BothSides(Next(w, Serve(z)).up, z);
    }
  }

  lemma BothSides<T>(p: Pair<T>, z: Side)
    ensures p == Pair(p.Get(A), p.Get(B)) && (p.Get(z) == p.Get(Other(z)) ==> p == Pair(p.Get(z), p.Get(z)))
  {
  }

  lemma CalmDeliver(w: World, z: Side, order: seq<string>)
    requires Calm(w) && Enabled(w, Deliver(z, order))
    ensures Calm(Next(w, Deliver(z, order)))
  {
    NextArrives(w, Deliver(z, order), A);
    NextArrives(w, Deliver(z, order), B);
    hide Enumerates, RemoteMessage, Asked;
    if w.down.Get(z)[0].MessageNotice? {
      HeadSaid(w, z);
    }
  }

  lemma CalmQuiet(w: World, step: Step)
    requires Calm(w) && Enabled(w, step) && (step.Lose? || step.News?)
    ensures Calm(Next(w, step))
  {
    hide Arrives, Logins;
    NextArrives(w, step, A);
    NextArrives(w, step, B);
    forall x ensures Logins(Next(w, step).down.Get(x)) == 0 {
      assert Logins(w.down.Get(x)) == 0;
      TellLogins(w, step.x, OtherNotice, x);
      TellLogins(w.(closed := w.closed.Set(step.x, true)), Other(step.x), OtherNotice, x);
    }
  }

  // --------------------------------------------------- steps during the exchange

  lemma AtServe(w: World, x: Side, stage: Stage, z: Side)
    requires At(w, x, stage) && Enabled(w, Serve(z))
    ensures At(Next(w, Serve(z)), x, stage)
  {
    hide Arrives, Logins, Mood;
    assert OnlySends(w.up.Get(z));
    NextArrives(w, Serve(z), A);
    NextArrives(w, Serve(z), B);
    var rest := w.(up := w.up.Set(z, w.up.Get(z)[1..]));
    forall side ensures Logins(Next(w, Serve(z)).down.Get(side)) == Logins(w.down.Get(side)) {
      TellLogins(rest, Other(z), MessageNotice(w.up.Get(z)[0].msg), side);
    }
  }

  lemma AtQuiet(w: World, x: Side, stage: Stage, step: Step)
    requires At(w, x, stage) && Enabled(w, step) && (step.Lose? || step.News?)
    ensures At(Next(w, step), x, stage)
  {
    hide Arrives, Logins, Mood, OnlySends;
    NextArrives(w, step, A);
    NextArrives(w, step, B);
    forall side ensures Logins(Next(w, step).down.Get(side)) == Logins(w.down.Get(side)) {
      TellLogins(w, step.x, OtherNotice, side);
      TellLogins(w.(closed := w.closed.Set(step.x, true)), Other(step.x), OtherNotice, side);
    }
  }

  lemma RequestsSend(up: seq<Request>, ms: seq<Message>)
    requires OnlySends(up)
    ensures OnlySends(up + Requests(ms))
  {
  }

  lemma BaseDid(w: World, x: Side, told: nat, z: Side, r: Effect)
    requires Base(w, x, told)
    ensures Base(Did(w, z, r), x, told)
  {
    hide Arrives, Logins, OnlySends, Requests;
    DidArrives(w, z, r, A);
    DidArrives(w, z, r, B);
    assert OnlySends(w.up.Get(z));
    RequestsSend(w.up.Get(z), r.out);
  }

  /** Saying candidates keeps a conversation in shape. */
  lemma OpensMore(ms: seq<Message>, m: Message, more: seq<Message>)
    requires Opens(ms, m)
    requires forall k :: 0 <= k < |more| ==> more[k].TransportMsg? && more[k].content == CONTENT
    ensures Opens(ms + more, m)
  {
  }

  /** A posted task finds its session in the state it was posted for. */
  lemma AtInitiates(w: World, x: Side, z: Side, order: seq<string>)
    requires At(w, x, Called) && Enabled(w, Work(z, order))
    ensures At(Next(w, Work(z, order)), x, Initiating)
  {
    hide Arrives, Logins, Flush, Base, Enumerates, Opens;
    BaseDid(w, x, 0, z, RunTask(w.ends.Get(z), order));
  }

  /** What the posted accept does. */
  lemma AcceptTask(e: End, order: seq<string>)
    requires In(e, ReceivedInitiate, true, [DoAccept], false) && Enumerates(order, e.s.unsent.Keys)
    ensures
      var r := RunTask(e, order);
      In(r.e, SentAccept, false, [], false) && Opens(r.out, AcceptMsg(CONTENT))
  {
    hide Flush, Enumerates, Opens;
    EnumeratedIn(order, e.s.unsent.Keys);
    FlushCarried(e.s.unsent, order);
    OpensOne(AcceptMsg(CONTENT));
    OpensMore([AcceptMsg(CONTENT)], AcceptMsg(CONTENT), Flush(e.s.unsent, order));
  }

  lemma AtAccepts(w: World, x: Side, z: Side, order: seq<string>)
    requires At(w, x, Answering) && Enabled(w, Work(z, order))
    ensures At(Next(w, Work(z, order)), x, Accepting)
  {
    hide Arrives, Logins, Base, Enumerates, Opens, RunTask;
    var r := RunTask(w.ends.Get(z), order);
    BaseDid(w, x, 0, z, r);
    AcceptTask(w.ends.Get(z), order);
    assert [] + r.out == r.out;
  }

  lemma WorkStage(w: World, x: Side, stage: Stage, z: Side)
    requires At(w, x, stage) && w.ends.Get(z).tasks != []
    ensures stage.Called? || stage.Answering?
  {
    hide Base, Opens;
  }

  lemma AtWork(w: World, x: Side, stage: Stage, z: Side, order: seq<string>)
    requires At(w, x, stage) && Enabled(w, Work(z, order))
    ensures stage.Called? || stage.Answering?
    ensures At(Next(w, Work(z, order)), x, if stage.Called? then Initiating else Accepting)
  {
    hide At, Next, Enumerates;
    WorkStage(w, x, stage, z);
    if stage.Called? {
      AtInitiates(w, x, z, order);
    } else {
      AtAccepts(w, x, z, order);
    }
  }

  lemma AtReport(w: World, x: Side, stage: Stage, z: Side, proxy: string, candidates: seq<Candidate>)
    requires At(w, x, stage) && Enabled(w, Report(z, proxy, candidates))
    ensures At(Next(w, Report(z, proxy, candidates)), x, stage)
  {
    hide Arrives, Logins, Base, Opens;
    var r := Reported(w.ends.Get(z), proxy, candidates);
    BaseDid(w, x, if stage.Told? then 1 else 0, z, r);
    assert w.said.Get(z) + [] == w.said.Get(z);
    if stage.Settled? || (stage.Accepting? && z == Other(x)) {
      OpensMore(w.said.Get(z), if z == x then InitiateMsg(CONTENT) else AcceptMsg(CONTENT), r.out);
    }
  }

  lemma BasePop(w: World, x: Side, told: nat, z: Side)
    requires Base(w, x, told) && w.down.Get(z) != []
    requires w.down.Get(z)[0].MessageNotice?
    ensures
      var rest := w.(down := w.down.Set(z, w.down.Get(z)[1..]));
      Base(rest.(got := rest.got.Set(z, rest.got.Get(z) + [w.down.Get(z)[0].msg])), x, told)
  {
    hide Asked;
    var m := w.down.Get(z)[0].msg;
    assert w.got.Get(z) + ([m] + Messages(w.down.Get(z)[1..])) == (w.got.Get(z) + [m]) + Messages(w.down.Get(z)[1..]);
  }

  /** Every message finds its receiver in the right state. */
  lemma AtMessage(w: World, x: Side, stage: Stage, z: Side)
    requires At(w, x, stage) && w.down.Get(z) != [] && w.down.Get(z)[0].MessageNotice?
    ensures
      var m := w.down.Get(z)[0].msg;
      || (stage.Initiating? && z == Other(x) && m == InitiateMsg(CONTENT))
      || (stage.Accepting? && z == x && m == AcceptMsg(CONTENT))
      || (stage.Settled? && m.TransportMsg? && m.content == CONTENT)
  {
    hide Base, Arrives, Logins;
    AtArrives(w, x, stage);
    HeadSaid(w, z);
  }

  lemma AtArrives(w: World, x: Side, stage: Stage)
    requires At(w, x, stage)
    ensures Arrives(w, A) && Arrives(w, B)
  {
    hide Arrives, Logins, Mood;
  }

  /** An endpoint that is called answers. */
  lemma InitiateEffect(order: seq<string>)
    requires Enumerates(order, NEW_END.s.unsent.Keys)
    ensures
      var r := RemoteMessage(NEW_END, InitiateMsg(CONTENT), order);
      In(r.e, ReceivedInitiate, true, [DoAccept], false) && r.out == [] &&
        Incoming(NEW_END.s, InitiateMsg(CONTENT), order).ok
  {
    hide Enumerates;
  }

  /** An endpoint that is answered sends the candidates that waited. */
  lemma AcceptEffect(e: End, order: seq<string>)
    requires Enumerates(order, e.s.unsent.Keys) && In(e, SentInitiate, true, [], true)
    ensures
      var r := RemoteMessage(e, AcceptMsg(CONTENT), order);
      && In(r.e, ReceivedAccept, false, [], true) && Incoming(e.s, AcceptMsg(CONTENT), order).ok
      && forall k :: 0 <= k < |r.out| ==> r.out[k].TransportMsg? && r.out[k].content == CONTENT
  {
    hide Enumerates, Flush;
    EnumeratedIn(order, e.s.unsent.Keys);
    FlushCarried(e.s.unsent, order);
  }

  lemma TransportEffect(e: End, m: Message, order: seq<string>)
    requires Enumerates(order, e.s.unsent.Keys) && m.TransportMsg? && m.content in e.s.unsent
    ensures RemoteMessage(e, m, order) == Effect(e, []) && Incoming(e.s, m, order).ok
  {
    hide Enumerates;
  }

  lemma DeliverBase(w: World, x: Side, stage: Stage, z: Side, order: seq<string>)
    requires At(w, x, stage) && Enabled(w, Deliver(z, order)) && w.down.Get(z)[0].MessageNotice?
    ensures Base(Next(w, Deliver(z, order)), x, 0)
  {
    hide Arrives, Logins, Base, Enumerates, Incoming, RemoteMessage, Opens;
    AtMessage(w, x, stage, z);
    var m := w.down.Get(z)[0].msg;
    BasePop(w, x, 0, z);
    var rest := w.(down := w.down.Set(z, w.down.Get(z)[1..]));
    var g := rest.(got := rest.got.Set(z, rest.got.Get(z) + [m]));
    BaseDid(g, x, 0, z, RemoteMessage(w.ends.Get(z), m, order));
  }

  lemma AtDeliverInitiate(w: World, x: Side, stage: Stage, z: Side, order: seq<string>)
    requires At(w, x, stage) && Enabled(w, Deliver(z, order)) && w.down.Get(z)[0].MessageNotice?
    requires stage.Initiating?
    ensures At(Next(w, Deliver(z, order)), x, Answering)
    ensures Incoming(w.ends.Get(z).s, w.down.Get(z)[0].msg, order).ok
  {
    hide Arrives, Logins, Base, Enumerates, Incoming, RemoteMessage, Opens;
    AtMessage(w, x, stage, z);
    DeliverBase(w, x, stage, z, order);
    assert w.said.Get(z) + [] == w.said.Get(z);
    InitiateEffect(order);
  }

  lemma AtDeliverAccept(w: World, x: Side, stage: Stage, z: Side, order: seq<string>)
    requires At(w, x, stage) && Enabled(w, Deliver(z, order)) && w.down.Get(z)[0].MessageNotice?
    requires stage.Accepting?
    ensures At(Next(w, Deliver(z, order)), x, Settled)
    ensures Incoming(w.ends.Get(z).s, w.down.Get(z)[0].msg, order).ok
  {
    hide Arrives, Logins, Base, Enumerates, Incoming, RemoteMessage, Opens;
    AtMessage(w, x, stage, z);
    DeliverBase(w, x, stage, z, order);
    assert w.said.Get(z) + [] == w.said.Get(z);
    var e := w.ends.Get(z);
    AcceptEffect(e, order);
    OpensOne(InitiateMsg(CONTENT));
    OpensMore(w.said.Get(z), InitiateMsg(CONTENT), RemoteMessage(e, w.down.Get(z)[0].msg, order).out);
  }

  lemma AtDeliverTransport(w: World, x: Side, stage: Stage, z: Side, order: seq<string>)
    requires At(w, x, stage) && Enabled(w, Deliver(z, order)) && w.down.Get(z)[0].MessageNotice?
    requires !stage.Initiating? && !stage.Accepting?
    ensures At(Next(w, Deliver(z, order)), x, Settled)
    ensures Incoming(w.ends.Get(z).s, w.down.Get(z)[0].msg, order).ok
  {
    hide Arrives, Logins, Base, Enumerates, Incoming, RemoteMessage, Opens;
    AtMessage(w, x, stage, z);
    DeliverBase(w, x, stage, z, order);
    assert w.said.Get(z) + [] == w.said.Get(z);
    TransportEffect(w.ends.Get(z), w.down.Get(z)[0].msg, order);
  }

  lemma AtDeliverMessage(w: World, x: Side, stage: Stage, z: Side, order: seq<string>)
    requires At(w, x, stage) && Enabled(w, Deliver(z, order)) && w.down.Get(z)[0].MessageNotice?
    ensures At(Next(w, Deliver(z, order)), x, if stage.Initiating? then Answering else Settled)
    ensures Incoming(w.ends.Get(z).s, w.down.Get(z)[0].msg, order).ok
  {
    hide At, Next, Incoming;
    if stage.Initiating? {
      AtDeliverInitiate(w, x, stage, z, order);
    } else if stage.Accepting? {
      AtDeliverAccept(w, x, stage, z, order);
    } else {
      AtDeliverTransport(w, x, stage, z, order);
    }
  }

  lemma OpensOne(m: Message)
    ensures Opens([m], m)
  {
  }

  lemma AtDeliverOther(w: World, x: Side, stage: Stage, z: Side, order: seq<string>)
    requires At(w, x, stage) && Enabled(w, Deliver(z, order)) && !w.down.Get(z)[0].MessageNotice?
    ensures At(Next(w, Deliver(z, order)), x, if w.down.Get(z)[0].LoginNotice? then Called else stage)
  {
    NextArrives(w, Deliver(z, order), A);
    NextArrives(w, Deliver(z, order), B);
    hide Arrives, Enumerates;
    if w.down.Get(z)[0].LoginNotice? {
      assert z == x && stage.Told?;
    }
  }

  // ------------------------------------------------------------------- all runs

  lemma InvNext(w: World, step: Step)
    requires Inv(w) && Enabled(w, step)
    ensures Inv(Next(w, step))
  {
    hide Calm, At, Enumerates;
    if Calm(w) {
      CalmNext(w, step);
    } else {
      var x, stage :| At(w, x, stage);
      AtNext(w, x, stage, step);
    }
  }

  lemma CalmNext(w: World, step: Step)
    requires Calm(w) && Enabled(w, step)
    ensures Inv(Next(w, step))
  {
    hide At, Enumerates, Arrives, Logins;
    match step
    case Connect(z) => CalmConnect(w, z);
    case Serve(z) => CalmServe(w, z);
    case Deliver(z, order) => CalmDeliver(w, z, order);
    case Work(z, order) => assert false;
    case Report(z, _, _) => assert false;
    case Lose(z) => CalmQuiet(w, step);
    case News(z) => CalmQuiet(w, step);
  }

  lemma AtNext(w: World, x: Side, stage: Stage, step: Step)
    requires At(w, x, stage) && Enabled(w, step)
    ensures Inv(Next(w, step))
  {
    hide Mood, Enumerates, Arrives, Logins, OnlySends, Calm, Next;
    match step
    case Connect(z) => assert false;
    case Serve(z) => AtServe(w, x, stage, z);
    case Deliver(z, order) =>
      if w.down.Get(z)[0].MessageNotice? {
        AtDeliverMessage(w, x, stage, z, order);
      } else {
        AtDeliverOther(w, x, stage, z, order);
      }
    case Work(z, order) => AtWork(w, x, stage, z, order);
    case Report(z, proxy, candidates) => AtReport(w, x, stage, z, proxy, candidates);
    case Lose(z) => AtQuiet(w, x, stage, step);
    case News(z) => AtQuiet(w, x, stage, step);
  }

  ghost predicate Run(steps: seq<Step>)
    decreases |steps|, 0
  {
    steps == [] || (var n := |steps| - 1; Run(steps[..n]) && Enabled(After(steps[..n]), steps[n]))
  }

  ghost function After(steps: seq<Step>): World
    requires Run(steps)
    decreases |steps|, 1
  {
    if steps == [] then NEW_WORLD else var n := |steps| - 1; Next(After(steps[..n]), steps[n])
  }

  lemma {:induction false} InvRun(steps: seq<Step>)
    requires Run(steps)
    ensures Inv(After(steps))
  {
    if steps == [] {
      NewCalm();
    } else {
      hide Inv, Next, Enabled;
      InvRun(steps[..|steps| - 1]);
      InvNext(After(steps[..|steps| - 1]), steps[|steps| - 1]);
    }
  }

  lemma NewCalm()
    ensures Calm(NEW_WORLD)
  {
  }

  predicate Says(w: World, x: Side, m: Message) { m in w.said.Get(x) }

  /** The message at the head of the channel to `x` comes at the right time and is not refused. */
  ghost predicate Timely(w: World, x: Side)
  {
    w.down.Get(x) != [] && w.down.Get(x)[0].MessageNotice? ==>
      var m, s := w.down.Get(x)[0].msg, w.ends.Get(x).s;
      && (m.InitiateMsg? ==> s.state.Init?)
      && (m.AcceptMsg? ==> s.state.SentInitiate?)
      && (m.TransportMsg? ==> s.state.SentAccept? || s.state.ReceivedAccept?)
      && forall order :: Enumerates(order, s.unsent.Keys) ==> Incoming(s, m, order).ok
  }

  /** A session that has its accept shares the content name with a session that sent it. */
  ghost predicate Agreed(w: World, x: Side)
  {
    w.ends.Get(x).s.state.ReceivedAccept? ==>
      && Says(w, Other(x), AcceptMsg(w.ends.Get(x).s.content))
      && w.ends.Get(Other(x)).s.state.SentAccept? && w.ends.Get(Other(x)).s.content == w.ends.Get(x).s.content
  }

  /**
    In every run: at most one endpoint ever initiates; no message reaches a session in a
    state that does not expect it; an accept received was sent, for the same content; and
    what an endpoint got is a prefix of what the other said.
  */
  lemma HandshakeSafe(steps: seq<Step>)
    requires Run(steps)
    ensures
      var w := After(steps);
      && (forall c, d :: !(Says(w, A, InitiateMsg(c)) && Says(w, B, InitiateMsg(d))))
      && (forall x :: Timely(w, x) && Agreed(w, x))
      && w.got.a <= w.said.b && w.got.b <= w.said.a
  {
    InvRun(steps);
    var w := After(steps);
    hide Run, After;
    if Calm(w) {
      forall x ensures Timely(w, x) && Agreed(w, x) {
        CalmSafe(w, x);
      }
    } else {
      var x, stage :| At(w, x, stage);
      AtSafe(w, x, stage);
    }
  }

  lemma CalmSafe(w: World, x: Side)
    requires Calm(w)
    ensures Timely(w, x) && Agreed(w, x)
  {
    hide Incoming, Logins;
    if w.down.Get(x) != [] && w.down.Get(x)[0].MessageNotice? {
      HeadSaid(w, x);
    }
  }

  lemma AtSafe(w: World, x: Side, stage: Stage)
    requires At(w, x, stage)
    ensures forall c, d :: !(Says(w, A, InitiateMsg(c)) && Says(w, B, InitiateMsg(d)))
    ensures forall z :: Timely(w, z) && Agreed(w, z)
    ensures w.got.a <= w.said.b && w.got.b <= w.said.a
  {
    GotPrefix(w, A);
    GotPrefix(w, B);
    forall z ensures Timely(w, z) && Agreed(w, z) {
      AtTimely(w, x, stage, z);
    }
    hide Base;
    assert forall d :: !Says(w, Other(x), InitiateMsg(d));
  }

  lemma GotPrefix(w: World, x: Side)
    requires Arrives(w, x)
    ensures w.got.Get(Other(x)) <= w.said.Get(x)
  {
    hide Messages, Asked;
  }

  lemma AtTimely(w: World, x: Side, stage: Stage, z: Side)
    requires At(w, x, stage)
    ensures Timely(w, z) && Agreed(w, z)
  {
    hide Base, Enumerates, Incoming, Next;
    if w.down.Get(z) != [] && w.down.Get(z)[0].MessageNotice? {
      AtMessage(w, x, stage, z);
      forall order | Enumerates(order, w.ends.Get(z).s.unsent.Keys)
        ensures Incoming(w.ends.Get(z).s, w.down.Get(z)[0].msg, order).ok
      {
        AtDeliverMessage(w, x, stage, z, order);
      }
    }
  }
}
