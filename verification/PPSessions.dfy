/**
  ppsession.cpp: the session state machine and its candidate queues.

  `Session` is the state; the functions say what each call does and what it sends, and
  class PPSession is the source's code, proved to do that. `Ledger` adds what was ever
  reported and sent: over every sequence of calls each candidate is sent exactly once and
  in order, whether it went out directly or through a queue.
*/
module PPSessions {
  import opened Candidates
  import opened Orders

  datatype State =
    | Init | SentInitiate | ReceivedInitiate | SentAccept | ReceivedAccept | ReceivedModify
    | SentReject | ReceivedReject | SentTerminate | ReceivedTerminate

  /** PPMessage with its arguments; Transport's are those of Candidates.TransportMessage. */
  datatype Message =
    | InitiateMsg(content: string)
    | AcceptMsg(content: string)
    | RejectMsg
    | TerminateMsg
    | InfoMsg
    | TransportMsg(content: string, candidates: seq<Candidate>)

  predicate Portable(m: Message) { m.TransportMsg? ==> Ports(m.candidates) }

  /** The PPMessage that carries a message; a TransportMsg as SendTransportInfoMessage writes it. */
  function ToWire(m: Message): PPMessage
    requires Portable(m)
  {
    match m
    case InitiateMsg(content) => PPMessage(Initiate, [content])
    case AcceptMsg(content) => PPMessage(AcceptIt, [content])
    case RejectMsg => PPMessage(Reject, [])
    case TerminateMsg => PPMessage(Terminate, [])
    case InfoMsg => PPMessage(Info, [])
    case TransportMsg(content, candidates) => PPMessage(TransportInfo, [content] + Fields(candidates))
  }

  /** The kinds whose handlers take their first argument for granted. */
  predicate Headed(kind: Kind) { kind.Initiate? || kind.AcceptIt? || kind.TransportInfo? }

  /** What OnIncomingMessage reads in a PPMessage; candidates as OnTransportInfoMessage parses them. */
  function FromWire(msg: PPMessage): Message
    requires Headed(msg.kind) ==> msg.argvs != []
  {
    match msg.kind
    case Initiate => InitiateMsg(msg.argvs[0])
    case AcceptIt => AcceptMsg(msg.argvs[0])
    case Reject => RejectMsg
    case Terminate => TerminateMsg
    case Info => InfoMsg
    case TransportInfo => TransportMsg(msg.argvs[0], Decoded(msg.argvs))
  }

  /** A message arrives as it was sent. */
  lemma WireRoundTrip(m: Message)
    requires Portable(m)
    ensures
      var msg := ToWire(m);
      (Headed(msg.kind) ==> msg.argvs != []) && FromWire(msg) == m
  {
    hide Fields, Decoded;
    if m.TransportMsg? {
      StrideRoundTrip(m.content, m.candidates);
    }
  }

  /** `unsent` has a queue for each transport proxy, under its content name. */
  datatype Session = Session(state: State, content: string, pending: bool, unsent: map<string, seq<Candidate>>)

  /** What a call makes of the session, what it sends, and what it returns. */
  datatype Outcome = Outcome(s: Session, sent: seq<Message>, ok: bool)

  function Created(s: Session, content: string): Session
  {
    s.(pending := true, unsent := if content in s.unsent then s.unsent else s.unsent[content := []])
  }

  function Initiated(s: Session, content: string): Outcome
  {
    if !s.state.Init? then Outcome(s, [], false)
    else Outcome(Created(s.(content := content), content).(state := SentInitiate), [InitiateMsg(content)], true)
  }

  /** The messages that empty the queues listed. */
  function Flush(unsent: map<string, seq<Candidate>>, order: seq<string>): seq<Message>
    requires forall k :: 0 <= k < |order| ==> order[k] in unsent
  {
    if order == [] then []
    else
      var n := order[|order| - 1];
      Flush(unsent, order[..|order| - 1]) + if unsent[n] == [] then [] else [TransportMsg(n, unsent[n])]
  }

  function Emptied(unsent: map<string, seq<Candidate>>): map<string, seq<Candidate>>
  {
    map n | n in unsent :: []
  }

  ghost function Accepted(s: Session, order: seq<string>): Outcome
    requires Enumerates(order, s.unsent.Keys)
  {
    if !s.state.ReceivedInitiate? then Outcome(s, [], false)
    else Outcome(s.(state := SentAccept, pending := false, unsent := Emptied(s.unsent)),
                 [AcceptMsg(s.content)] + Flush(s.unsent, order), true)
  }

  function Rejected(s: Session): Outcome
  {
    if !s.state.ReceivedInitiate? && !s.state.ReceivedModify? then Outcome(s, [], false)
    else Outcome(s.(state := SentReject), [RejectMsg], true)
  }

  function Terminated(s: Session): Outcome
  {
    match s.state
    case SentTerminate => Outcome(s, [], false)
    case ReceivedTerminate => Outcome(s, [], false)
    case SentReject => Outcome(s.(state := SentTerminate), [], true)
    case ReceivedReject => Outcome(s.(state := SentTerminate), [], true)
    case _ => Outcome(s.(state := SentTerminate), [TerminateMsg], true)
  }

  /** OnTransportCandidatesReady for the proxy `content`. */
  function Ready(s: Session, content: string, candidates: seq<Candidate>): Outcome
  {
    if content !in s.unsent then Outcome(s, [], true)
    else if s.pending then Outcome(s.(unsent := s.unsent[content := s.unsent[content] + candidates]), [], true)
    else Outcome(s, [TransportMsg(content, candidates)], true)
  }

  /** OnIncomingMessage; `ok` is its `valid`. */
  ghost function Incoming(s: Session, msg: Message, order: seq<string>): Outcome
    requires Enumerates(order, s.unsent.Keys)
  {
    match msg
    case InitiateMsg(content) =>
      if !s.state.Init? then Outcome(s, [], false)
      else Outcome(Created(s.(content := content), content).(state := ReceivedInitiate), [], true)
    case AcceptMsg(content) =>
      if !s.state.SentInitiate? then Outcome(s, [], false)
      else Outcome(s.(state := ReceivedAccept, pending := false, unsent := Emptied(s.unsent)),
                   Flush(s.unsent, order), content in s.unsent)
    case RejectMsg => if !s.state.SentInitiate? then Outcome(s, [], false)
      else Outcome(s.(state := ReceivedReject), [], true)
    case TerminateMsg => Outcome(s.(state := ReceivedTerminate), [], true)
    case InfoMsg => Outcome(s, [], true)
    case TransportMsg(content, candidates) => Outcome(s, [], content in s.unsent)
  }

  // ------------------------------------------------------------ the source's code

  /** The queues while the loop that empties them has `todo` still to do. */
  ghost predicate Drained(was: map<string, seq<Candidate>>, todo: set<string>, now: map<string, seq<Candidate>>)
  {
    now.Keys == was.Keys && forall n :: n in was ==> now[n] == if n in todo then was[n] else []
  }

  lemma DrainNone(was: map<string, seq<Candidate>>)
    ensures Drained(was, was.Keys, was)
  {
  }

  lemma DrainOne(was: map<string, seq<Candidate>>, todo: set<string>, now: map<string, seq<Candidate>>, n: string)
    requires Drained(was, todo, now) && n in todo && n in was
    ensures n in now && now[n] == was[n] && Drained(was, todo - {n}, now[n := []])
  {
  }

  lemma DrainAll(was: map<string, seq<Candidate>>, now: map<string, seq<Candidate>>)
    requires Drained(was, {}, now)
    ensures now == Emptied(was)
  {
  }

  class PPSession {
    var state: State
    var contentName: string
    var pendingCandidates: bool
    var unsent: map<string, seq<Candidate>>              // transport_proxies and their queues
    var outgoing: seq<Message>                           // SignalOutgoingMessage
    var remote: seq<(string, seq<Candidate>)>            // handed to the transports

    function S(): Session
      reads this
    {
      Session(state, contentName, pendingCandidates, unsent)
    }

    constructor ()
      ensures S() == Session(Init, "", false, map[]) && outgoing == [] && remote == []
    {
      state, contentName, pendingCandidates, unsent, outgoing, remote := Init, "", false, map[], [], [];
    }

    method CreateTransportProxies(content: string)
      modifies this`pendingCandidates, this`unsent
      ensures S() == Created(old(S()), content)
    {
      pendingCandidates := true;
      if content !in unsent {
        unsent := unsent[content := []];
      }
    }

    method Initiate(content: string) returns (ok: bool)
      modifies this
      ensures old(outgoing) <= outgoing && remote == old(remote)
      ensures Outcome(S(), outgoing[|old(outgoing)|..], ok) == Initiated(old(S()), content)
    {
      if state != Init {
        return false;
      }
      contentName := content;
      CreateTransportProxies(content);
      outgoing := outgoing + [InitiateMsg(content)];
      state := SentInitiate;
      return true;
    }

    method SendUnsent(n: string)
      requires n in unsent
      modifies this`unsent, this`outgoing
      ensures unsent == old(unsent)[n := []]
      ensures outgoing == old(outgoing) + if old(unsent)[n] == [] then [] else [TransportMsg(n, old(unsent)[n])]
    {
      if |unsent[n]| > 0 {
        outgoing := outgoing + [TransportMsg(n, unsent[n])];
        unsent := unsent[n := []];
      }
    }

    method SendAllUnsentTransportInfoMessages() returns (ghost order: seq<string>)
      modifies this`pendingCandidates, this`unsent, this`outgoing
      ensures Enumerates(order, old(unsent.Keys))
      ensures outgoing == old(outgoing) + Flush(old(unsent), order)
      ensures S() == old(S()).(pending := false, unsent := Emptied(old(unsent)))
    {
      hide Enumerates, Flush, Drained;
      pendingCandidates := false;
      order := [];
      ghost var was, out := unsent, outgoing;
      EnumeratesNone<string>();
      FlushNone(was);
      DrainNone(was);
      var todo := unsent.Keys;
      assert was.Keys - todo == {};
      while todo != {}
        invariant todo <= was.Keys == unsent.Keys && Enumerates(order, was.Keys - todo)
        invariant forall k :: 0 <= k < |order| ==> order[k] in was
        invariant outgoing == out + Flush(was, order)
        invariant Drained(was, todo, unsent)
        invariant state == old(state) && contentName == old(contentName) && !pendingCandidates
      {
        var n :| n in todo;
        DrainOne(was, todo, unsent, n);
        EnumeratesMore(order, was.Keys - todo, n);
        assert was.Keys - (todo - {n}) == was.Keys - todo + {n};
        FlushMore(was, order, n);
        SendUnsent(n);
        todo := todo - {n};
        order := order + [n];
      }
      assert was.Keys - todo == was.Keys;
      DrainAll(was, unsent);
    }

    method Accept() returns (ok: bool, ghost order: seq<string>)
      modifies this
      ensures Enumerates(order, old(unsent.Keys))
      ensures old(outgoing) <= outgoing && remote == old(remote)
      ensures Outcome(S(), outgoing[|old(outgoing)|..], ok) == Accepted(old(S()), order)
    {
      hide Enumerates, Flush, Emptied;
      if state != ReceivedInitiate {
        order := SomeOrder(unsent.Keys);
        return false, order;
      }
      outgoing := outgoing + [AcceptMsg(contentName)];
      state := SentAccept;
      order := SendAllUnsentTransportInfoMessages();
      ok := true;
      EnumeratedIn(order, old(unsent.Keys));
      assert outgoing == old(outgoing) + ([AcceptMsg(contentName)] + Flush(old(unsent), order));
    }

    method Reject() returns (ok: bool)
      modifies this
      ensures old(outgoing) <= outgoing && remote == old(remote)
      ensures Outcome(S(), outgoing[|old(outgoing)|..], ok) == Rejected(old(S()))
    {
      if state != ReceivedInitiate && state != ReceivedModify {
        return false;
      }
      outgoing := outgoing + [RejectMsg];
      state := SentReject;
      return true;
    }

    method TerminateWithReason() returns (ok: bool)
      modifies this
      ensures old(outgoing) <= outgoing && remote == old(remote)
      ensures Outcome(S(), outgoing[|old(outgoing)|..], ok) == Terminated(old(S()))
    {
      if state == SentTerminate || state == ReceivedTerminate {
        return false;
      }
      if state != SentReject && state != ReceivedReject {
        outgoing := outgoing + [TerminateMsg];
      }
      state := SentTerminate;
      return true;
    }

    method OnTransportCandidatesReady(content: string, candidates: seq<Candidate>)
      modifies this
      ensures old(outgoing) <= outgoing && remote == old(remote)
      ensures Outcome(S(), outgoing[|old(outgoing)|..], true) == Ready(old(S()), content, candidates)
    {
      if content in unsent {
        if pendingCandidates {
          unsent := unsent[content := unsent[content] + candidates];
        } else {
          outgoing := outgoing + [TransportMsg(content, candidates)];
        }
      }
    }

    /** Candidates go to the transport of their content, if there is one. */
    method OnRemoteCandidates(content: string, candidates: seq<Candidate>) returns (ok: bool)
      modifies this`remote
      ensures ok == (content in unsent)
      ensures remote == old(remote) + if ok then [(content, candidates)] else []
    {
      if content !in unsent {
        return false;
      }
      remote := remote + [(content, candidates)];
      return true;
    }

    method OnInitiateMessage(content: string) returns (ok: bool)
      modifies this
      ensures S() == (if old(state).Init? then
        Created(old(S()).(content := content), content).(state := ReceivedInitiate) else old(S()))
      ensures ok == old(state).Init? && outgoing == old(outgoing)
      ensures remote == old(remote) + if ok then [(content, [])] else []
    {
      if state != Init {
        return false;
      }
      contentName := content;
      CreateTransportProxies(content);
      state := ReceivedInitiate;
      ok := OnRemoteCandidates(content, []);
    }

    method OnAcceptMessage(content: string) returns (ok: bool, ghost order: seq<string>)
      modifies this
      ensures Enumerates(order, old(unsent.Keys))
      ensures old(outgoing) <= outgoing
      ensures Outcome(S(), outgoing[|old(outgoing)|..], ok) == Incoming(old(S()), AcceptMsg(content), order)
      ensures remote == old(remote) + if ok then [(content, [])] else []
    {
      hide Enumerates, Flush;
      if state != SentInitiate {
        order := SomeOrder(unsent.Keys);
        return false, order;
      }
      order := SendAllUnsentTransportInfoMessages();
      state := ReceivedAccept;
      ok := OnRemoteCandidates(content, []);
    }

    method OnIncomingMessage(msg: Message) returns (valid: bool, ghost order: seq<string>)
      modifies this
      ensures Enumerates(order, old(unsent.Keys))
      ensures old(outgoing) <= outgoing
      ensures Outcome(S(), outgoing[|old(outgoing)|..], valid) == Incoming(old(S()), msg, order)
      ensures remote == old(remote) +
        match msg
        case TransportMsg(content, candidates) => if valid then [(content, candidates)] else []
        case InitiateMsg(content) => if valid then [(content, [])] else []
        case AcceptMsg(content) => if valid then [(content, [])] else []
        case _ => []
    {
      hide Enumerates, Flush, Emptied;
      order := SomeOrder(unsent.Keys);
      valid := true;
      match msg
      case InitiateMsg(content) => valid := OnInitiateMessage(content);
      case AcceptMsg(content) => valid, order := OnAcceptMessage(content);
      case RejectMsg =>
        valid := state == SentInitiate;
        if valid { state := ReceivedReject; }
      case TerminateMsg => state := ReceivedTerminate;
      case InfoMsg =>
      case TransportMsg(content, candidates) => valid := OnRemoteCandidates(content, candidates);
    }
  }

  lemma FlushNone(unsent: map<string, seq<Candidate>>)
    ensures Flush(unsent, []) == []
  {
  }

  lemma FlushMore(unsent: map<string, seq<Candidate>>, order: seq<string>, n: string)
    requires n in unsent && forall k :: 0 <= k < |order| ==> order[k] in unsent
    ensures Flush(unsent, order + [n]) == Flush(unsent, order) + if unsent[n] == [] then []
      else [TransportMsg(n, unsent[n])]
  {
    assert (order + [n])[..|order|] == order;
  }

  // -------------------------------------------------------------- exactly once

  datatype Call =
    | Initiates(content: string)
    | Accepts(order: seq<string>)
    | Rejects
    | Terminates
    | Reports(proxy: string, candidates: seq<Candidate>)
    | Receives(msg: Message, order: seq<string>)

  /** A session with everything it ever sent, and the candidates its proxies ever reported. */
  datatype Ledger = Ledger(s: Session, sent: seq<Message>, reported: seq<(string, seq<Candidate>)>)

  /** A session just created, with channels, and so proxies, for these contents. */
  function NewLedger(names: set<string>): Ledger { Ledger(Session(Init, "", false, map n | n in names :: []), [], []) }

  /** Transports report only once the session has created their proxies; all else may come at any time. */
  ghost predicate Allowed(l: Ledger, call: Call)
  {
    match call
    case Accepts(order) => Enumerates(order, l.s.unsent.Keys)
    case Receives(_, order) => Enumerates(order, l.s.unsent.Keys)
    case Reports(_, _) => !l.s.state.Init?
    case _ => true
  }

  ghost function Called(l: Ledger, call: Call): Outcome
    requires Allowed(l, call)
  {
    match call
    case Initiates(content) => Initiated(l.s, content)
    case Accepts(order) => Accepted(l.s, order)
    case Rejects => Rejected(l.s)
    case Terminates => Terminated(l.s)
    case Reports(proxy, candidates) => Ready(l.s, proxy, candidates)
    case Receives(msg, order) => Incoming(l.s, msg, order)
  }

  ghost function Play(l: Ledger, call: Call): Ledger
    requires Allowed(l, call)
  {
    var o := Called(l, call);
    Ledger(o.s, l.sent + o.sent,
           if call.Reports? && call.proxy in l.s.unsent then l.reported + [(call.proxy, call.candidates)]
             else l.reported)
  }

  function SentFor(sent: seq<Message>, content: string): seq<Candidate>
  {
    if sent == [] then []
    else
      var m := sent[|sent| - 1];
      SentFor(sent[..|sent| - 1], content) + if m.TransportMsg? && m.content == content then m.candidates else []
  }

  function ReportedFor(reported: seq<(string, seq<Candidate>)>, content: string): seq<Candidate>
  {
    if reported == [] then []
    else
      var r := reported[|reported| - 1];
      ReportedFor(reported[..|reported| - 1], content) + if r.0 == content then r.1 else []
  }

  predicate NoTransport(sent: seq<Message>) { forall k :: 0 <= k < |sent| ==> !sent[k].TransportMsg? }

  function Queue(s: Session, content: string): seq<Candidate>
  {
    if content in s.unsent then s.unsent[content] else []
  }

  /** Sent and queued, in this order, is exactly what was reported. */
  ghost predicate Conserved(l: Ledger)
  {
    forall content :: ReportedFor(l.reported, content) == SentFor(l.sent, content) + Queue(l.s, content)
  }

  /** Between initiate and accept candidates wait; after accept, and before initiate, no queue holds any. */
  ghost predicate Phased(l: Ledger)
  {
    && (!l.s.pending ==> forall content :: content in l.s.unsent ==> l.s.unsent[content] == [])
    && (l.s.state.Init? ==> !l.s.pending && NoTransport(l.sent))
    && (l.s.state.SentInitiate? || l.s.state.ReceivedInitiate? ==> l.s.pending && NoTransport(l.sent))
    && (l.s.state.SentAccept? || l.s.state.ReceivedAccept? ==> !l.s.pending)
  }

  lemma {:induction false} SentConcat(a: seq<Message>, b: seq<Message>, content: string)
    ensures SentFor(a + b, content) == SentFor(a, content) + SentFor(b, content)
  {
    hide SentFor;
    if b == [] {
      assert a + b == a;
      SentNone(content);
    } else {
      var front, last := b[..|b| - 1], b[|b| - 1];
      SentConcat(a, front, content);
      assert a + b == (a + front) + [last] && b == front + [last];
      SentSnoc(a + front, last, content);
      SentSnoc(front, last, content);
    }
  }

  lemma SentSnoc(front: seq<Message>, m: Message, content: string)
    ensures SentFor(front + [m], content) ==
      SentFor(front, content) + if m.TransportMsg? && m.content == content then m.candidates else []
  {
    assert (front + [m])[..|front|] == front;
  }

  lemma SentOne(m: Message, content: string)
    ensures SentFor([m], content) == if m.TransportMsg? && m.content == content then m.candidates else []
  {
    assert [m][..0] == [];
    assert SentFor([], content) == [];
  }

  lemma ReportedMore(reported: seq<(string, seq<Candidate>)>, r: (string, seq<Candidate>), content: string)
    ensures ReportedFor(reported + [r], content) == ReportedFor(reported, content) + if r.0 == content then r.1 else []
  {
    assert (reported + [r])[..|reported|] == reported;
  }

  /** Flushing sends each listed queue once. */
  lemma {:induction false} FlushSends(unsent: map<string, seq<Candidate>>, order: seq<string>, content: string)
    requires forall k :: 0 <= k < |order| ==> order[k] in unsent
    requires forall j, k :: 0 <= j < k < |order| ==> order[j] != order[k]
    ensures SentFor(Flush(unsent, order), content) == if content in order then unsent[content] else []
  {
    hide SentFor;
    if order == [] {
      assert SentFor([], content) == [] by { SentNone(content); }
    } else {
      var front, n := order[..|order| - 1], order[|order| - 1];
      FlushSends(unsent, front, content);
      assert order == front + [n];
      if unsent[n] == [] {
        assert Flush(unsent, order) == Flush(unsent, front);
      } else {
        SentConcat(Flush(unsent, front), [TransportMsg(n, unsent[n])], content);
        SentOne(TransportMsg(n, unsent[n]), content);
      }
    }
  }

  lemma SentNone(content: string)
    ensures SentFor([], content) == []
  {
  }

  /** What a call sends, and takes off or puts on the queues, balances. */
  ghost predicate Balances(l: Ledger, call: Call, content: string)
    requires Allowed(l, call)
  {
    var o := Called(l, call);
    SentFor(o.sent, content) + Queue(o.s, content) ==
    Queue(l.s, content) +
    if call.Reports? && call.proxy in l.s.unsent && call.proxy == content then call.candidates else []
  }

  lemma AcceptBalances(l: Ledger, order: seq<string>, content: string)
    requires Allowed(l, Accepts(order)) && Phased(l)
    ensures Balances(l, Accepts(order), content)
  {
    hide SentFor, Flush, NoTransport;
    SentNone(content);
    FlushSends(l.s.unsent, order, content);
    SentOne(AcceptMsg(l.s.content), content);
    SentConcat([AcceptMsg(l.s.content)], Flush(l.s.unsent, order), content);
  }

  lemma ReportBalances(l: Ledger, proxy: string, candidates: seq<Candidate>, content: string)
    requires Allowed(l, Reports(proxy, candidates)) && Phased(l)
    ensures Balances(l, Reports(proxy, candidates), content)
  {
    hide SentFor, Flush, NoTransport;
    SentNone(content);
    SentOne(TransportMsg(proxy, candidates), content);
  }

  lemma ReceiveBalances(l: Ledger, msg: Message, order: seq<string>, content: string)
    requires Allowed(l, Receives(msg, order)) && Phased(l)
    ensures Balances(l, Receives(msg, order), content)
  {
    hide SentFor, Flush, NoTransport;
    SentNone(content);
    FlushSends(l.s.unsent, order, content);
  }

  lemma CallBalances(l: Ledger, call: Call, content: string)
    requires Allowed(l, call) && Phased(l)
    ensures Balances(l, call, content)
  {
    hide SentFor, NoTransport;
    SentNone(content);
    match call
    case Initiates(c) => SentOne(InitiateMsg(c), content);
    case Rejects => SentOne(RejectMsg, content);
    case Terminates => SentOne(TerminateMsg, content);
    case Accepts(order) => hide Balances; AcceptBalances(l, order, content);
    case Reports(proxy, candidates) => hide Balances; ReportBalances(l, proxy, candidates, content);
    case Receives(msg, order) => hide Balances; ReceiveBalances(l, msg, order, content);
  }

  lemma Rebalance(sent: seq<Candidate>, now: seq<Candidate>, queue': seq<Candidate>, queue: seq<Candidate>,
      x: seq<Candidate>)
    requires now + queue' == queue + x
    ensures (sent + now) + queue' == (sent + queue) + x
  {
    assert (sent + now) + queue' == sent + (now + queue');
    assert (sent + queue) + x == sent + (queue + x);
  }

  lemma PlayConserves(l: Ledger, call: Call)
    requires Allowed(l, call) && Phased(l) && Conserved(l)
    ensures Conserved(Play(l, call))
  {
    hide SentFor, ReportedFor, Called, Queue, Phased, Allowed;
    var o, r := Called(l, call), Play(l, call);
    forall content ensures ReportedFor(r.reported, content) == SentFor(r.sent, content) + Queue(r.s, content) {
      CallBalances(l, call, content);
      SentConcat(l.sent, o.sent, content);
      var x := if call.Reports? && call.proxy in l.s.unsent && call.proxy == content then call.candidates else [];
      if call.Reports? {
        ReportedMore(l.reported, (call.proxy, call.candidates), content);
      }
      assert ReportedFor(r.reported, content) == ReportedFor(l.reported, content) + x;
      Rebalance(SentFor(l.sent, content), SentFor(o.sent, content), Queue(o.s, content), Queue(l.s, content), x);
    }
  }

  lemma PlayPhased(l: Ledger, call: Call)
    requires Allowed(l, call) && Phased(l)
    ensures Phased(Play(l, call))
  {
    hide Flush, Enumerates;
  }

  ghost predicate Calls(names: set<string>, calls: seq<Call>)
    decreases |calls|, 0
  {
    calls == [] || (var n := |calls| - 1; Calls(names, calls[..n]) && Allowed(AfterCalls(names, calls[..n]), calls[n]))
  }

  ghost function AfterCalls(names: set<string>, calls: seq<Call>): Ledger
    requires Calls(names, calls)
    decreases |calls|, 1
  {
    if calls == [] then NewLedger(names) else var n := |calls| - 1; Play(AfterCalls(names, calls[..n]), calls[n])
  }

  /**
    Over every sequence of calls: each candidate is sent exactly once and in order or
    still waits; none goes out between initiate and accept; after accept none waits.
  */
  lemma {:induction false} ExactlyOnce(names: set<string>, calls: seq<Call>)
    requires Calls(names, calls)
    ensures Conserved(AfterCalls(names, calls)) && Phased(AfterCalls(names, calls))
    ensures
      var l := AfterCalls(names, calls);
      l.s.state.SentAccept? || l.s.state.ReceivedAccept? ==>
        forall content :: SentFor(l.sent, content) == ReportedFor(l.reported, content)
  {
    if calls == [] {
      NewConserved(names);
    } else {
      hide Conserved, Phased, Play, Allowed;
      var n := |calls| - 1;
      ExactlyOnce(names, calls[..n]);
      PlayConserves(AfterCalls(names, calls[..n]), calls[n]);
      PlayPhased(AfterCalls(names, calls[..n]), calls[n]);
    }
    AllSent(AfterCalls(names, calls));
  }

  lemma NewConserved(names: set<string>)
    ensures Conserved(NewLedger(names)) && Phased(NewLedger(names))
  {
  }

  lemma AllSent(l: Ledger)
    requires Conserved(l) && Phased(l)
    ensures !l.s.pending ==> forall content :: SentFor(l.sent, content) == ReportedFor(l.reported, content)
    ensures l.s.state.SentAccept? || l.s.state.ReceivedAccept? ==> !l.s.pending
  {
    hide SentFor, ReportedFor, NoTransport;
    if !l.s.pending {
      forall content ensures SentFor(l.sent, content) == ReportedFor(l.reported, content) {
        assert Queue(l.s, content) == [];
      }
    }
  }
}
