/**
  dialog_server/index.js: the relay that knows who is online.

  `Net` is all the server knows, plus every character it has written to each socket.
  The first part says what each event does to it, with the enumeration order of
  `for (p in peerObjects)` as a parameter; class Server is the script's own code, proved
  to do that. The second part is about whole runs: every client can tell from what was
  written to it exactly who else is online.
*/
module DialogServer {
  import opened Wire
  import opened Orders

  type Sock = nat

  /** peer.pid: null at first, undefined after a login without a name. */
  datatype Pid = Null | Undefined | Named(name: string)

  /** PeerClass; the socket is the key under which it is kept. */
  datatype Peer = Peer(sid: string, pid: Pid, xmlWord: string)

  datatype Net = Net(conns: map<Sock, Peer>, live: set<Sock>, ended: set<Sock>, peers: map<string, Sock>,
      written: map<Sock, string>)

  const NO_NET := Net(map[], {}, {}, map[], map[])

  /** The property name or text that JavaScript makes of a pid. */
  function Key(pid: Pid): string
  {
    match pid
    case Null => "null"
    case Undefined => "undefined"
    case Named(name) => name
  }

  ghost predicate Formed(net: Net)
  {
    && net.conns.Keys == net.written.Keys
    && net.live <= net.conns.Keys
    && forall p :: p in net.peers ==> net.peers[p] in net.conns
  }

  // ---------------------------------------------------------------- events

  function IndexOf(s: string, c: char): (r: int)
    ensures if c in s then 0 <= r < |s| && s[r] == c && c !in s[..r] else r == -1
  {
    if s == "" then -1
    else if s[0] == c then 0
    else
      var r := IndexOf(s[1..], c);
      assert r >= 0 ==> s[..r + 1] == [s[0]] + s[1..][..r];
      if r == -1 then -1 else r + 1
  }

  /** A buffer that has just received its `>`. */
  predicate Ended(word: string) { word != "" && word[|word| - 1] == '>' && '>' !in word[..|word| - 1] }

  lemma EndedIndex(word: string)
    requires Ended(word)
    ensures IndexOf(word, '>') == |word| - 1 && IndexOf(word, '<') < |word| - 1
  {
    assert forall k :: 0 <= k < |word| - 1 ==> word[k] in word[..|word| - 1];
  }

  /** What stands between the first `<`, or the start, and the `>`. */
  function Said(word: string): string
    requires Ended(word)
  {
    EndedIndex(word);
    word[IndexOf(word, '<') + 1..IndexOf(word, '>')]
  }

  function WordAt(ws: seq<string>, k: nat): Pid
  {
    if k < |ws| then Named(ws[k]) else Undefined
  }

  /** A frame whose words are not checked for delimiters: the server pastes text. */
  function OnlineText(net: Net, order: seq<string>): string
    requires forall k :: 0 <= k < |order| ==> order[k] in net.peers && net.peers[order[k]] in net.conns
  {
    if order == [] then ""
    else OnlineText(net, order[..|order| - 1]) + Frame(["online", Key(net.conns[net.peers[order[|order| - 1]]].pid)])
  }

  function Broadcast(written: map<Sock, string>, peers: map<string, Sock>, order: seq<string>,
      xml: string): (r: map<Sock, string>)
    requires forall k :: 0 <= k < |order| ==> order[k] in peers && peers[order[k]] in written
    ensures r.Keys == written.Keys
  {
    if order == [] then written
    else
      var w := Broadcast(written, peers, order[..|order| - 1], xml);
      var c := peers[order[|order| - 1]];
      w[c := w[c] + xml]
  }

  ghost function Login(net: Net, c: Sock, pid: Pid, order: seq<string>): Net
    requires Formed(net) && c in net.conns && Enumerates(order, net.peers.Keys)
  {
    var named := net.(conns := net.conns[c := net.conns[c].(pid := pid)]);
    if Key(pid) in net.peers then named.(ended := net.ended + {c})
    else
      var listed := named.written[c := named.written[c] + OnlineText(named, order)];
      named.(written := Broadcast(listed, named.peers, order, Frame(["login", Key(pid)])),
             peers := named.peers[Key(pid) := c])
  }

  function Relayed(pid: Pid, ws: seq<string>): string
  {
    Frame(["message", Key(pid)] + if |ws| >= 2 then ws[2..] else [])
  }

  ghost function Send(net: Net, c: Sock, ws: seq<string>): Net
    requires Formed(net) && c in net.conns
  {
    var pid, to := net.conns[c].pid, Key(WordAt(ws, 1));
    if !pid.Named? || to !in net.peers then net
    else
      var r := net.peers[to];
      net.(written := net.written[r := net.written[r] + Relayed(pid, ws)])
  }

  /** processDialog */
  ghost function Dialog(net: Net, c: Sock, order: seq<string>): Net
    requires Formed(net) && c in net.conns && Enumerates(order, net.peers.Keys) && Ended(net.conns[c].xmlWord)
  {
    var ws := Split(Said(net.conns[c].xmlWord));
    if ws[0] == "login" then Login(net, c, WordAt(ws, 1), order)
    else if ws[0] == "send" then Send(net, c, ws)
    else net
  }

  function SetWord(net: Net, c: Sock, word: string): Net
    requires c in net.conns
  {
    net.(conns := net.conns[c := net.conns[c].(xmlWord := word)])
  }

  predicate Buffering(net: Net, c: Sock) { c in net.conns && '>' !in net.conns[c].xmlWord }

  lemma DialogFrame(net: Net, c: Sock, order: seq<string>)
    requires Formed(net) && c in net.conns && Enumerates(order, net.peers.Keys) && Ended(net.conns[c].xmlWord)
    ensures
      var r := Dialog(net, c, order);
      && Formed(r) && r.conns.Keys == net.conns.Keys && r.live == net.live
      && (forall d :: d in net.conns ==>
        r.conns[d].sid == net.conns[d].sid && r.conns[d].xmlWord == net.conns[d].xmlWord)
  {
    hide Broadcast, OnlineText, Split, Said, Enumerates, Frame, Relayed;
  }

  /** One character from the socket. */
  ghost function Receive(net: Net, c: Sock, ch: char, order: seq<string>): (r: Net)
    requires Formed(net) && Buffering(net, c) && Enumerates(order, net.peers.Keys)
    ensures Formed(r) && Buffering(r, c) && r.live == net.live && r.conns.Keys == net.conns.Keys
  {
    hide Dialog;
    var got := SetWord(net, c, net.conns[c].xmlWord + [ch]);
    if ch == '>' then
      var done := Dialog(got, c, order);
      DialogFrame(got, c, order);
      SetWord(done, c, "")
    else got
  }

  /** onClose */
  ghost function Close(net: Net, c: Sock, order: seq<string>): Net
    requires Formed(net) && c in net.conns
    requires
      var p := Key(net.conns[c].pid);
      Enumerates(order, net.peers.Keys - {p})
  {
    var p := Key(net.conns[c].pid);
    var gone := net.(live := net.live - {c});
    if p !in net.peers || net.conns[c].sid != net.conns[net.peers[p]].sid then gone
    else
      var peers := map q | q in net.peers && q != p :: net.peers[q];
      gone.(peers := peers, written := Broadcast(net.written, peers, order, Frame(["offline", p])))
  }

  ghost function Accept(net: Net, c: Sock, sid: string): Net
    requires c !in net.conns
  {
    net.(conns := net.conns[c := Peer(sid, Null, "")], live := net.live + {c}, written := net.written[c := ""])
  }

  // ------------------------------------------------------------ the script's code

  class Server {
    var conns: map<Sock, Peer>
    var live: set<Sock>
    var ended: set<Sock>
    var peerObjects: map<string, Sock>
    var written: map<Sock, string>

    function State(): Net
      reads this
    {
      Net(conns, live, ended, peerObjects, written)
    }

    constructor ()
      ensures State() == NO_NET
    {
      conns, live, ended, peerObjects, written := map[], {}, {}, map[], map[];
    }

    method OnAccept(c: Sock, sid: string)
      requires c !in conns
      modifies this
      ensures State() == Accept(old(State()), c, sid)
    {
      conns := conns[c := Peer(sid, Null, "")];
      live := live + {c};
      written := written[c := ""];
    }

    /** The names that `for (p in peerObjects)` visits, in an order that is JavaScript's business. */
    method Properties() returns (order: seq<string>)
      ensures Enumerates(order, peerObjects.Keys)
    {
      order := [];
      var todo := peerObjects.Keys;
      while todo != {}
        invariant todo <= peerObjects.Keys && Enumerates(order, peerObjects.Keys - todo)
      {
        var p :| p in todo;
        EnumeratesMore(order, peerObjects.Keys - todo, p);
        assert peerObjects.Keys - (todo - {p}) == peerObjects.Keys - todo + {p};
        todo := todo - {p};
        order := order + [p];
      }
    }

    method WriteAll(order: seq<string>, xml: string)
      requires forall k :: 0 <= k < |order| ==> order[k] in peerObjects && peerObjects[order[k]] in written
      modifies this`written
      ensures written == Broadcast(old(written), peerObjects, order, xml)
    {
      ghost var was := written;
      assert order[..0] == [];
      for i := 0 to |order|
        invariant written == Broadcast(was, peerObjects, order[..i], xml)
      {
        assert order[..i + 1][..i] == order[..i];
        var c := peerObjects[order[i]];
        written := written[c := written[c] + xml];
      }
      assert order[..|order|] == order;
    }

    method WriteOnline(c: Sock, order: seq<string>)
      requires c in written
      requires forall k :: 0 <= k < |order| ==> order[k] in peerObjects && peerObjects[order[k]] in conns
      modifies this`written
      ensures written == old(written)[c := old(written)[c] + OnlineText(State(), order)]
    {
      hide OnlineText, Frame;
      ghost var was, net := written, State();
      OnlineNone(net);
      assert order[..0] == [] && was[c] + "" == was[c];
      for i := 0 to |order|
        invariant written == was[c := was[c] + OnlineText(net, order[..i])]
      {
        var xml := "<online:" + Key(conns[peerObjects[order[i]]].pid) + ">";
        OnlineOne(net, order[..i], order[i]);
        assert order[..i + 1] == order[..i] + [order[i]];
        assert was[c] + (OnlineText(net, order[..i]) + xml) == was[c] + OnlineText(net, order[..i]) + xml;
        written := written[c := written[c] + xml];
      }
      assert order[..|order|] == order;
      OnlineSame(net, State(), order);
    }

    method DoLogin(c: Sock, pid: Pid) returns (ok: bool, ghost order: seq<string>)
      requires Formed(State()) && c in conns
      modifies this
      ensures Enumerates(order, old(peerObjects.Keys)) && State() == Login(old(State()), c, pid, order)
      ensures ok <==> Key(pid) !in old(peerObjects)
    {
      hide Enumerates, OnlineText, Broadcast, Frame;
      conns := conns[c := conns[c].(pid := pid)];
      var names := Properties();
      order := names;
      EnumeratedIn(names, peerObjects.Keys);
      if Key(pid) in peerObjects {
        ended := ended + {c};
        return false, order;
      }
      ghost var named := State();
      WriteOnline(c, names);
      OnlineSame(State(), named, names);
      OneWord("login", Key(pid));
      assert "<login:" + Key(pid) + ">" == Frame(["login", Key(pid)]);
      WriteAll(names, "<login:" + Key(pid) + ">");
      peerObjects := peerObjects[Key(pid) := c];
      ok := true;
    }

    method DoSend(c: Sock, ws: seq<string>) returns (ok: bool)
      requires Formed(State()) && c in conns && |ws| >= 1
      modifies this
      ensures State() == Send(old(State()), c, ws) && (ok <==> conns[c].pid.Named?)
    {
      hide Colons, Relayed;
      if !conns[c].pid.Named? {
        return false;
      }
      var remote := Key(WordAt(ws, 1));
      if remote in peerObjects {
        var snd := "<message:" + Key(conns[c].pid);
        ghost var head := snd;
        NoColons();
        assert |ws| >= 2 ==> ws[2..2] == [];
        assert head + "" == head;
        var i := 2;
        while i < |ws|
          invariant State() == old(State()) && (i == 2 || i <= |ws|)
          invariant snd == head + Colons(if i <= |ws| then ws[2..i] else [])
        {
          assert ws[2..i + 1] == ws[2..i] + [ws[i]];
          ColonsSnoc(ws[2..i], ws[i]);
          snd := snd + ":" + ws[i];
          i := i + 1;
        }
        assert |ws| >= 2 ==> ws[2..|ws|] == ws[2..];
        snd := snd + ">";
        RelayedText(conns[c].pid, ws);
        var r := peerObjects[remote];
        written := written[r := written[r] + snd];
      }
      ok := true;
    }

    method ProcessDialog(c: Sock) returns (ok: bool, ghost order: seq<string>)
      requires Formed(State()) && c in conns && Ended(conns[c].xmlWord)
      modifies this
      ensures Enumerates(order, old(peerObjects.Keys)) && State() == Dialog(old(State()), c, order)
    {
      hide Enumerates, Split, Login, Send;
      EndedIndex(conns[c].xmlWord);
      var wordBegin := IndexOf(conns[c].xmlWord, '<');
      var wordEnd := IndexOf(conns[c].xmlWord, '>');
      var sentence := conns[c].xmlWord[wordBegin + 1..wordEnd];
      var words := Split(sentence);
      ok := true;
      if words[0] == "login" {
        ok, order := DoLogin(c, WordAt(words, 1));
      } else {
        order := SomeOrder(peerObjects.Keys);
        if words[0] == "send" {
          ok := DoSend(c, words);
        }
      }
    }

    method OnClose(c: Sock) returns (ghost order: seq<string>)
      requires Formed(State()) && c in live
      modifies this
      ensures Enumerates(order, old(peerObjects.Keys - {Key(conns[c].pid)})) && State() == Close(old(State()), c, order)
    {
      hide Enumerates, Broadcast, Frame;
      var p := Key(conns[c].pid);
      ghost var keys := peerObjects.Keys - {p};
      live := live - {c};
      if p in peerObjects && conns[c].sid == conns[peerObjects[p]].sid {
        peerObjects := map q | q in peerObjects && q != p :: peerObjects[q];
        assert peerObjects.Keys == keys;
        var names := Properties();
        order := names;
        EnumeratedIn(names, peerObjects.Keys);
        OneWord("offline", p);
        assert "<offline:" + p + ">" == Frame(["offline", p]);
        WriteAll(names, "<offline:" + p + ">");
      } else {
        order := SomeOrder(keys);
      }
    }

    /** A segment of any size. */
    method OnData(c: Sock, d: string) returns (ghost orders: seq<seq<string>>)
      requires Formed(State()) && Buffering(State(), c)
      modifies this
      ensures Listening(old(State()), c, d, orders) && State() == ReceiveAll(old(State()), c, d, orders)
    {
      hide Enumerates, Dialog, Receive;
      orders := [];
      ghost var was := State();
      for i := 0 to |d|
        invariant Formed(State()) && Buffering(State(), c) && |orders| == i
        invariant Listening(was, c, d[..i], orders) && State() == ReceiveAll(was, c, d[..i], orders)
      {
        ghost var order := OnChar(c, d[i]);
        ReceiveOn(was, c, d[..i], orders, d[i], order);
        assert d[..i + 1] == d[..i] + [d[i]];
        orders := orders + [order];
      }
      assert d[..|d|] == d;
    }

    /** One turn of onData's loop. */
    method OnChar(c: Sock, ch: char) returns (ghost order: seq<string>)
      requires Formed(State()) && Buffering(State(), c)
      modifies this
      ensures Enumerates(order, old(peerObjects.Keys)) && State() == Receive(old(State()), c, ch, order)
    {
      hide Enumerates, Dialog;
      conns := conns[c := conns[c].(xmlWord := conns[c].xmlWord + [ch])];
      if ch == '>' {
        ghost var got := State();
        var ok;
        ok, order := ProcessDialog(c);
        DialogFrame(got, c, order);
        conns := conns[c := conns[c].(xmlWord := "")];
      } else {
        order := SomeOrder(peerObjects.Keys);
      }
    }
  }

  lemma ReceiveOn(net: Net, c: Sock, d: string, orders: seq<seq<string>>, ch: char, order: seq<string>)
    requires Listening(net, c, d, orders) && Enumerates(order, ReceiveAll(net, c, d, orders).peers.Keys)
    ensures Listening(net, c, d + [ch], orders + [order])
    ensures ReceiveAll(net, c, d + [ch], orders + [order]) == Receive(ReceiveAll(net, c, d, orders), c, ch, order)
  {
    hide Enumerates, Receive;
    assert (d + [ch])[..|d|] == d && (orders + [order])[..|d|] == orders;
  }

  /** The last character of a text. */
  lemma ListenLast(net: Net, c: Sock, d: string, ch: char, orders: seq<seq<string>>)
    requires Listening(net, c, d + [ch], orders)
    ensures
      var n := |d|;
      && |orders| == n + 1 && Listening(net, c, d, orders[..n])
      && Enumerates(orders[n], ReceiveAll(net, c, d, orders[..n]).peers.Keys)
      && ReceiveAll(net, c, d + [ch], orders) == Receive(ReceiveAll(net, c, d, orders[..n]), c, ch, orders[n])
  {
    hide Enumerates, Receive, Formed;
    assert (d + [ch])[..|d|] == d;
  }

  ghost predicate Listening(net: Net, c: Sock, d: string, orders: seq<seq<string>>)
    decreases |d|, 0
  {
    && Formed(net) && Buffering(net, c) && |orders| == |d|
    && (d == "" ||
        (var n := |d| - 1;
         && Listening(net, c, d[..n], orders[..n])
         && Enumerates(orders[n], ReceiveAll(net, c, d[..n], orders[..n]).peers.Keys)))
  }

  ghost function ReceiveAll(net: Net, c: Sock, d: string, orders: seq<seq<string>>): (r: Net)
    requires Listening(net, c, d, orders)
    ensures Formed(r) && Buffering(r, c) && r.conns.Keys == net.conns.Keys
    decreases |d|, 1
  {
    if d == "" then net
    else
      var n := |d| - 1;
      Receive(ReceiveAll(net, c, d[..n], orders[..n]), c, d[n], orders[n])
  }

  lemma OneWord(verb: string, w: string)
    ensures Frame([verb, w]) == "<" + verb + ":" + w + ">"
  {
    assert [verb, w][1..] == [w];
    assert Colons([w]) == "" + ":" + w;
  }

  lemma OnlineOne(net: Net, front: seq<string>, p: string)
    requires forall k :: 0 <= k < |front| ==> front[k] in net.peers && net.peers[front[k]] in net.conns
    requires p in net.peers && net.peers[p] in net.conns
    ensures OnlineText(net, front + [p]) ==
      OnlineText(net, front) + ("<online:" + Key(net.conns[net.peers[p]].pid) + ">")
  {
    hide Frame;
    assert (front + [p])[..|front|] == front;
    OnlineFrame(Key(net.conns[net.peers[p]].pid));
  }

  lemma OnlineFrame(name: string)
    ensures Frame(["online", name]) == "<online:" + name + ">"
  {
    hide Frame;
    OneWord("online", name);
    assert "<" + "online" + ":" == "<online:";
  }

  lemma RelayedText(pid: Pid, ws: seq<string>)
    requires |ws| >= 1
    ensures Relayed(pid, ws) == "<message:" + Key(pid) + Colons(if |ws| >= 2 then ws[2..] else []) + ">"
  {
    hide Colons;
    var rest := if |ws| >= 2 then ws[2..] else [];
    var all := ["message", Key(pid)] + rest;
    assert all[1..] == [Key(pid)] + rest;
    ColonsCons(Key(pid), rest);
    assert "<" + ("message" + (":" + Key(pid) + Colons(rest))) + ">" == "<message:" + Key(pid) + Colons(rest) + ">";
  }

  lemma {:induction false} OnlineSame(a: Net, b: Net, order: seq<string>)
    requires a.conns.Keys == b.conns.Keys && a.peers == b.peers
    requires forall k :: 0 <= k < |order| ==> order[k] in a.peers && a.peers[order[k]] in a.conns
    requires forall k :: 0 <= k < |order| ==> a.conns[a.peers[order[k]]].pid == b.conns[b.peers[order[k]]].pid
    ensures OnlineText(a, order) == OnlineText(b, order)
  {
    if order != [] { OnlineSame(a, b, order[..|order| - 1]); }
  }

  // ------------------------------------------------------------------ whole runs

  datatype Event =
    | Accepted(c: Sock, sid: string)
    | Received(c: Sock, ch: char, order: seq<string>)
    | Closed(c: Sock, order: seq<string>)

  ghost predicate Basic(net: Net)
  {
    Formed(net) && forall c :: c in net.conns ==> Buffering(net, c)
  }

  /** Events that can happen at all: any character from any live connection, in any interleaving. */
  ghost predicate Possible(net: Net, e: Event)
    requires Basic(net)
  {
    match e
    case Accepted(c, sid) => c !in net.conns
    case Received(c, ch, order) => c in net.live && Enumerates(order, net.peers.Keys)
    case Closed(c, order) => c in net.live && Enumerates(order, net.peers.Keys - {Key(net.conns[c].pid)})
  }

  ghost function Next(net: Net, e: Event): (r: Net)
    requires Basic(net) && Possible(net, e)
    ensures Basic(r)
  {
    hide Dialog, Enumerates, Broadcast;
    match e
    case Accepted(c, sid) => Accept(net, c, sid)
    case Received(c, ch, order) => ReceiveBasic(net, c, ch, order); Receive(net, c, ch, order)
    case Closed(c, order) => Close(net, c, order)
  }

  lemma ReceiveBasic(net: Net, c: Sock, ch: char, order: seq<string>)
    requires Basic(net) && c in net.live && Enumerates(order, net.peers.Keys)
    ensures Basic(Receive(net, c, ch, order))
  {
    hide Dialog, Enumerates;
    var got := SetWord(net, c, net.conns[c].xmlWord + [ch]);
    if ch == '>' {
      DialogFrame(got, c, order);
    }
  }

  /** The words of the frame that the character completes. */
  function Completed(net: Net, c: Sock): seq<string>
    requires Buffering(net, c)
  {
    Split(Said(net.conns[c].xmlWord + ['>']))
  }

  /**
    What a run must respect: live connections differ in sid, and a connection that is on
    the table does not log in again under another name. A rejected one may try again.
  */
  ghost predicate Orderly(net: Net, e: Event)
    requires Basic(net) && Possible(net, e)
  {
    match e
    case Accepted(c, sid) => forall d :: d in net.live ==> net.conns[d].sid != sid
    case Received(c, ch, order) =>
      ch == '>' && Completed(net, c)[0] == "login" ==> MayLogin(net, c, WordAt(Completed(net, c), 1))
    case Closed(c, order) => true
  }

  predicate MayLogin(net: Net, c: Sock, pid: Pid)
  {
    c !in net.peers.Values || (Key(pid) in net.peers && net.peers[Key(pid)] == c)
  }

  /** A client's idea of who is online, from a frame it was sent. */
  function Note(who: set<string>, ws: seq<string>): set<string>
  {
    if |ws| < 2 then who
    else if ws[0] == "online" || ws[0] == "login" then who + {ws[1]}
    else if ws[0] == "offline" then who - {ws[1]}
    else who
  }

  function Roster(frames: seq<seq<string>>): set<string>
  {
    if frames == [] then {} else Note(Roster(frames[..|frames| - 1]), frames[|frames| - 1])
  }

  const FRESH := Reader("", [])

  /** The text is whole frames of at least two words, and a client that read it has `who` on its list. */
  ghost predicate Tells(text: string, who: set<string>)
  {
    var r := ReadAll(FRESH, text);
    && r.buffer == ""
    && Roster(r.frames) == who
    && forall k :: 0 <= k < |r.frames| ==> |r.frames[k]| >= 2
  }

  ghost predicate Registered(net: Net, p: string)
    requires Formed(net) && p in net.peers
  {
    var c := net.peers[p];
    && c in net.live && !net.conns[c].pid.Null? && Key(net.conns[c].pid) == p
    && Tells(net.written[c], net.peers.Keys - {p})
  }

  predicate Sane(peer: Peer) { '>' !in peer.xmlWord && PlainWord(Key(peer.pid)) }

  ghost predicate Inv(net: Net)
  {
    && Formed(net)
    && (forall c :: c in net.conns ==> Sane(net.conns[c]))
    && (forall c :: c in net.live && c !in net.peers.Values ==> net.written[c] == "")
    && (forall c, d :: c in net.live && d in net.live && c != d ==> net.conns[c].sid != net.conns[d].sid)
    && (forall p :: p in net.peers ==> Registered(net, p))
  }

  lemma TellsMore(text: string, who: set<string>, ws: seq<string>)
    requires Tells(text, who) && |ws| >= 2 && PlainWords(ws)
    ensures Tells(text + Frame(ws), Note(who, ws))
  {
    hide ReadAll, Frame, Roster;
    var r := ReadAll(FRESH, text);
    ReadConcat(FRESH, text, Frame(ws));
    ReadFrame(r, ws);
    RosterSnoc(r.frames, ws);
  }

  lemma RosterSnoc(frames: seq<seq<string>>, ws: seq<string>)
    ensures Roster(frames + [ws]) == Note(Roster(frames), ws)
  {
    assert (frames + [ws])[..|frames|] == frames;
  }

  lemma TellsNothing()
    ensures Tells("", {})
  {
  }

  ghost function Members(order: seq<string>): set<string> { set p | p in order }

  lemma OnlineSnoc(net: Net, front: seq<string>, p: string)
    requires Inv(net) && p in net.peers && forall k :: 0 <= k < |front| ==> front[k] in net.peers
    ensures OnlineText(net, front + [p]) == OnlineText(net, front) + Frame(["online", p]) && PlainWords(["online", p])
  {
    hide Tells, Frame;
    assert (front + [p])[..|front|] == front;
    assert Registered(net, p) && Sane(net.conns[net.peers[p]]);
  }

  /** The list sent at login. */
  lemma {:induction false} TellsOnline(net: Net, order: seq<string>)
    requires Inv(net) && forall k :: 0 <= k < |order| ==> order[k] in net.peers
    ensures Tells(OnlineText(net, order), Members(order))
  {
    hide Tells, OnlineText, Frame, Registered, Sane, PlainWords;
    if order == [] {
      TellsNothing();
      OnlineNone(net);
      assert Members(order) == {};
    } else {
      var front, p := order[..|order| - 1], order[|order| - 1];
      assert order == front + [p];
      OnlineSnoc(net, front, p);
      TellsOnline(net, front);
      TellsMore(OnlineText(net, front), Members(front), ["online", p]);
      assert Members(order) == Members(front) + {p};
    }
  }

  lemma OnlineNone(net: Net)
    ensures OnlineText(net, []) == ""
  {
  }

  /** A broadcast reaches the sockets of the peers listed, once each, and no other. */
  lemma {:induction false} BroadcastReaches(written: map<Sock, string>, peers: map<string, Sock>, order: seq<string>,
      xml: string, c: Sock)
    requires forall k :: 0 <= k < |order| ==> order[k] in peers && peers[order[k]] in written
    requires forall p, q :: p in peers && q in peers && peers[p] == peers[q] ==> p == q
    requires forall j, k :: 0 <= j < k < |order| ==> order[j] != order[k]
    requires c in written
    ensures Broadcast(written, peers, order, xml)[c] ==
            if exists k :: 0 <= k < |order| && peers[order[k]] == c then written[c] + xml else written[c]
  {
    if order != [] {
      var n := |order| - 1;
      BroadcastReaches(written, peers, order[..n], xml, c);
      if peers[order[n]] == c {
        forall k | 0 <= k < n ensures peers[order[..n][k]] != c {
          assert order[k] != order[n];
        }
      } else if exists k :: 0 <= k < |order| && peers[order[k]] == c {
        var k :| 0 <= k < |order| && peers[order[k]] == c;
        assert order[..n][k] == order[k];
      }
    }
  }

  /** With the table enumerated in full: exactly those registered. */
  lemma BroadcastAll(written: map<Sock, string>, peers: map<string, Sock>, order: seq<string>, xml: string, c: Sock)
    requires Enumerates(order, peers.Keys) && forall p :: p in peers ==> peers[p] in written
    requires forall p, q :: p in peers && q in peers && peers[p] == peers[q] ==> p == q
    requires c in written
    ensures forall k :: 0 <= k < |order| ==> order[k] in peers
    ensures Broadcast(written, peers, order, xml)[c] == if c in peers.Values then written[c] + xml else written[c]
  {
    BroadcastReaches(written, peers, order, xml, c);
    hide Broadcast;
    if c in peers.Values {
      var p :| p in peers && peers[p] == c;
      var k :| 0 <= k < |order| && order[k] == p;
      assert peers[order[k]] == c;
    }
  }

  lemma InvAccept(net: Net, c: Sock, sid: string)
    requires Inv(net) && c !in net.conns
    ensures Inv(Accept(net, c, sid)) <==> forall d :: d in net.live ==> net.conns[d].sid != sid
  {
    hide Tells;
    var r := Accept(net, c, sid);
    assert c !in net.peers.Values;
    forall p | p in r.peers ensures Registered(r, p) {
      assert Registered(net, p);
    }
    if Inv(r) {
      forall d | d in net.live ensures net.conns[d].sid != sid {
        assert r.conns[d].sid != r.conns[c].sid;
      }
    }
  }

  lemma InvSetWord(net: Net, c: Sock, word: string)
    requires Inv(net) && c in net.conns && '>' !in word
    ensures Inv(SetWord(net, c, word))
  {
    hide Tells;
    var r := SetWord(net, c, word);
    forall p | p in r.peers ensures Registered(r, p) {
      assert Registered(net, p);
    }
  }

  lemma PeersDiffer(net: Net)
    requires Inv(net)
    ensures forall p, q :: p in net.peers && q in net.peers && net.peers[p] == net.peers[q] ==> p == q
  {
    hide Tells;
    forall p, q | p in net.peers && q in net.peers && net.peers[p] == net.peers[q] ensures p == q {
      assert Registered(net, p) && Registered(net, q);
    }
  }

  /** What a frame with these words does, once it is out of the buffer. */
  ghost function Act(net: Net, c: Sock, ws: seq<string>, order: seq<string>): Net
    requires Formed(net) && c in net.conns && Enumerates(order, net.peers.Keys) && |ws| >= 1
  {
    if ws[0] == "login" then Login(net, c, WordAt(ws, 1), order)
    else if ws[0] == "send" then Send(net, c, ws)
    else net
  }

  /** What the `>` that completes a frame leads to. */
  ghost function Acted(net: Net, c: Sock, order: seq<string>): Net
    requires Formed(net) && Buffering(net, c) && Enumerates(order, net.peers.Keys)
  {
    hide Enumerates, Split, Said;
    Act(SetWord(net, c, ""), c, Completed(net, c), order)
  }

  lemma ReceiveFrame(net: Net, c: Sock, order: seq<string>)
    requires Formed(net) && Buffering(net, c) && Enumerates(order, net.peers.Keys)
    ensures Receive(net, c, '>', order) == Acted(net, c, order)
  {
    hide Split, Said, Login, Send, Enumerates;
    var word := net.conns[c].xmlWord + ['>'];
    var got, clear := SetWord(net, c, word), SetWord(net, c, "");
    var ws := Split(Said(word));
    assert clear == SetWord(got, c, "");
    if ws[0] == "login" {
      LoginAside(got, clear, c, WordAt(ws, 1), order);
    } else if ws[0] == "send" {
      SendAside(got, clear, c, ws);
    }
  }

  lemma SendAside(got: Net, clear: Net, c: Sock, ws: seq<string>)
    requires Formed(got) && c in got.conns && clear == SetWord(got, c, "")
    ensures c in Send(got, c, ws).conns && SetWord(Send(got, c, ws), c, "") == Send(clear, c, ws)
  {
    hide Relayed;
  }

  /** The buffer is no concern of a login. */
  lemma LoginAside(got: Net, clear: Net, c: Sock, pid: Pid, order: seq<string>)
    requires Formed(got) && c in got.conns && Enumerates(order, got.peers.Keys) && clear == SetWord(got, c, "")
    ensures c in Login(got, c, pid, order).conns
    ensures SetWord(Login(got, c, pid, order), c, "") == Login(clear, c, pid, order)
  {
    hide OnlineText, Broadcast, Frame, Enumerates;
    EnumeratedIn(order, got.peers.Keys);
    var a := got.(conns := got.conns[c := got.conns[c].(pid := pid)]);
    var b := clear.(conns := clear.conns[c := clear.conns[c].(pid := pid)]);
    OnlineSame(a, b, order);
  }

  /** A connection that is not on the table logs in under a free name. */
  ghost predicate LogsIn(net: Net, c: Sock, pid: Pid, order: seq<string>)
  {
    && Inv(net) && c in net.live && c !in net.peers.Values && !pid.Null? && PlainWord(Key(pid))
    && Key(pid) !in net.peers && Enumerates(order, net.peers.Keys)
  }

  lemma LoginWrites(net: Net, c: Sock, pid: Pid, order: seq<string>, d: Sock)
    requires LogsIn(net, c, pid, order) && d in net.conns
    ensures forall k :: 0 <= k < |order| ==> order[k] in net.peers
    ensures Login(net, c, pid, order).written[d] ==
      if d == c then OnlineText(net, order)
      else if d in net.peers.Values then net.written[d] + Frame(["login", Key(pid)])
      else net.written[d]
  {
    hide Tells, OnlineText, Broadcast, Frame, PlainWord, Enumerates;
    PeersDiffer(net);
    EnumeratedIn(order, net.peers.Keys);
    var named := net.(conns := net.conns[c := net.conns[c].(pid := pid)]);
    OnlineSame(named, net, order);
    var listed := named.written[c := named.written[c] + OnlineText(named, order)];
    BroadcastAll(listed, net.peers, order, Frame(["login", Key(pid)]), d);
    assert "" + OnlineText(net, order) == OnlineText(net, order);
  }

  lemma LoginOwn(net: Net, c: Sock, pid: Pid, order: seq<string>)
    requires LogsIn(net, c, pid, order)
    ensures Tells(Login(net, c, pid, order).written[c], net.peers.Keys)
  {
    hide Tells, OnlineText, Login, PlainWord, Registered;
    LoginWrites(net, c, pid, order, c);
    TellsOnline(net, order);
    assert Members(order) == net.peers.Keys;
  }

  lemma LoginOther(net: Net, c: Sock, pid: Pid, order: seq<string>, p: string)
    requires LogsIn(net, c, pid, order) && p in net.peers
    ensures Tells(Login(net, c, pid, order).written[net.peers[p]], net.peers.Keys + {Key(pid)} - {p})
  {
    hide Tells, OnlineText, Login, PlainWord, Enumerates, Frame;
    assert Registered(net, p);
    LoginWrites(net, c, pid, order, net.peers[p]);
    PlainPair("login", Key(pid));
    TellsMore(net.written[net.peers[p]], net.peers.Keys - {p}, ["login", Key(pid)]);
    assert net.peers.Keys - {p} + {Key(pid)} == net.peers.Keys + {Key(pid)} - {p};
  }

  lemma PlainPair(verb: string, w: string)
    requires PlainWord(w) && verb in {"login", "offline"}
    ensures PlainWords([verb, w])
  {
  }

  /** A connection that logs in learns who is there, and the others learn of it. */
  lemma InvNewName(net: Net, c: Sock, pid: Pid, order: seq<string>)
    requires LogsIn(net, c, pid, order)
    ensures Inv(Login(net, c, pid, order))
  {
    hide Tells, OnlineText, Broadcast, Frame, PlainWord, Enumerates, Registered;
    var r := Login(net, c, pid, order);
    forall p | p in r.peers ensures Registered(r, p) {
      LoginRegisters(net, c, pid, order, p);
    }
    forall d | d in r.live && d !in r.peers.Values ensures r.written[d] == "" {
      assert r.peers[Key(pid)] == c;
      LoginSilent(net, c, pid, order, d);
    }
  }

  lemma LoginRegisters(net: Net, c: Sock, pid: Pid, order: seq<string>, p: string)
    requires LogsIn(net, c, pid, order) && (p in net.peers || p == Key(pid))
    ensures Formed(Login(net, c, pid, order)) && Registered(Login(net, c, pid, order), p)
  {
    hide Tells, OnlineText, Broadcast, Frame, PlainWord, Enumerates;
    var r := Login(net, c, pid, order);
    if p == Key(pid) {
      LoginOwn(net, c, pid, order);
      assert r.peers.Keys - {p} == net.peers.Keys;
    } else {
      assert Registered(net, p);
      LoginOther(net, c, pid, order, p);
      assert r.peers.Keys == net.peers.Keys + {Key(pid)};
    }
  }

  lemma LoginSilent(net: Net, c: Sock, pid: Pid, order: seq<string>, d: Sock)
    requires LogsIn(net, c, pid, order) && d in net.live && d != c && d !in Login(net, c, pid, order).peers.Values
    ensures Login(net, c, pid, order).written[d] == ""
  {
    hide Tells, OnlineText, Broadcast, Frame, PlainWord, Enumerates;
    var r := Login(net, c, pid, order);
    LoginWrites(net, c, pid, order, d);
    forall p | p in net.peers ensures net.peers[p] != d {
      assert r.peers[p] == net.peers[p];
    }
  }

  /** A login under a taken name leaves the table and the texts alone. */
  lemma InvTakenName(net: Net, c: Sock, pid: Pid, order: seq<string>)
    requires Inv(net) && c in net.live && !pid.Null? && PlainWord(Key(pid)) && Enumerates(order, net.peers.Keys)
    requires Key(pid) in net.peers && MayLogin(net, c, pid)
    ensures Inv(Login(net, c, pid, order))
  {
    hide Tells, OnlineText, Broadcast, Frame, PlainWord, Enumerates;
    var r := Login(net, c, pid, order);
    forall p | p in r.peers ensures Registered(r, p) {
      assert Registered(net, p);
    }
  }

  /** Logging in keeps the invariant exactly when the connection may log in. */
  lemma InvLogin(net: Net, c: Sock, pid: Pid, order: seq<string>)
    requires Inv(net) && c in net.live && !pid.Null? && PlainWord(Key(pid)) && Enumerates(order, net.peers.Keys)
    ensures Inv(Login(net, c, pid, order)) <==> MayLogin(net, c, pid)
  {
    hide Tells, OnlineText, Broadcast, Frame, PlainWord, Enumerates;
    if !MayLogin(net, c, pid) {
      var p :| p in net.peers && net.peers[p] == c;
      assert Registered(net, p);
      assert !Registered(Login(net, c, pid, order), p);
    } else if Key(pid) in net.peers {
      InvTakenName(net, c, pid, order);
    } else {
      InvNewName(net, c, pid, order);
    }
  }

  lemma RelayedPlain(pid: Pid, ws: seq<string>)
    requires PlainWord(Key(pid)) && PlainWords(ws) && |ws| >= 1
    ensures PlainWords(["message", Key(pid)] + if |ws| >= 2 then ws[2..] else [])
  {
  }

  /** A relayed message changes no list. */
  lemma InvSend(net: Net, c: Sock, ws: seq<string>)
    requires Inv(net) && c in net.live && |ws| >= 1 && PlainWords(ws)
    ensures Inv(Send(net, c, ws))
  {
    hide Tells, Frame, PlainWord, PlainWords;
    var pid, to := net.conns[c].pid, Key(WordAt(ws, 1));
    var r := Send(net, c, ws);
    if pid.Named? && to in net.peers {
      assert Sane(net.conns[c]) && Registered(net, to);
      RelayedPlain(pid, ws);
      TellsMore(net.written[net.peers[to]], net.peers.Keys - {to}, ["message", Key(pid)] + if |ws| >= 2 then ws[2..]
        else []);
      PeersDiffer(net);
      forall p | p in r.peers ensures Registered(r, p) {
        assert Registered(net, p);
      }
    }
  }

  /** The connection that owns a name closes. */
  ghost predicate OwnerLeaves(net: Net, c: Sock, order: seq<string>)
  {
    && Inv(net) && c in net.live && Key(net.conns[c].pid) in net.peers && net.peers[Key(net.conns[c].pid)] == c
    && Enumerates(order, net.peers.Keys - {Key(net.conns[c].pid)})
  }

  lemma CloseWrites(net: Net, c: Sock, order: seq<string>, d: Sock)
    requires OwnerLeaves(net, c, order) && d in net.conns
    ensures
      var r := Close(net, c, order);
      && d in r.written
      && r.written[d] == if d in r.peers.Values then net.written[d] + Frame(["offline", Key(net.conns[c].pid)])
        else net.written[d]
  {
    hide Tells, Broadcast, Frame, PlainWord, Enumerates;
    var p, r := Key(net.conns[c].pid), Close(net, c, order);
    assert r.peers.Keys == net.peers.Keys - {p};
    PeersDiffer(net);
    BroadcastAll(net.written, r.peers, order, Frame(["offline", p]), d);
  }

  lemma CloseTells(net: Net, c: Sock, order: seq<string>, q: string)
    requires OwnerLeaves(net, c, order) && q in net.peers && q != Key(net.conns[c].pid)
    ensures Formed(Close(net, c, order)) && q in Close(net, c, order).peers && Registered(Close(net, c, order), q)
  {
    hide Tells, Broadcast, Frame, PlainWord, Enumerates;
    var p, r := Key(net.conns[c].pid), Close(net, c, order);
    assert Registered(net, q) && Sane(net.conns[c]);
    CloseWrites(net, c, order, net.peers[q]);
    assert r.peers[q] == net.peers[q];
    PeersDiffer(net);
    PlainPair("offline", p);
    TellsMore(net.written[net.peers[q]], net.peers.Keys - {q}, ["offline", p]);
    assert net.peers.Keys - {q} - {p} == r.peers.Keys - {q};
  }

  lemma CloseSilent(net: Net, c: Sock, order: seq<string>, d: Sock)
    requires OwnerLeaves(net, c, order) && d in net.live && d != c && d !in Close(net, c, order).peers.Values
    ensures d in Close(net, c, order).written && Close(net, c, order).written[d] == ""
  {
    hide Tells, Broadcast, Frame, PlainWord, Enumerates;
    var r := Close(net, c, order);
    CloseWrites(net, c, order, d);
    forall p | p in net.peers ensures net.peers[p] != d {
      if p in r.peers {
        assert r.peers[p] == net.peers[p];
      }
    }
  }

  lemma InvOwnerLeaves(net: Net, c: Sock, order: seq<string>)
    requires OwnerLeaves(net, c, order)
    ensures Inv(Close(net, c, order))
  {
    hide Tells, Broadcast, Frame, PlainWord, Enumerates;
    var r := Close(net, c, order);
    forall q | q in r.peers ensures Registered(r, q) {
      CloseTells(net, c, order, q);
    }
    forall d | d in r.live && d !in r.peers.Values ensures r.written[d] == "" {
      CloseSilent(net, c, order, d);
    }
  }

  /** Only the owner's close takes a name off the table. */
  lemma InvClose(net: Net, c: Sock, order: seq<string>)
    requires Inv(net) && c in net.live && Enumerates(order, net.peers.Keys - {Key(net.conns[c].pid)})
    ensures Inv(Close(net, c, order))
    ensures Close(net, c, order).peers == map q | q in net.peers && net.peers[q] != c :: net.peers[q]
  {
    hide Tells, Broadcast, Frame, PlainWord, Enumerates;
    var p, r := Key(net.conns[c].pid), Close(net, c, order);
    forall q | q in net.peers ensures net.peers[q] == c ==> q == p {
      assert Registered(net, q);
    }
    if p in net.peers && net.peers[p] == c {
      InvOwnerLeaves(net, c, order);
    } else {
      if p in net.peers {
        assert Registered(net, p);
      }
      forall q | q in r.peers ensures Registered(r, q) {
        assert Registered(net, q);
      }
    }
  }

  lemma InvReceive(net: Net, c: Sock, ch: char, order: seq<string>)
    requires Inv(net) && c in net.live && Buffering(net, c) && Enumerates(order, net.peers.Keys)
    ensures Inv(Receive(net, c, ch, order)) <==>
      (ch == '>' && Completed(net, c)[0] == "login" ==> MayLogin(net, c, WordAt(Completed(net, c), 1)))
  {
    hide Login, Send, Enumerates, Split, Said, Tells, Registered;
    if ch == '>' {
      var ws := Completed(net, c);
      SaidPlain(net.conns[c].xmlWord + [ch]);
      ReceiveFrame(net, c, order);
      InvSetWord(net, c, "");
      NamePlain(ws);
      var clear := SetWord(net, c, "");
      if ws[0] == "login" {
        InvLogin(clear, c, WordAt(ws, 1), order);
      } else if ws[0] == "send" {
        InvSend(clear, c, ws);
      }
    } else {
      InvSetWord(net, c, net.conns[c].xmlWord + [ch]);
    }
  }

  lemma NamePlain(ws: seq<string>)
    requires PlainWords(ws)
    ensures PlainWord(Key(WordAt(ws, 1))) && !WordAt(ws, 1).Null?
  {
  }

  lemma SaidPlain(word: string)
    requires Ended(word)
    ensures PlainWords(Split(Said(word)))
  {
    EndedIndex(word);
    assert forall k :: 0 <= k < |Said(word)| ==> Said(word)[k] in word[..|word| - 1];
    SplitPlain(Said(word));
  }

  /** An event keeps the invariant if and only if it is orderly. */
  lemma InvNext(net: Net, e: Event)
    requires Inv(net) && Basic(net) && Possible(net, e)
    ensures Inv(Next(net, e)) <==> Orderly(net, e)
  {
    hide Inv, Login, Send, Close, Enumerates, Receive;
    match e
    case Accepted(c, sid) => InvAccept(net, c, sid);
    case Received(c, ch, order) => InvReceive(net, c, ch, order);
    case Closed(c, order) => InvClose(net, c, order);
  }

  // ------------------------------------------------------------------- runs

  /** Anything that can happen from the start of the server. */
  ghost predicate Run(events: seq<Event>)
    decreases |events|, 0
  {
    events == [] ||
    (var n := |events| - 1; Run(events[..n]) && Possible(After(events[..n]), events[n]))
  }

  ghost function After(events: seq<Event>): (net: Net)
    requires Run(events)
    ensures Basic(net)
    decreases |events|, 1
  {
    if events == [] then NO_NET else var n := |events| - 1; Next(After(events[..n]), events[n])
  }

  ghost predicate OrderlyRun(events: seq<Event>)
  {
    && Run(events)
    && (events == [] || (var n := |events| - 1; OrderlyRun(events[..n]) && Orderly(After(events[..n]), events[n])))
  }

  /**
    In every orderly run, whatever the interleaving and the cuts: what was written to a
    registered client is whole frames that tell it exactly who else is registered.
  */
  lemma {:induction false} PresenceReplicated(events: seq<Event>)
    requires OrderlyRun(events)
    ensures Inv(After(events))
    ensures
      var net := After(events);
      forall p :: p in net.peers ==> net.peers[p] in net.live && Tells(net.written[net.peers[p]], net.peers.Keys - {p})
  {
    hide Next, Tells, Orderly, Possible;
    var net := After(events);
    if events != [] {
      var n := |events| - 1;
      PresenceReplicated(events[..n]);
      InvNext(After(events[..n]), events[n]);
    }
    forall p | p in net.peers ensures net.peers[p] in net.live &&
      Tells(net.written[net.peers[p]], net.peers.Keys - {p}) {
      assert Registered(net, p);
    }
  }

  /** A connection that logs in again under another name leaves its first name behind when it closes. */
  lemma NameLeftBehind(net: Net, c: Sock, p: string, pid: Pid, order: seq<string>, order': seq<string>)
    requires Inv(net) && p in net.peers && net.peers[p] == c && Key(pid) != p
    requires Enumerates(order, net.peers.Keys)
    requires Formed(Login(net, c, pid, order)) && Enumerates(order', Login(net, c, pid, order).peers.Keys - {Key(pid)})
    ensures
      var r := Close(Login(net, c, pid, order), c, order');
      p in r.peers && r.peers[p] == c && c !in r.live
  {
    hide Tells, OnlineText, Broadcast, Frame, PlainWord, Enumerates;
    var r := Login(net, c, pid, order);
    assert r.conns[c].pid == pid;
  }

  /** The connection that closes bears the name and has the sid of the connection on the table. */
  ghost predicate Releases(net: Net, e: Event, p: string)
    requires Basic(net) && Possible(net, e)
  {
    && p in net.peers && e.Closed? && Key(net.conns[e.c].pid) == p
    && net.conns[e.c].sid == net.conns[net.peers[p]].sid
  }

  /** The only way for a name to leave the table, and what holds of it otherwise. */
  lemma NameLeavesIff(net: Net, e: Event, p: string)
    requires Basic(net) && Possible(net, e) && p in net.peers
    ensures p !in Next(net, e).peers <==> Releases(net, e, p)
    ensures p in Next(net, e).peers ==> Next(net, e).peers[p] == net.peers[p]
  {
    hide Enumerates, Frame, Broadcast, OnlineText, Relayed, Said, Split;
  }

  /** In every run, orderly or not: a name on the table stays until a connection of that name and sid closes. */
  lemma {:induction false} NameStays(events: seq<Event>, k: nat, p: string)
    requires Run(events) && k <= |events| && Run(events[..k]) && p in After(events[..k]).peers
    requires forall j :: k <= j < |events| && Run(events[..j]) && Possible(After(events[..j]), events[j]) ==>
      !Releases(After(events[..j]), events[j], p)
    ensures p in After(events).peers && After(events).peers[p] == After(events[..k]).peers[p]
  {
    hide Next, Releases, Basic, Possible;
    if k == |events| {
      assert events[..k] == events;
    } else {
      var n := |events| - 1;
      var front := events[..n];
      assert front[..k] == events[..k];
      assert forall j :: 0 <= j < n ==> front[..j] == events[..j];
      NameStays(front, k, p);
      NameLeavesIff(After(front), events[n], p);
    }
  }

  /** A run in which that happens: one connection logs in as x, then as y, and closes. */
  lemma NameLeftExample(c: Sock, sid: string)
    ensures
      var x, y := Named("x"), Named("y");
      var one := Accept(NO_NET, c, sid);
      && Formed(one) && Enumerates([], one.peers.Keys)
      && var two := Login(one, c, x, []);
      && Formed(two) && Enumerates(["x"], two.peers.Keys)
      && var three := Login(two, c, y, ["x"]);
      && Formed(three) && c in three.conns && Enumerates(["x"], three.peers.Keys - {"y"})
      && Key(three.conns[c].pid) == "y"
      && var end := Close(three, c, ["x"]);
      end.live == {} && "x" in end.peers && "y" !in end.peers
  {
    hide Tells, OnlineText, Broadcast, Frame;
    var one := Accept(NO_NET, c, sid);
    var two := Login(one, c, Named("x"), []);
    assert two.peers.Keys == {"x"};
    var three := Login(two, c, Named("y"), ["x"]);
    assert three.peers.Keys - {"y"} == {"x"};
    assert "x" != "y";
  }
}
