/**
  peer.cpp: the client's end of the wire. It frames outgoing messages and turns what the
  server writes into signals.
*/
module PeerClient {
  import opened Wire

  datatype Signal =
    | RemoteOnline(id: string)
    | RemoteOffline(id: string)
    | RemoteLogin(id: string)
    | RemoteMessage(sender: string, body: seq<string>)

  /** The code takes the word after these verbs for granted. */
  predicate Addressed(ws: seq<string>)
  {
    |ws| == 1 ==> ws[0] !in {"online", "offline", "login", "message"}
  }

  predicate AllAddressed(frames: seq<seq<string>>) { forall k :: 0 <= k < |frames| ==> Addressed(frames[k]) }

  /** The signal that a frame raises, if any. */
  function SignalOf(ws: seq<string>): seq<Signal>
  {
    if |ws| < 2 then []
    else if ws[0] == "online" then [RemoteOnline(ws[1])]
    else if ws[0] == "offline" then [RemoteOffline(ws[1])]
    else if ws[0] == "login" then [RemoteLogin(ws[1])]
    else if ws[0] == "message" then [RemoteMessage(ws[1], ws[2..])]
    else []
  }

  function Signals(frames: seq<seq<string>>): seq<Signal>
  {
    if frames == [] then [] else Signals(frames[..|frames| - 1]) + SignalOf(frames[|frames| - 1])
  }

  lemma SignalsSnoc(frames: seq<seq<string>>, ws: seq<string>)
    ensures Signals(frames + [ws]) == Signals(frames) + SignalOf(ws)
  {
    assert (frames + [ws])[..|frames|] == frames;
  }

  lemma NoSignals()
    ensures Signals([]) == []
  {
  }

  lemma {:induction false} SignalsConcat(a: seq<seq<string>>, b: seq<seq<string>>)
    ensures Signals(a + b) == Signals(a) + Signals(b)
  {
    hide Signals, SignalOf;
    if b == [] {
      assert a + b == a;
      NoSignals();
    } else {
      var front, last := b[..|b| - 1], b[|b| - 1];
      SignalsConcat(a, front);
      SignalsSnoc(a + front, last);
      SignalsSnoc(front, last);
      assert a + b == (a + front) + [last] && b == front + [last];
    }
  }

  class Peer {
    var isOnline: bool
    var xmlBuffer: string
    var sent: string          // everything handed to the socket
    var raised: seq<Signal>   // every signal raised

    constructor ()
      ensures isOnline && xmlBuffer == "" && sent == "" && raised == []
    {
      isOnline, xmlBuffer, sent, raised := true, "", "", [];
    }

    method SendMessage(to: string, msg: seq<string>) returns (code: int)
      modifies this`sent
      ensures
        if isOnline then code == 0 && sent == old(sent) + Frame(["send", to] + msg)
        else code == -1 && sent == old(sent)
    {
      if !isOnline {
        return -1;
      }
      var payload := "<send:" + to;
      for i := 0 to |msg|
        invariant payload == "<send:" + to + Colons(msg[..i]) && sent == old(sent)
      {
        assert msg[..i + 1] == msg[..i] + [msg[i]];
        ColonsSnoc(msg[..i], msg[i]);
        payload := payload + ":" + msg[i];
      }
      assert msg[..|msg|] == msg;
      payload := payload + ">";
      SendText(to, msg);
      sent := sent + payload;
      code := 0;
    }

    /** The first half of processXML: one pass over the buffer, which ends at its only `>`. */
    method BufferWords() returns (words: seq<string>)
      requires xmlBuffer != "" && xmlBuffer[|xmlBuffer| - 1] == '>' && '>' !in xmlBuffer[..|xmlBuffer| - 1]
      ensures words == FrameWords(xmlBuffer)
    {
      hide Split, FrameWords;
      var n := |xmlBuffer|;
      WordsAtEnd(xmlBuffer);
      var currentWord := "";
      words := [];
      assert xmlBuffer[1..1] == "";
      EmptySplit();
      var i := 1;
      while i < n
        invariant 1 <= i <= n
        invariant i < n ==> words + [currentWord] == Split(xmlBuffer[1..i])
        invariant i == n ==> words == FrameWords(xmlBuffer)
      {
        if i < n - 1 {
          assert xmlBuffer[i] == xmlBuffer[..n - 1][i];
          assert xmlBuffer[1..i + 1] == xmlBuffer[1..i] + [xmlBuffer[i]];
          SplitSnoc(xmlBuffer[1..i], xmlBuffer[i]);
        }
        if xmlBuffer[i] == ':' || xmlBuffer[i] == '>' {
          words := words + [currentWord];
          currentWord := "";
        } else {
          currentWord := currentWord + [xmlBuffer[i]];
        }
        i := i + 1;
      }
    }

    method ProcessXML()
      requires xmlBuffer != "" && xmlBuffer[|xmlBuffer| - 1] == '>' && '>' !in xmlBuffer[..|xmlBuffer| - 1]
      requires Addressed(FrameWords(xmlBuffer))
      modifies this`raised
      ensures raised == old(raised) + SignalOf(FrameWords(xmlBuffer))
    {
      hide FrameWords;
      var words := BufferWords();
      if |words| > 0 {
        if words[0] == "online" {
          raised := raised + [RemoteOnline(words[1])];
        } else if words[0] == "offline" {
          raised := raised + [RemoteOffline(words[1])];
        } else if words[0] == "login" {
          raised := raised + [RemoteLogin(words[1])];
        } else if words[0] == "message" {
          var msgBody: seq<string> := [];
          for j := 2 to |words|
            invariant msgBody == words[2..j] && raised == old(raised)
          {
            msgBody := msgBody + [words[j]];
          }
          assert words[2..|words|] == words[2..];
          raised := raised + [RemoteMessage(words[1], msgBody)];
        }
      }
    }

    /** onReadEvent, on a segment of any size. */
    method OnReadEvent(data: string)
      requires '>' !in xmlBuffer && AllAddressed(ReadAll(Reader(xmlBuffer, []), data).frames)
      modifies this`xmlBuffer, this`raised
      ensures
        var r := ReadAll(Reader(old(xmlBuffer), []), data);
        xmlBuffer == r.buffer && raised == old(raised) + Signals(r.frames)
      ensures '>' !in xmlBuffer
    {
      hide ReadAll, Signals, SignalOf, FrameWords, Addressed;
      ghost var start := Reader(xmlBuffer, []);
      ReadNothing(start);
      NoSignals();
      assert data[..0] == "" && data[..|data|] == data;
      for i := 0 to |data|
        invariant '>' !in xmlBuffer
        invariant
          var r := ReadAll(start, data[..i]);
          xmlBuffer == r.buffer && raised == old(raised) + Signals(r.frames)
      {
        ghost var r := ReadAll(start, data[..i]);
        assert data[..i + 1] == data[..i] + [data[i]];
        ReadSnoc(start, data[..i], data[i]);
        FramesGrow(start, data, i + 1);
        xmlBuffer := xmlBuffer + [data[i]];
        if data[i] == '>' {
          assert Addressed(ReadAll(start, data).frames[|r.frames|]);
          SignalsSnoc(r.frames, FrameWords(xmlBuffer));
          ProcessXML();
          xmlBuffer := "";
        }
      }
    }
  }

  lemma WordsAtEnd(buffer: string)
    requires buffer != ""
    ensures FrameWords(buffer) == if |buffer| == 1 then [] else Split(buffer[1..|buffer| - 1])
  {
    hide Split;
  }

  lemma SendText(to: string, msg: seq<string>)
    ensures Frame(["send", to] + msg) == "<send:" + to + Colons(msg) + ">"
  {
    hide Colons;
    assert (["send", to] + msg)[1..] == [to] + msg;
    ColonsCons(to, msg);
    assert "<" + ("send" + (":" + to + Colons(msg))) + ">" == "<send:" + to + Colons(msg) + ">";
  }

  /** Frames once read stay read. */
  lemma {:induction false} FramesGrow(r: Reader, text: string, i: nat)
    requires i <= |text|
    ensures ReadAll(r, text[..i]).frames <= ReadAll(r, text).frames
    decreases |text| - i
  {
    if i == |text| {
      assert text[..i] == text;
    } else {
      assert text[..i + 1][..i] == text[..i];
      FramesGrow(r, text, i + 1);
    }
  }
}
