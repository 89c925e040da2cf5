/**
  The wire format shared by the dialog server and its clients: a frame is `<`, words
  separated by `:`, and `>`. Both ends collect characters until a `>` arrives, so how TCP
  cuts the stream must not matter.
*/
module Wire {

  predicate PlainWord(w: string) { ':' !in w && '>' !in w }

  predicate PlainWords(ws: seq<string>) { forall k :: 0 <= k < |ws| ==> PlainWord(ws[k]) }

  /** ":a:b:c" */
  function Colons(ws: seq<string>): string
  {
    if ws == [] then "" else Colons(ws[..|ws| - 1]) + ":" + ws[|ws| - 1]
  }

  function Sentence(ws: seq<string>): string
    requires ws != []
  {
    ws[0] + Colons(ws[1..])
  }

  function Frame(ws: seq<string>): string
    requires ws != []
  {
    "<" + Sentence(ws) + ">"
  }

  /** The pieces of `s` between colons, JavaScript's split(":"). */
  function Split(s: string): (ws: seq<string>)
    ensures |ws| >= 1
  {
    if s == "" then [""]
    else
      var front, last := Split(s[..|s| - 1]), s[|s| - 1];
      if last == ':' then front + [""] else front[..|front| - 1] + [front[|front| - 1] + [last]]
  }

  lemma SplitSnoc(s: string, c: char)
    ensures
      var front := Split(s);
      Split(s + [c]) == if c == ':' then front + [""] else front[..|front| - 1] + [front[|front| - 1] + [c]]
  {
    assert (s + [c])[..|s|] == s;
  }

  lemma ColonsSnoc(ws: seq<string>, w: string)
    ensures Colons(ws + [w]) == Colons(ws) + ":" + w
  {
    assert (ws + [w])[..|ws|] == ws;
  }

  lemma {:induction false} ColonsCons(w: string, rest: seq<string>)
    ensures Colons([w] + rest) == ":" + w + Colons(rest)
  {
    hide Colons;
    if rest == [] {
      NoColons();
      assert [w] + rest == [] + [w];
      ColonsSnoc([], w);
    } else {
      var front, last := rest[..|rest| - 1], rest[|rest| - 1];
      ColonsCons(w, front);
      assert [w] + rest == ([w] + front) + [last];
      assert rest == front + [last];
      ColonsSnoc([w] + front, last);
      ColonsSnoc(front, last);
    }
  }

  /** A word without colons extends the last piece. */
  lemma {:induction false} SplitWord(s: string, w: string)
    requires ':' !in w
    ensures
      var front := Split(s);
      Split(s + w) == front[..|front| - 1] + [front[|front| - 1] + w]
  {
    hide Split;
    var front := Split(s);
    if w == "" {
      assert s + w == s && front[|front| - 1] + w == front[|front| - 1];
    } else {
      var w', c := w[..|w| - 1], w[|w| - 1];
      SplitWord(s, w');
      SplitSnoc(s + w', c);
      assert s + w == (s + w') + [c];
      assert front[|front| - 1] + w == (front[|front| - 1] + w') + [c];
    }
  }

  lemma SplitColonWord(s: string, w: string)
    requires ':' !in w
    ensures Split(s + ":" + w) == Split(s) + [w]
  {
    SplitSnoc(s, ':');
    SplitWord(s + ":", w);
    assert "" + w == w;
  }

  /** Splitting undoes joining. */
  lemma {:induction false} SplitSentence(ws: seq<string>)
    requires ws != [] && PlainWords(ws)
    ensures Split(Sentence(ws)) == ws
  {
    hide Split, Colons, Sentence;
    if |ws| == 1 {
      SplitWord("", ws[0]);
      EmptySplit();
      assert "" + ws[0] == ws[0];
      SentenceSnoc([], ws[0]);
      assert ws == [] + [ws[0]];
    } else {
      var front, w := ws[..|ws| - 1], ws[|ws| - 1];
      assert ws == front + [w];
      SplitSentence(front);
      SplitColonWord(Sentence(front), w);
      SentenceSnoc(front, w);
    }
  }

  lemma EmptySplit()
    ensures Split("") == [""]
  {
  }

  lemma SentenceSnoc(front: seq<string>, w: string)
    ensures Sentence(front + [w]) == if front == [] then w else Sentence(front) + ":" + w
  {
    hide Colons;
    if front == [] {
      assert Colons([]) == "" by { NoColons(); }
      assert (front + [w])[1..] == [];
    } else {
      assert (front + [w])[1..] == front[1..] + [w];
      ColonsSnoc(front[1..], w);
    }
  }

  lemma NoColons()
    ensures Colons([]) == ""
  {
  }

  /** The pieces hold no colon and no other character than the text. */
  lemma {:induction false} SplitPlain(s: string)
    requires '>' !in s
    ensures PlainWords(Split(s))
  {
    if s != "" {
      SplitPlain(s[..|s| - 1]);
    }
  }

  lemma {:induction false} SentencePlain(ws: seq<string>)
    requires ws != [] && PlainWords(ws)
    ensures '>' !in Sentence(ws)
  {
    if |ws| > 1 {
      var front := ws[..|ws| - 1];
      SentencePlain(front);
      assert ws[1..] == front[1..] + [ws[|ws| - 1]];
      ColonsSnoc(front[1..], ws[|ws| - 1]);
    }
  }

  // ------------------------------------------------------------ reading a stream

  /** A reader: characters since the last `>`, and the words of the frames read. */
  datatype Reader = Reader(buffer: string, frames: seq<seq<string>>)

  /** The words of a buffer that ends at its `>`; the first character is taken to be the `<`. */
  function FrameWords(buffer: string): (ws: seq<string>)
    requires buffer != ""
  {
    if |buffer| == 1 then [] else Split(buffer[1..|buffer| - 1])
  }

  function Read(r: Reader, c: char): Reader
  {
    if c == '>' then Reader("", r.frames + [FrameWords(r.buffer + [c])]) else Reader(r.buffer + [c], r.frames)
  }

  function ReadAll(r: Reader, text: string): Reader
  {
    if text == "" then r else Read(ReadAll(r, text[..|text| - 1]), text[|text| - 1])
  }

  lemma ReadSnoc(r: Reader, text: string, c: char)
    ensures ReadAll(r, text + [c]) == Read(ReadAll(r, text), c)
  {
    hide Read;
    assert (text + [c])[..|text|] == text;
  }

  lemma ReadNothing(r: Reader)
    ensures ReadAll(r, "") == r
  {
  }

  /** The cut does not matter. */
  lemma {:induction false} ReadConcat(r: Reader, a: string, b: string)
    ensures ReadAll(r, a + b) == ReadAll(ReadAll(r, a), b)
  {
    if b == "" {
      assert a + b == a;
    } else {
      ReadConcat(r, a, b[..|b| - 1]);
      assert (a + b)[..|a + b| - 1] == a + b[..|b| - 1];
    }
  }

  lemma {:induction false} ReadInside(r: Reader, text: string)
    requires '>' !in text
    ensures ReadAll(r, text) == Reader(r.buffer + text, r.frames)
  {
    if text == "" {
      assert r.buffer + text == r.buffer;
    } else {
      ReadInside(r, text[..|text| - 1]);
      assert r.buffer + text == (r.buffer + text[..|text| - 1]) + [text[|text| - 1]];
    }
  }

  /** A frame written by one end is read as its words by the other. */
  lemma ReadFrame(r: Reader, ws: seq<string>)
    requires r.buffer == "" && ws != [] && PlainWords(ws)
    ensures ReadAll(r, Frame(ws)) == Reader("", r.frames + [ws])
  {
    var text := "<" + Sentence(ws);
    SentencePlain(ws);
    ReadInside(r, text);
    assert r.buffer + text == text;
    assert Frame(ws)[..|Frame(ws)| - 1] == text;
    assert (text + ['>'])[1..|text|] == Sentence(ws);
    SplitSentence(ws);
  }

  function Frames(list: seq<seq<string>>): string
    requires forall k :: 0 <= k < |list| ==> list[k] != []
  {
    if list == [] then "" else Frames(list[..|list| - 1]) + Frame(list[|list| - 1])
  }

  lemma FramesNone()
    ensures Frames([]) == ""
  {
  }

  lemma FramesSnoc(front: seq<seq<string>>, last: seq<string>)
    requires last != [] && forall k :: 0 <= k < |front| ==> front[k] != []
    ensures Frames(front + [last]) == Frames(front) + Frame(last)
  {
    hide Frame;
    assert (front + [last])[..|front|] == front;
  }

  lemma {:induction false} ReadFrames(r: Reader, list: seq<seq<string>>)
    requires r.buffer == "" && forall k :: 0 <= k < |list| ==> list[k] != [] && PlainWords(list[k])
    ensures ReadAll(r, Frames(list)) == Reader("", r.frames + list)
  {
    if list == [] {
      assert r.frames + list == r.frames;
    } else {
      var front, last := list[..|list| - 1], list[|list| - 1];
      FramesSnoc(front, last);
      assert list == front + [last];
      hide Frames, Frame, ReadAll, Read;
      ReadFrames(r, front);
      ReadConcat(r, Frames(front), Frame(last));
      ReadFrame(ReadAll(r, Frames(front)), last);
      assert r.frames + list == (r.frames + front) + [last];
    }
  }

  // -------------------------------------------------------------- frame by frame

  predicate PlainFrames(list: seq<seq<string>>) { forall k :: 0 <= k < |list| ==> list[k] != [] && PlainWords(list[k]) }

  lemma {:induction false} FramesConcat(a: seq<seq<string>>, b: seq<seq<string>>)
    requires (forall k :: 0 <= k < |a| ==> a[k] != []) && forall k :: 0 <= k < |b| ==> b[k] != []
    ensures Frames(a + b) == Frames(a) + Frames(b)
    decreases |b|
  {
    hide Frame, Frames;
    FramesNone();
    if b == [] {
      assert a + b == a;
    } else {
      var front, last := b[..|b| - 1], b[|b| - 1];
      FramesConcat(a, front);
      assert a + b == (a + front) + [last] && b == front + [last];
      FramesSnoc(a + front, last);
      FramesSnoc(front, last);
    }
  }

  lemma FramesCons(first: seq<string>, rest: seq<seq<string>>)
    requires first != [] && forall k :: 0 <= k < |rest| ==> rest[k] != []
    ensures Frames([first] + rest) == Frame(first) + Frames(rest)
  {
    hide Frame, Frames;
    FramesConcat([first], rest);
    FramesSnoc([], first);
    NoFrame();
    assert [] + [first] == [first] && "" + Frame(first) == Frame(first);
  }

  /** Where a stream stands in its first frame: the part read holds no `>`, and the next one ends the frame. */
  lemma FirstFrame(read: string, unread: string, list: seq<seq<string>>)
    requires PlainFrames(list) && read + unread == Frames(list) && '>' !in read && unread != ""
    ensures list != []
    ensures unread[0] == '>' ==> read + [unread[0]] == Frame(list[0]) && unread[1..] == Frames(list[1..])
    ensures unread[0] != '>' ==> (read + [unread[0]]) + unread[1..] == Frames(list)
  {
    hide Frames, Frame, Sentence;
    if list == [] {
      NoFrame();
    } else {
      var first, rest := Frame(list[0]), Frames(list[1..]);
      assert list == [list[0]] + list[1..];
      FramesCons(list[0], list[1..]);
      OneGt(list[0]);
      if unread[0] == '>' {
        SameGt(read, unread, first, rest);
      } else {
        assert unread == [unread[0]] + unread[1..];
      }
    }
  }

  /** Two ways to cut a text behind its first `>`. */
  lemma SameGt(read: string, unread: string, first: string, rest: string)
    requires read + unread == first + rest && '>' !in read && unread != "" && unread[0] == '>'
    requires first != "" && first[|first| - 1] == '>' && '>' !in first[..|first| - 1]
    ensures read + [unread[0]] == first && unread[1..] == rest
  {
    var text, n := read + unread, |first| - 1;
    assert forall k :: 0 <= k < n ==> text[k] == first[..n][k];
    assert forall k :: 0 <= k < |read| ==> text[k] == read[k];
    assert text[|read|] == '>' && text[n] == first[n];
    assert |read| == n;
    assert first == text[..n + 1] && rest == text[n + 1..];
  }

  lemma NoFrame()
    ensures Frames([]) == ""
  {
  }

  lemma OneGt(ws: seq<string>)
    requires ws != [] && PlainWords(ws)
    ensures Frame(ws) != "" && Frame(ws)[|Frame(ws)| - 1] == '>' && '>' !in Frame(ws)[..|Frame(ws)| - 1]
  {
    SentencePlain(ws);
    hide Sentence;
    assert Frame(ws)[..|Frame(ws)| - 1] == "<" + Sentence(ws);
  }

  /** The words of a frame are read back. */
  lemma WordsBack(ws: seq<string>)
    requires ws != [] && PlainWords(ws)
    ensures Frame(ws) != "" && FrameWords(Frame(ws)) == ws
  {
    SplitSentence(ws);
    hide Sentence, Split;
    assert Frame(ws)[1..|Frame(ws)| - 1] == Sentence(ws);
  }
}
