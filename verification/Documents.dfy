/**
  What content means, piece by piece of its grammar: `All` says what is reported and which
  elements are open, or which error there is. `ContentMeans` is the theorem that the content
  loop makes of every text of the grammar exactly that.
*/
module Documents {
  import opened Scanner
  import opened Tokenizer
  import opened References
  import opened CharRefs
  import opened TagNames
  import opened Lines
  import opened Tokens
  import opened Grammar
  import opened Accepted
  import opened CharData
  import Utf
  import C = Content
  import T = StartTag

  /** The open elements, whether the root has been closed, how many pieces were read, and what is reported. */
  datatype Reading = Read(stack: seq<C.Tag>, ended: bool, taken: nat, events: seq<C.Event>) | Rejected(error: C.Error)

  predicate Spells(t: Text, w: string) { |t| == |w| && forall k :: 0 <= k < |w| ==> t[k] == w[k] as int }

  /** The entities of section 4.6 of XML 1.0. */
  function Builtin(name: Text): string
  {
    if Spells(name, "lt") then "<"
    else if Spells(name, "gt") then ">"
    else if Spells(name, "amp") then "&"
    else if Spells(name, "quot") then "\""
    else if Spells(name, "apos") then "'"
    else ""
  }

  lemma BuiltinIs(name: Text)
    ensures Builtin(name) == "" <==> Predefined(name) == 0
    ensures Builtin(name) != "" ==> Spells([Predefined(name)], Builtin(name))
  {
    if Spells(name, "lt") { assert name == [0x6C, 0x74]; }
    if Spells(name, "gt") { assert name == [0x67, 0x74]; }
    if Spells(name, "amp") { assert name == [0x61, 0x6D, 0x70]; }
    if Spells(name, "quot") { assert name == [0x71, 0x75, 0x6F, 0x74]; }
    if Spells(name, "apos") { assert name == [0x61, 0x70, 0x6F, 0x73]; }
  }

  // ------------------------------------------------------------- the meaning

  /** For some internal entities, the content that their text writes. */
  ghost predicate Given(env: C.Env, bodies: map<Text, seq<Piece>>)
  {
    forall name :: name in bodies ==>
      && name in env.entities && env.entities[name].Internal? && PiecesOk(env.intern, bodies[name])
      && env.entities[name].text == PiecesText(bodies[name])
  }

  /** A start tag or an empty-element tag. */
  function Opened(env: C.Env, open: set<Text>, enc: Enc, stack: seq<C.Tag>, p: Piece): Reading
    requires p.STag?
  {
    var name := NameText(p.name);
    match env.storeAtts(enc, open, stack, PieceText(p))
    case AttsError(code) => Rejected(C.AttributeError(code))
    case Atts(values, bindings) =>
      if p.empty then Read(stack, env.base + |stack| == 0, 1, [C.Start(name, values), C.End(name)])
      else Read(stack + [C.Tag(name, bindings)], false, 1, [C.Start(name, values)])
  }

  /** An end tag has to name the innermost element, and that has to have begun where this text did. */
  function Closed(env: C.Env, lvl: nat, stack: seq<C.Tag>, name: Text): Reading
  {
    var n := |stack| - 1;
    if stack == [] || env.base + |stack| == lvl then Rejected(C.AsyncEntity)
    else if stack[n].name != name then Rejected(C.TagMismatch)
    else Read(stack[..n], env.base + n == 0, 1, [C.End(name)])
  }

  function Numbered(stack: seq<C.Tag>, n: nat): Reading
  {
    if Utf.XmlChar(n) then Read(stack, false, 1, [C.Data(Utf8Encode(n))]) else Rejected(C.BadCharRef)
  }

  function FromRun(r: C.Outcome): Reading
  {
    if r.Err? then Rejected(r.error) else Read(r.st.stack, r.st.mode == C.InEpilog, 0, r.events)
  }

  /** A declared entity. */
  ghost function Inserted(env: C.Env, bodies: map<Text, seq<Piece>>, open: set<Text>, stack: seq<C.Tag>,
      name: Text): Reading
    requires Given(env, bodies) && name in env.entities
    decreases Unopened(env.entities, open), 0, 0
  {
    if name in open then Rejected(C.RecursiveRef)
    else match env.entities[name]
      case Unparsed(_) => Rejected(C.BinaryRef)
      case External(_) =>
        if env.external(open + {name}, stack, name) then Read(stack, false, 1, [C.ExternalRef(name)])
        else Rejected(C.ExternalHandling)
      case Internal(text, _) =>
        if !env.expand then Read(stack, false, 1, [C.Skipped(name)])
        else if env.base + |stack| == 0 then Rejected(C.NoElements)
        else
          OpenOne(env.entities, open, name);
          var lvl := env.base + |stack|;
          var r := if name in bodies then All(env, bodies, open + {name}, lvl, env.intern, stack, bodies[name])
                   else FromRun(C.Run(env, open + {name}, lvl, env.intern, text, C.Parser(stack, C.InContent, 0),
                     |text|,
                     false));
          if r.Rejected? then r else Read(r.stack, false, 1, r.events)
  }

  /** A reference to an entity: its content in its place, unless there is a reason against it. */
  ghost function Named(env: C.Env, bodies: map<Text, seq<Piece>>, open: set<Text>, stack: seq<C.Tag>,
      name: Text): Reading
    requires Given(env, bodies)
    decreases Unopened(env.entities, open), 0, 1
  {
    var all := !env.hasParamRefs || env.standalone;  // all declarations have been read
    if Builtin(name) != "" then Read(stack, false, 1, [C.Data([Builtin(name)[0] as int])])
    else if name !in env.entities then
      if all then Rejected(C.UndefinedEntity) else Read(stack, false, 1, [C.Skipped(name)])
    else if all && !env.entities[name].inside then Rejected(C.DeclaredInPe)
    else Inserted(env, bodies, open, stack, name)
  }

  /** One piece. */
  ghost function One(env: C.Env, bodies: map<Text, seq<Piece>>, open: set<Text>, lvl: nat, enc: Enc, stack: seq<C.Tag>,
      p: Piece): Reading
    requires Given(env, bodies)
    decreases Unopened(env.entities, open), 0, 2
  {
    match p
    case STag(_, _, _, _) => Opened(env, open, enc, stack, p)
    case ETag(name, _) => Closed(env, lvl, stack, name)
    case Chars(cs) => Read(stack, false, 1, [C.Data(Reported(enc, Utf.Encode8(cs)))])
    case Ref(item) =>
      (match item
       case Plain(_) => Rejected(C.InvalidToken)
       case ByNumber(_, ds, hex) => Numbered(stack, Number(ds, Radix(hex)))
       case ByName(name) => Named(env, bodies, open, stack, name))
    case CdSect(cs) =>
      Read(stack, false, 1,
        [C.StartCdata] + (if cs == [] then [] else [C.Data(Reported(enc, Utf.Encode8(cs)))]) + [C.EndCdata])
    case Instruction(target, _, body) => Read(stack, false, 1, [C.PiEvent(target, Normalised(Utf.Encode8(body)))])
    case Remark(cs) => Read(stack, false, 1, [C.CommentEvent(Normalised(Utf.Encode8(cs)))])
  }

  /** All pieces, until the root is closed; the elements open at the end are those of level `lvl`. */
  ghost function All(env: C.Env, bodies: map<Text, seq<Piece>>, open: set<Text>, lvl: nat, enc: Enc, stack: seq<C.Tag>,
      ps: seq<Piece>): Reading
    requires Given(env, bodies)
    decreases Unopened(env.entities, open), |ps|, 3
  {
    if ps == [] then
      if lvl == 0 then Rejected(C.NoElements)
      else if env.base + |stack| != lvl then Rejected(C.AsyncEntity)
      else Read(stack, false, 0, [])
    else
      var r := One(env, bodies, open, lvl, enc, stack, ps[0]);
      if r.Rejected? || r.ended then r else Add(r, All(env, bodies, open, lvl, enc, r.stack, ps[1..]))
  }

  function Add(r: Reading, rest: Reading): Reading
    requires r.Read?
  {
    if rest.Rejected? then rest
    else Read(rest.stack, rest.ended, r.taken + rest.taken, r.events + rest.events)
  }

  // ------------------------------------------------------------ names in place

  /** nameLength goes over characters of names. */
  lemma {:induction false} NameEndRest(enc: Enc, s: Text, i: nat, t: Text, end: nat)
    requires NameRest(enc, t) && At(s, i, t) && i + |t| <= end <= |s|
    ensures C.NameEnd(enc, s, i, end) == C.NameEnd(enc, s, i + |t|, end)
    decreases |t|
  {
    hide ByteType, Beyond, C.NameEnd, At;
    if t != [] {
      AtByte(s, i, t, 0);
      AsciiClass(enc, s[i]);
      BeyondClass(enc, t);
      NameEndOne(enc, s, i, end);
      AtFrom(s, i, t, Width(t[0]));
      NameEndRest(enc, s, i + Width(t[0]), t[Width(t[0])..], end);
    }
  }

  lemma BeyondClass(enc: Enc, t: Text)
    ensures Beyond(enc.name, t) || Beyond(enc.nmstrt, t) ==> 0xC0 <= t[0] < 0xF0
  {
  }

  lemma NameEndOne(enc: Enc, s: Text, i: nat, end: nat)
    requires i < end <= |s|
    requires NameAscii(s[i]) || s[i] == COLON_BYTE || (0xC0 <= s[i] < 0xF0 && i + Width(s[i]) <= end)
    ensures i + Width(s[i]) <= end && C.NameEnd(enc, s, i, end) == C.NameEnd(enc, s, i + Width(s[i]), end)
  {
    AsciiClass(enc, s[i]);
    ColonByte(enc);
    hide ByteType, NameAscii;
  }

  lemma ColonByte(enc: Enc)
    ensures ByteType(enc, COLON_BYTE) == COLON && Width(COLON_BYTE) == 1
  {
  }

  /** A byte after which a name of the grammar does not go on. */
  predicate Closing(b: Byte) { Blank(b) || b == SLASH || b == GREATER || b == EQUAL || b == 0x3F }

  lemma NameEndStops(enc: Enc, s: Text, i: nat, end: nat)
    requires i < end <= |s| && Closing(s[i])
    ensures C.NameEnd(enc, s, i, end) == i
  {
  }

  /** nameLength finds the end of the name in an end tag. */
  lemma {:induction false} EndRestFound(enc: Enc, s: Text, i: nat, t: Text, end: nat)
    requires EndRest(enc, t) && At(s, i, t) && i + |t| <= end <= |s|
    ensures C.NameEnd(enc, s, i, end) == C.NameEnd(enc, s, i + |t|, end)
    decreases |t|
  {
    hide ByteType, Beyond, C.NameEnd, At;
    if t != [] {
      AtByte(s, i, t, 0);
      WidthPositive(t[0]);
      BeyondClass(enc, t);
      NameEndOne(enc, s, i, end);
      AtFrom(s, i, t, Width(t[0]));
      EndRestFound(enc, s, i + Width(t[0]), t[Width(t[0])..], end);
    }
  }

  lemma StartsByte(enc: Enc, t: Text)
    requires Starts(enc, t)
    ensures NameAscii(t[0]) || 0xC0 <= t[0] < 0xF0
  {
  }

  /** nameLength goes over the first character of a name. */
  lemma NameEndStart(enc: Enc, s: Text, i: nat, t: Text, end: nat)
    requires Starts(enc, t) && At(s, i, t) && i + |t| <= end <= |s|
    ensures 1 <= Width(t[0]) <= |t| && C.NameEnd(enc, s, i, end) == C.NameEnd(enc, s, i + Width(t[0]), end)
    ensures At(s, i + Width(t[0]), t[Width(t[0])..])
  {
    hide ByteType, Beyond, C.NameEnd, NameAscii, At;
    AtByte(s, i, t, 0);
    WidthPositive(t[0]);
    StartsByte(enc, t);
    NameEndOne(enc, s, i, end);
    AtFrom(s, i, t, Width(t[0]));
  }

  lemma NcNameFound(enc: Enc, s: Text, i: nat, t: Text, end: nat)
    requires NcName(enc, t) && At(s, i, t) && i + |t| <= end <= |s|
    ensures C.NameEnd(enc, s, i, end) == C.NameEnd(enc, s, i + |t|, end)
  {
    hide C.NameEnd, NameRest, Starts, At;
    NameEndStart(enc, s, i, t, end);
    NameEndRest(enc, s, i + Width(t[0]), t[Width(t[0])..], end);
  }

  lemma EndNameFound(enc: Enc, s: Text, i: nat, t: Text, end: nat)
    requires ClosingName(enc, t) && At(s, i, t) && i + |t| < end <= |s| && Closing(s[i + |t|])
    ensures C.NameEnd(enc, s, i, end) == i + |t| && s[i..i + |t|] == t
  {
    hide C.NameEnd, EndRest, Starts, Closing;
    NameEndStops(enc, s, i + |t|, end);
    NameEndStart(enc, s, i, t, end);
    EndRestFound(enc, s, i + Width(t[0]), t[Width(t[0])..], end);
  }

  /** nameLength finds the end of a name of the grammar. */
  lemma NameEndFound(enc: Enc, s: Text, i: nat, q: QName, end: nat)
    requires NameOk(enc, q) && At(s, i, NameText(q)) && i + |NameText(q)| < end <= |s|
    requires Closing(s[i + |NameText(q)|])
    ensures C.NameEnd(enc, s, i, end) == i + |NameText(q)| && s[i..i + |NameText(q)|] == NameText(q)
  {
    hide C.NameEnd, NcName, Closing, ByteType, At;
    AtIs(s, i, NameText(q));
    NameEndStops(enc, s, i + |NameText(q)|, end);
    if q.prefix == [] {
      NcNameFound(enc, s, i, q.local, end);
    } else {
      AtParts(s, i, q.prefix + [COLON_BYTE], q.local);
      AtParts(s, i, q.prefix, [COLON_BYTE]);
      var c := i + |q.prefix|;
      AtByte(s, c, [COLON_BYTE], 0);
      NcNameFound(enc, s, i, q.prefix, end);
      NameEndOne(enc, s, c, end);
      ColonByte(enc);
      NcNameFound(enc, s, c + 1, q.local, end);
    }
  }

  // ------------------------------------------------------- one piece, in a run

  /** The run from `st` on begins as the reading says, and goes on at `next`. */
  ghost predicate Goes(env: C.Env, open: set<Text>, lvl: nat, enc: Enc, s: Text, st: C.Parser, m: Reading, next: nat)
    requires st.pos <= |s| && next <= |s|
  {
    var r := C.Run(env, open, lvl, enc, s, st, |s|, false);
    match m
    case Rejected(e) => r == C.Err(e)
    case Read(stack, ended, _, events) =>
      exists ev: seq<C.Event> ::
        && C.Merge(ev) == C.Merge(events)
        && r == C.Prepend(ev,
          C.Run(env, open, lvl, enc, s, C.Parser(stack, if ended then C.InEpilog else C.InContent, next),
                                  |s|, false))
  }

  /** A token that Act handles. */
  lemma ActRun(env: C.Env, open: set<Text>, lvl: nat, enc: Enc, s: Text, st: C.Parser, tok: Token, next: nat)
    requires st.mode == C.InContent && st.pos < next <= |s| && tok != EntityRef
    requires ContentTok(enc, s, st.pos, |s|) == Tok(tok, next)
    ensures
      var m := C.Act(env, open, lvl, enc, s, st, tok, next);
      C.Run(env, open, lvl, enc, s, st, |s|, false) ==
        if m.Fail? then C.Err(m.error) else C.Prepend(m.events, C.Run(env, open, lvl, enc, s, m.st, |s|, false))
  {
    hide ContentTok, C.Run, C.Act, C.Reference;
    C.RunUnfold(env, open, lvl, enc, s, st, |s|, false);
  }

  /** The step agrees with the reading. */
  ghost predicate Agrees(m: C.Step, r: Reading)
  {
    match m
    case Fail(e) => r == Rejected(e)
    case Move(st, ev) =>
      r.Read? && r.stack == st.stack && st.mode == (if r.ended then C.InEpilog else C.InContent)
      && C.Merge(r.events) == C.Merge(ev)
    case Stop(_, _) => false
  }

  lemma GoesOn(env: C.Env, open: set<Text>, lvl: nat, enc: Enc, s: Text, st: C.Parser, m: C.Step, next: nat, r: Reading)
    requires st.pos < next <= |s| && (m.Move? ==> m.st.pos == next) && Agrees(m, r)
    requires C.Run(env, open, lvl, enc, s, st, |s|, false) ==
      if m.Fail? then C.Err(m.error) else C.Prepend(m.events, C.Run(env, open, lvl, enc, s, m.st, |s|, false))
    ensures Goes(env, open, lvl, enc, s, st, r, next)
  {
    hide C.Run, C.Merge, C.Prepend;
    if m.Move? {
      assert m.st == C.Parser(r.stack, if r.ended then C.InEpilog else C.InContent, next);
      assert C.Merge(m.events) == C.Merge(r.events);
    }
  }

  lemma OpenRun(env: C.Env, open: set<Text>, lvl: nat, enc: Enc, s: Text, st: C.Parser, p: Piece)
    requires st.mode == C.InContent && p.STag? && PieceOk(enc, p) && At(s, st.pos, PieceText(p))
    ensures Goes(env, open, lvl, enc, s, st, Opened(env, open, enc, st.stack, p), st.pos + |PieceText(p)|)
  {
    hide ContentTok, C.Run, PieceText, NameText, NameOk, AttsOk, Blanks, T.Spans, Goes, Opened, C.Act, Agrees;
    var next := st.pos + |PieceText(p)|;
    TagFound(enc, s, st.pos, p, |s|);
    OpenAct(env, open, lvl, enc, s, st, p);
    ActRun(env, open, lvl, enc, s, st, TagToken(p), next);
    GoesOn(env, open, lvl, enc, s, st, C.Act(env, open, lvl, enc, s, st, TagToken(p), next), next,
           Opened(env, open, enc, st.stack, p));
  }

  lemma OpenAct(env: C.Env, open: set<Text>, lvl: nat, enc: Enc, s: Text, st: C.Parser, p: Piece)
    requires p.STag? && PieceOk(enc, p) && At(s, st.pos, PieceText(p)) && st.pos < st.pos + |PieceText(p)|
    ensures Agrees(C.Act(env, open, lvl, enc, s, st, TagToken(p), st.pos + |PieceText(p)|),
      Opened(env, open, enc, st.stack, p))
  {
    hide PieceText, NameText, AttsText, NameOk, AttsOk, Blanks, C.NameEnd, C.Merge, Closing;
    var next := st.pos + |PieceText(p)|;
    TagParts(s, st.pos, p);
    TagNamed(enc, s, st.pos, p);
    NameEndFound(enc, s, st.pos + 1, p.name, next);
  }

  /** What follows the name of the element ends it. */
  lemma TagNamed(enc: Enc, s: Text, i: nat, p: Piece)
    requires p.STag? && PieceOk(enc, p) && At(s, i, PieceText(p))
    ensures
      var n := i + 1 + |NameText(p.name)|;
      n < i + |PieceText(p)| <= |s| && Closing(s[n])
  {
    hide NameText, NameOk, PieceText, ItemsText;
    TagParts(s, i, p);
    var n := i + 1 + |NameText(p.name)|;
    if p.atts != [] {
      var a := p.atts[0];
      AtParts(s, n, AttText(a), AttsText(p.atts[1..]));
      AttParts(s, n, a);
      AtByte(s, n, a.gap, 0);
    } else if p.gap != [] {
      AtByte(s, n, p.gap, 0);
    } else {
      AtByte(s, n, if p.empty then [SLASH, GREATER] else [GREATER], 0);
    }
  }

  lemma CloseRun(env: C.Env, open: set<Text>, lvl: nat, enc: Enc, s: Text, st: C.Parser, p: Piece)
    requires st.mode == C.InContent && p.ETag? && PieceOk(enc, p) && At(s, st.pos, PieceText(p))
    ensures Goes(env, open, lvl, enc, s, st, Closed(env, lvl, st.stack, p.ename), st.pos + |PieceText(p)|)
  {
    hide ContentTok, C.Run, PieceText, ClosingName, Goes, C.NameEnd;
    var next, n := st.pos + |PieceText(p)|, st.pos + 2 + |p.ename|;
    EndFound(enc, s, st.pos, p, |s|);
    EndParts(s, st.pos, p);
    if p.egap != [] { AtByte(s, n, p.egap, 0); }
    EndNameFound(enc, s, st.pos + 2, p.ename, next);
    ActRun(env, open, lvl, enc, s, st, EndTag, next);
    GoesOn(env, open, lvl, enc, s, st, C.Act(env, open, lvl, enc, s, st, EndTag, next), next,
           Closed(env, lvl, st.stack, p.ename));
  }

  lemma NumberRun(env: C.Env, open: set<Text>, lvl: nat, enc: Enc, s: Text, st: C.Parser, item: Item)
    requires st.mode == C.InContent && item.ByNumber? && RefOk(enc, item) && At(s, st.pos, ItemText(item))
    ensures Goes(env, open, lvl, enc, s, st, Numbered(st.stack, Number(item.ds, Radix(item.hex))),
      st.pos + |ItemText(item)|)
  {
    hide ContentTok, C.Run, C.Act, Goes, Number, CharRefs.Written, Utf8Encode, Utf.XmlChar;
    var next := st.pos + |ItemText(item)|;
    NumberRefers(enc, item);
    InContent(env, open, lvl, enc, s, st, next, |s|, item.ds, item.hex);
    ActRun(env, open, lvl, enc, s, st, CharRef, next);
    GoesOn(env, open, lvl, enc, s, st, C.Act(env, open, lvl, enc, s, st, CharRef, next), next,
           Numbered(st.stack, Number(item.ds, Radix(item.hex))));
  }

  lemma NumberRefers(enc: Enc, item: Item)
    requires item.ByNumber? && RefOk(enc, item)
    ensures Refers(ItemText(item), item.ds, item.hex)
  {
    var head: Text := if item.hex then [0x26, 0x23, 0x78] else [0x26, 0x23];
    var t := ItemText(item);
    assert |item.digits| == |item.ds|;
    hide CharRefs.Written, Radix;
    assert t[..|head|] == head;
    assert t[|head|..|t| - 1] == item.digits;
    assert Radix(item.hex) == if item.hex then 16 else 10 by { RadixIs(item.hex); }
  }

  lemma RadixIs(hex: bool)
    ensures Radix(hex) == if hex then 16 else 10
  {
  }

  lemma RemarkRun(env: C.Env, open: set<Text>, lvl: nat, enc: Enc, s: Text, st: C.Parser, p: Piece)
    requires st.mode == C.InContent && p.Remark? && PieceOk(enc, p) && At(s, st.pos, PieceText(p))
    ensures Goes(env, open, lvl, enc, s, st,
      Read(st.stack, false, 1, [C.CommentEvent(Normalised(Utf.Encode8(p.comment)))]), st.pos + |PieceText(p)|)
  {
    hide ContentTok, C.Run, PieceText, Goes, Utf.Encode8, Without, Normalised;
    var next := st.pos + |PieceText(p)|;
    RemarkFound(enc, s, st.pos, p, |s|);
    ActRun(env, open, lvl, enc, s, st, Comment, next);
    GoesOn(env, open, lvl, enc, s, st, C.Act(env, open, lvl, enc, s, st, Comment, next), next,
           Read(st.stack, false, 1, [C.CommentEvent(Normalised(Utf.Encode8(p.comment)))]));
  }

  lemma {:induction false} SkipsBlanks(enc: Enc, s: Text, i: nat, t: Text, end: nat)
    requires Blanks(t) && At(s, i, t) && i + |t| < end <= |s| && !Blank(s[i + |t|])
    ensures C.SkipBlanks(enc, s, i, end) == i + |t|
    decreases |t|
  {
    hide ByteType, At;
    ClassBytes(enc, s[i]);
    if t != [] {
      AtByte(s, i, t, 0);
      AtFrom(s, i, t, 1);
      SkipsBlanks(enc, s, i + 1, t[1..], end);
    }
  }

  lemma InstructionRun(env: C.Env, open: set<Text>, lvl: nat, enc: Enc, s: Text, st: C.Parser, p: Piece)
    requires st.mode == C.InContent && p.Instruction? && PieceOk(enc, p) && At(s, st.pos, PieceText(p))
    ensures Goes(env, open, lvl, enc, s, st,
      Read(st.stack, false, 1, [C.PiEvent(p.target, Normalised(Utf.Encode8(p.body)))]), st.pos + |PieceText(p)|)
  {
    hide ContentTok, C.Run, PieceText, Goes, Utf.Encode8, Without, Normalised, C.PiReport, NcName, Blanks, Reserved;
    var next := st.pos + |PieceText(p)|;
    InstructionFound(enc, s, st.pos, p, |s|);
    InstructionReport(enc, s, st.pos, p);
    ActRun(env, open, lvl, enc, s, st, Pi, next);
    GoesOn(env, open, lvl, enc, s, st, C.Act(env, open, lvl, enc, s, st, Pi, next), next,
           Read(st.stack, false, 1, [C.PiEvent(p.target, Normalised(Utf.Encode8(p.body)))]));
  }

  lemma PiReportIs(enc: Enc, s: Text, i: nat, next: nat, n: nat, b: nat)
    requires i + 4 <= next <= |s| && C.NameEnd(enc, s, i + 2, next) == n && C.SkipBlanks(enc, s, n, next) == b
    requires i + 2 <= n && b <= next - 2
    ensures C.PiReport(enc, s, i, next) == C.PiEvent(s[i + 2..n], Normalised(s[b..next - 2]))
  {
    hide C.NameEnd, C.SkipBlanks, Normalised;
  }

  /** What is reported of an instruction. */
  lemma InstructionReport(enc: Enc, s: Text, i: nat, p: Piece)
    requires p.Instruction? && PieceOk(enc, p) && At(s, i, PieceText(p))
    ensures C.PiReport(enc, s, i, i + |PieceText(p)|) == C.PiEvent(p.target, Normalised(Utf.Encode8(p.body)))
  {
    hide PieceText, Utf.Encode8, Without, Normalised, Reserved, C.NameEnd, C.SkipBlanks, C.PiReport, Blanks, At;
    hide Utf8Encode, Closing, Utf.XmlChars, NcName, Blank;
    InstructionParts(s, i, p);
    var next, n := i + |PieceText(p)|, i + 2 + |p.target|;
    var b, body := n + |p.pgap|, Utf.Encode8(p.body);
    AtParts(s, b, body, [0x3F, GREATER]);
    TargetNotEmpty(enc, p.target);
    InstructionNamed(s, n, p);
    NameEndFound(enc, s, i + 2, QName([], p.target), next);
    BodyFirst(s, b, p.body);
    SkipsBlanks(enc, s, n, p.pgap, next);
    PiReportIs(enc, s, i, next, n, b);
  }

  lemma TargetNotEmpty(enc: Enc, t: Text)
    requires NcName(enc, t)
    ensures t != []
  {
  }

  lemma InstructionNamed(s: Text, n: nat, p: Piece)
    requires p.Instruction? && Blanks(p.pgap) && (p.body != [] ==> p.pgap != [])
    requires At(s, n, p.pgap) && At(s, n + |p.pgap|, Utf.Encode8(p.body) + [0x3F, GREATER])
    ensures n < |s| && Closing(s[n])
  {
    hide Utf.Encode8, At;
    if p.pgap != [] {
      AtByte(s, n, p.pgap, 0);
    } else {
      EncodeNone(p.body);
      AtByte(s, n, Utf.Encode8(p.body) + [0x3F, GREATER], 0);
    }
  }

  lemma BodyFirst(s: Text, b: nat, body: seq<int>)
    requires Utf.XmlChars(body) && At(s, b, Utf.Encode8(body) + [0x3F, GREATER])
    requires body != [] ==> Utf8Encode(body[0]) != [] && !Blank(Utf8Encode(body[0])[0])
    ensures b < |s| && !Blank(s[b])
  {
    hide Utf.Encode8, Utf8Encode, At;
    AtByte(s, b, Utf.Encode8(body) + [0x3F, GREATER], 0);
    if body == [] { EncodeNone(body); } else { EncodeFirst(body); }
  }

  lemma SectionPieceRun(env: C.Env, open: set<Text>, lvl: nat, enc: Enc, s: Text, st: C.Parser, p: Piece,
      bodies: map<Text, seq<Piece>>)
    requires st.mode == C.InContent && p.CdSect? && PieceOk(enc, p) && At(s, st.pos, PieceText(p)) && Given(env, bodies)
    ensures Goes(env, open, lvl, enc, s, st, One(env, bodies, open, lvl, enc, st.stack, p), st.pos + |PieceText(p)|)
  {
    hide ContentTok, C.Run, Utf.Encode8, Without, Reported, C.Merge, Given, Utf.XmlChars, Goes, At;
    var body := Utf.Encode8(p.cdata);
    AtParts(s, st.pos, CDATA_START + body, CDATA_END);
    AtParts(s, st.pos, CDATA_START, body);
    var b := st.pos + 9;
    SectionOpens(enc, s, st.pos, |s|);
    ActRun(env, open, lvl, enc, s, st, CdataOpen, b);
    var inside := C.Parser(st.stack, C.InCdata, b);
    var ev := SectionRun(env, open, lvl, enc, s, inside, p.cdata);
    var next := st.pos + |PieceText(p)|;
    var after := C.Parser(st.stack, C.InContent, next);
    var all := [C.StartCdata] + (ev + [C.EndCdata]);
    PrependTwice([C.StartCdata], ev + [C.EndCdata], C.Run(env, open, lvl, enc, s, after, |s|, false));
    var data := if p.cdata == [] then [] else [C.Data(Reported(enc, body))];
    SectionMerge(ev, data);
    GoesTo(env, open, lvl, enc, s, st, One(env, bodies, open, lvl, enc, st.stack, p), next, all);
  }

  lemma SectionMerge(ev: seq<C.Event>, data: seq<C.Event>)
    requires C.Merge(ev) == data && (data == [] || |data| == 1)
    ensures C.Merge([C.StartCdata] + (ev + [C.EndCdata])) == C.Merge([C.StartCdata] + data + [C.EndCdata])
  {
    hide C.Merge;
    MergeOne(data);
    C.MergeConcat([], [C.StartCdata], ev + [C.EndCdata]);
    C.MergeConcat([], [C.StartCdata], data + [C.EndCdata]);
    assert [C.StartCdata] + data + [C.EndCdata] == [C.StartCdata] + (data + [C.EndCdata]);
    MergeLeft(ev, data, [C.EndCdata]);
    C.MergeCongruence([C.StartCdata], ev + [C.EndCdata], data + [C.EndCdata]);
  }

  lemma MergeOne(data: seq<C.Event>)
    requires data == [] || |data| == 1
    ensures C.Merge(data) == data
  {
    if data != [] {
      C.MergeSnoc([], [], data[0]);
      assert [] + [data[0]] == data;
    }
  }

  lemma MergeLeft(a: seq<C.Event>, b: seq<C.Event>, more: seq<C.Event>)
    requires C.Merge(a) == C.Merge(b)
    ensures C.Merge(a + more) == C.Merge(b + more)
  {
    C.MergeConcat([], a, more);
    C.MergeConcat([], b, more);
  }

  lemma GoesTo(env: C.Env, open: set<Text>, lvl: nat, enc: Enc, s: Text, st: C.Parser, r: Reading, next: nat,
      ev: seq<C.Event>)
    requires st.pos <= |s| && next <= |s| && r.Read? && !r.ended && C.Merge(ev) == C.Merge(r.events)
    requires C.Run(env, open, lvl, enc, s, st, |s|, false) ==
      C.Prepend(ev, C.Run(env, open, lvl, enc, s, C.Parser(r.stack, C.InContent, next), |s|, false))
    ensures Goes(env, open, lvl, enc, s, st, r, next)
  {
    hide C.Run, C.Merge, C.Prepend;
  }

  lemma CharsPieceRun(env: C.Env, open: set<Text>, lvl: nat, enc: Enc, s: Text, st: C.Parser, p: Piece,
      bodies: map<Text, seq<Piece>>)
    requires st.mode == C.InContent && p.Chars? && PieceOk(enc, p) && At(s, st.pos, PieceText(p)) && Given(env, bodies)
    requires Bounded(s, st.pos + |PieceText(p)|, |s|)
    ensures Goes(env, open, lvl, enc, s, st, One(env, bodies, open, lvl, enc, st.stack, p), st.pos + |PieceText(p)|)
  {
    hide C.Run, Utf.Encode8, Without, Reported, C.Merge, Given, Utf.XmlChars, Goes, At;
    var ev := CharsRun(env, open, lvl, enc, s, st, p.cs);
    OneData(Reported(enc, Utf.Encode8(p.cs)));
    GoesTo(env, open, lvl, enc, s, st, One(env, bodies, open, lvl, enc, st.stack, p), st.pos + |PieceText(p)|, ev);
  }

  /** A run that agrees with what the pieces mean; what has not been read is the text of the pieces not taken. */
  ghost predicate Means(s: Text, r: C.Outcome, ps: seq<Piece>, m: Reading)
  {
    match m
    case Rejected(e) => r == C.Err(e)
    case Read(stack, ended, taken, events) =>
      && r.Ok? && r.st.stack == stack && r.st.mode == (if ended then C.InEpilog else C.InContent)
      && C.Merge(r.events) == C.Merge(events)
      && taken <= |ps| && r.st.pos <= |s| && s[r.st.pos..] == PiecesText(ps[taken..])
  }

  lemma EndMeans(env: C.Env, bodies: map<Text, seq<Piece>>, open: set<Text>, lvl: nat, enc: Enc, s: Text, st: C.Parser,
      ps: seq<Piece>)
    requires Given(env, bodies) && ps == []
    requires st.mode == C.InContent && st.pos <= |s| && s[st.pos..] == PiecesText(ps)
    ensures Means(s, C.Run(env, open, lvl, enc, s, st, |s|, false), ps, All(env, bodies, open, lvl, enc, st.stack, ps))
  {
    hide C.Run, Given, One, C.Merge, PiecesText;
    TextStep(ps);
    assert |s[st.pos..]| == 0;
    EndRun(env, open, lvl, enc, s, st);
    assert ps[0..] == ps;
  }

  /** At the end of the text. */
  lemma EndRun(env: C.Env, open: set<Text>, lvl: nat, enc: Enc, s: Text, st: C.Parser)
    requires st.mode == C.InContent && st.pos == |s|
    ensures C.Run(env, open, lvl, enc, s, st, |s|, false) ==
      if lvl == 0 then C.Err(C.NoElements)
      else if env.base + |st.stack| != lvl then C.Err(C.AsyncEntity)
      else C.Ok(st, [])
  {
    hide C.Run, C.Reference, C.Act;
    C.RunUnfold(env, open, lvl, enc, s, st, |s|, false);
    AtTheEnd(enc, s);
    hide ContentTok;
  }

  lemma AtTheEnd(enc: Enc, s: Text)
    ensures ContentTok(enc, s, |s|, |s|) == NoTok
  {
  }

  lemma PieceFirst(enc: Enc, p: Piece)
    requires PieceOk(enc, p) && !p.Chars?
    ensures PieceText(p) != [] && (PieceText(p)[0] == 0x3C || PieceText(p)[0] == 0x26)
  {
    hide NameText, AttsText, Utf.Encode8, NameOk, AttsOk, Blanks, Without;
  }

  lemma OkRest(enc: Enc, ps: seq<Piece>)
    requires PiecesOk(enc, ps) && ps != []
    ensures PieceOk(enc, ps[0]) && PiecesOk(enc, ps[1..])
    ensures |ps| > 1 ==> PieceOk(enc, ps[1]) && !(ps[0].Chars? && ps[1].Chars?)
  {
    hide PieceOk;
  }

  lemma TextStep(ps: seq<Piece>)
    ensures ps != [] ==> PiecesText(ps) == PieceText(ps[0]) + PiecesText(ps[1..])
    ensures ps == [] ==> PiecesText(ps) == []
  {
    hide PieceText;
  }

  /** The first of the pieces, and what follows it. */
  lemma FirstPiece(enc: Enc, s: Text, i: nat, ps: seq<Piece>)
    requires PiecesOk(enc, ps) && ps != [] && i <= |s| && s[i..] == PiecesText(ps)
    ensures
      var next := i + |PieceText(ps[0])|;
      && PieceOk(enc, ps[0]) && PiecesOk(enc, ps[1..]) && At(s, i, PieceText(ps[0]))
      && next <= |s| && s[next..] == PiecesText(ps[1..])
      && (ps[0].Chars? ==> Bounded(s, next, |s|))
  {
    hide PieceText, PieceOk, PiecesText;
    OkRest(enc, ps);
    TextStep(ps);
    TextStep(ps[1..]);
    var t, more := PieceText(ps[0]), PiecesText(ps[1..]);
    var next := i + |t|;
    assert s[i..] == t + more;
    assert |s| - i == |t| + |more|;
    assert s[i..next] == s[i..][..|t|] && s[next..] == s[i..][|t|..];
    if ps[0].Chars? && |ps| > 1 {
      PieceFirst(enc, ps[1]);
      assert s[next..][0] == s[next];
    }
  }

  // ---------------------------------------------------------------- entities

  lemma ReferenceRun(env: C.Env, open: set<Text>, lvl: nat, enc: Enc, s: Text, st: C.Parser, next: nat)
    requires st.mode == C.InContent && st.pos < next <= |s|
    requires ContentTok(enc, s, st.pos, |s|) == Tok(EntityRef, next)
    ensures
      var m := C.Reference(env, open, s, st, next);
      C.Run(env, open, lvl, enc, s, st, |s|, false) ==
        if m.Fail? then C.Err(m.error) else C.Prepend(m.events, C.Run(env, open, lvl, enc, s, m.st, |s|, false))
  {
    hide ContentTok, C.Run, C.Act, C.Reference;
    C.RunUnfold(env, open, lvl, enc, s, st, |s|, false);
  }

  lemma InsertedMeans(env: C.Env, bodies: map<Text, seq<Piece>>, open: set<Text>, st: C.Parser, go: C.Parser,
      name: Text)
    requires Given(env, bodies) && name in env.entities && go.stack == st.stack && go.mode == C.InContent
    ensures Agrees(C.Included(env, open, name, st, go), Inserted(env, bodies, open, st.stack, name))
    decreases Unopened(env.entities, open), 0, 0
  {
    hide C.Run, All, C.Merge, Given;
    if env.entities[name].Internal? && name !in open && name in bodies {
      OpenOne(env.entities, open, name);
      InnerMeans(env, bodies, open + {name}, st.stack, name);
    }
  }

  lemma NamedMeans(env: C.Env, bodies: map<Text, seq<Piece>>, open: set<Text>, s: Text, st: C.Parser, next: nat,
      name: Text)
    requires Given(env, bodies) && st.pos < next <= |s| && C.RefName(s, st.pos, next) == name
    ensures Agrees(C.Reference(env, open, s, st, next), Named(env, bodies, open, st.stack, name))
    decreases Unopened(env.entities, open), 0, 1
  {
    hide C.Included, Inserted, C.Merge, C.RefName, Spells, Predefined, Given, Builtin;
    BuiltinIs(name);
    if Builtin(name) != "" {
      OneByte(name);
    } else if name in env.entities {
      InsertedMeans(env, bodies, open, st, C.Parser(st.stack, C.InContent, next), name);
    }
  }

  lemma OneByte(name: Text)
    requires Spells([Predefined(name)], Builtin(name))
    ensures |Builtin(name)| == 1 && Predefined(name) == Builtin(name)[0] as int
  {
    hide Predefined, Builtin;
  }

  /** The text of an internal entity whose content is known. */
  lemma InnerMeans(env: C.Env, bodies: map<Text, seq<Piece>>, open: set<Text>, stack: seq<C.Tag>, name: Text)
    requires Given(env, bodies) && name in bodies && name in env.entities && env.entities[name].Internal?
    ensures
      var text, lvl := env.entities[name].text, env.base + |stack|;
      var r := C.Run(env, open, lvl, env.intern, text, C.Parser(stack, C.InContent, 0), |text|, false);
      match All(env, bodies, open, lvl, env.intern, stack, bodies[name])
      case Rejected(e) => r == C.Err(e)
      case Read(stack', _, _, events) => r.Ok? && r.st.stack == stack' && C.Merge(r.events) == C.Merge(events)
    decreases Unopened(env.entities, open), |bodies[name]|, 5
  {
    hide C.Run, All, C.Merge, PiecesText, PiecesOk;
    var text, lvl := env.entities[name].text, env.base + |stack|;
    assert text[0..] == text;
    ContentMeans(env, bodies, open, lvl, env.intern, text, C.Parser(stack, C.InContent, 0), bodies[name]);
  }

  lemma ReferredName(s: Text, i: nat, item: Item)
    requires item.ByName? && At(s, i, ItemText(item))
    ensures i < i + |ItemText(item)| <= |s| && C.RefName(s, i, i + |ItemText(item)|) == item.name
  {
    AtThree(s, i, [0x26], item.name, [0x3B]);
  }

  lemma NamedRun(env: C.Env, bodies: map<Text, seq<Piece>>, open: set<Text>, lvl: nat, enc: Enc, s: Text, st: C.Parser,
      item: Item)
    requires Given(env, bodies) && item.ByName? && RefOk(enc, item) && At(s, st.pos, ItemText(item))
    requires st.mode == C.InContent
    ensures Goes(env, open, lvl, enc, s, st, Named(env, bodies, open, st.stack, item.name), st.pos + |ItemText(item)|)
    decreases Unopened(env.entities, open), 0, 2
  {
    hide C.Run, C.Merge, Named, C.Reference, Goes, NcName, ContentTok, Given, At, C.RefName;
    var next := st.pos + |ItemText(item)|;
    ReferredName(s, st.pos, item);
    Accepted.RefFound(enc, s, st.pos, item, |s|);
    ReferenceRun(env, open, lvl, enc, s, st, next);
    NamedMeans(env, bodies, open, s, st, next, item.name);
    GoesOn(env, open, lvl, enc, s, st, C.Reference(env, open, s, st, next), next,
           Named(env, bodies, open, st.stack, item.name));
  }

  // ------------------------------------------------------------- the theorem

  /** One piece, whatever it is. */
  lemma PieceMeans(env: C.Env, bodies: map<Text, seq<Piece>>, open: set<Text>, lvl: nat, enc: Enc, s: Text,
      st: C.Parser, p: Piece)
    requires Given(env, bodies) && PieceOk(enc, p) && st.mode == C.InContent && At(s, st.pos, PieceText(p))
    requires p.Chars? ==> Bounded(s, st.pos + |PieceText(p)|, |s|)
    ensures Goes(env, open, lvl, enc, s, st, One(env, bodies, open, lvl, enc, st.stack, p), st.pos + |PieceText(p)|)
    decreases Unopened(env.entities, open), 0, 3
  {
    hide C.Run, C.Merge, Named, Goes, Given, Opened, Closed, Numbered, RefOk, Utf.Encode8, Reported, Without, At;
    match p
    case STag(_, _, _, _) => OpenRun(env, open, lvl, enc, s, st, p);
    case ETag(_, _) => CloseRun(env, open, lvl, enc, s, st, p);
    case Chars(_) => CharsPieceRun(env, open, lvl, enc, s, st, p, bodies);
    case Ref(item) =>
      PlainIsNoRef(enc, item);
      if item.ByNumber? {
        NumberRun(env, open, lvl, enc, s, st, item);
      } else {
        NamedRun(env, bodies, open, lvl, enc, s, st, item);
      }
    case CdSect(_) => SectionPieceRun(env, open, lvl, enc, s, st, p, bodies);
    case Instruction(_, _, _) => InstructionRun(env, open, lvl, enc, s, st, p);
    case Remark(_) => RemarkRun(env, open, lvl, enc, s, st, p);
  }

  lemma PlainIsNoRef(enc: Enc, item: Item)
    requires RefOk(enc, item)
    ensures !item.Plain?
  {
  }

  lemma AllStep(env: C.Env, bodies: map<Text, seq<Piece>>, open: set<Text>, lvl: nat, enc: Enc, stack: seq<C.Tag>,
      ps: seq<Piece>)
    requires Given(env, bodies) && ps != []
    ensures
      var r := One(env, bodies, open, lvl, enc, stack, ps[0]);
      All(env, bodies, open, lvl, enc, stack, ps) ==
        if r.Rejected? || r.ended then r else Add(r, All(env, bodies, open, lvl, enc, r.stack, ps[1..]))
  {
    hide One, Given;
  }

  /** From the first piece and the rest to the whole. */
  lemma RestMeans(env: C.Env, bodies: map<Text, seq<Piece>>, open: set<Text>, lvl: nat, enc: Enc, s: Text, st: C.Parser,
      ps: seq<Piece>, next: nat)
    requires Given(env, bodies) && ps != [] && st.pos <= |s| && next <= |s| && s[next..] == PiecesText(ps[1..])
    requires Goes(env, open, lvl, enc, s, st, One(env, bodies, open, lvl, enc, st.stack, ps[0]), next)
    requires
      var m := One(env, bodies, open, lvl, enc, st.stack, ps[0]);
      m.Read? && !m.ended ==>
        Means(s, C.Run(env, open, lvl, enc, s, C.Parser(m.stack, C.InContent, next), |s|, false), ps[1..],
              All(env, bodies, open, lvl, enc, m.stack, ps[1..]))
    ensures Means(s, C.Run(env, open, lvl, enc, s, st, |s|, false), ps, All(env, bodies, open, lvl, enc, st.stack, ps))
  {
    hide C.Run, One, Given, C.Merge, PiecesText, All;
    AllStep(env, bodies, open, lvl, enc, st.stack, ps);
    var m := One(env, bodies, open, lvl, enc, st.stack, ps[0]);
    if m.Read? {
      OneTakes(env, bodies, open, lvl, enc, st.stack, ps[0]);
      var ev: seq<C.Event> :| C.Merge(ev) == C.Merge(m.events) && C.Run(env, open, lvl, enc, s, st, |s|, false) ==
        C.Prepend(ev, C.Run(env, open, lvl, enc, s,
          C.Parser(m.stack, if m.ended then C.InEpilog else C.InContent, next),
                            |s|, false));
      if m.ended {
        Epilog(env, open, lvl, enc, s, C.Parser(m.stack, C.InEpilog, next));
        assert ev + [] == ev;
      } else {
        var r, rest := C.Run(env, open, lvl, enc, s, C.Parser(m.stack, C.InContent, next), |s|, false),
          All(env, bodies, open, lvl, enc, m.stack, ps[1..]);
        if rest.Read? {
          MergeLeft(ev, m.events, r.events);
          C.MergeCongruence(m.events, r.events, rest.events);
          assert ps[1..][rest.taken..] == ps[1 + rest.taken..];
        }
      }
    }
  }

  lemma InsertedTakes(env: C.Env, bodies: map<Text, seq<Piece>>, open: set<Text>, stack: seq<C.Tag>, name: Text)
    requires Given(env, bodies) && name in env.entities && Inserted(env, bodies, open, stack, name).Read?
    ensures Inserted(env, bodies, open, stack, name).taken == 1
  {
    hide All, C.Run, Given;
  }

  lemma NamedTakes(env: C.Env, bodies: map<Text, seq<Piece>>, open: set<Text>, stack: seq<C.Tag>, name: Text)
    requires Given(env, bodies) && Named(env, bodies, open, stack, name).Read?
    ensures Named(env, bodies, open, stack, name).taken == 1
  {
    hide Inserted, Given, Builtin;
    if name in env.entities && Named(env, bodies, open, stack, name) == Inserted(env, bodies, open, stack, name) {
      InsertedTakes(env, bodies, open, stack, name);
    }
  }

  lemma OneTakes(env: C.Env, bodies: map<Text, seq<Piece>>, open: set<Text>, lvl: nat, enc: Enc, stack: seq<C.Tag>,
      p: Piece)
    requires Given(env, bodies) && One(env, bodies, open, lvl, enc, stack, p).Read?
    ensures One(env, bodies, open, lvl, enc, stack, p).taken == 1
  {
    hide Named, Given, Utf.Encode8, Reported, Normalised;
    if p.Ref? && p.item.ByName? { NamedTakes(env, bodies, open, stack, p.item.name); }
  }

  lemma Epilog(env: C.Env, open: set<Text>, lvl: nat, enc: Enc, s: Text, st: C.Parser)
    requires st.mode == C.InEpilog && st.pos <= |s|
    ensures C.Run(env, open, lvl, enc, s, st, |s|, false) == C.Ok(st, [])
  {
    hide C.Run;
    C.RunUnfold(env, open, lvl, enc, s, st, |s|, false);
  }

  /** The content loop makes of a text of the grammar what its pieces mean. */
  lemma {:induction false} ContentMeans(env: C.Env, bodies: map<Text, seq<Piece>>, open: set<Text>, lvl: nat, enc: Enc,
      s: Text, st: C.Parser, ps: seq<Piece>)
    requires Given(env, bodies) && PiecesOk(enc, ps)
    requires st.mode == C.InContent && st.pos <= |s| && s[st.pos..] == PiecesText(ps)
    ensures Means(s, C.Run(env, open, lvl, enc, s, st, |s|, false), ps, All(env, bodies, open, lvl, enc, st.stack, ps))
    decreases Unopened(env.entities, open), |ps|, 4
  {
    hide C.Run, One, PieceOk, PieceText, Given, C.Merge, Means, Goes, PiecesText, All;
    if ps == [] {
      EndMeans(env, bodies, open, lvl, enc, s, st, ps);
    } else {
      FirstPiece(enc, s, st.pos, ps);
      var p, next := ps[0], st.pos + |PieceText(ps[0])|;
      PieceMeans(env, bodies, open, lvl, enc, s, st, p);
      var m := One(env, bodies, open, lvl, enc, st.stack, p);
      if m.Read? && !m.ended {
        ContentMeans(env, bodies, open, lvl, enc, s, C.Parser(m.stack, C.InContent, next), ps[1..]);
      }
      RestMeans(env, bodies, open, lvl, enc, s, st, ps, next);
    }
  }
}
