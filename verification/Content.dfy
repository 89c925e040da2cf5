/**
  The content loop of xmlparse.c (doContent, doCdataSection, processInternalEntity) as
  a specification: what one call does with the bytes from `pos` to `end`, and when it
  stops for want of more.

  Two results about whole runs: cutting the input anywhere does not change what the
  application sees (`ChunkedEqualsOneShot`), and every accepted run is properly
  nested, inside entities as well (`Nested`, `EntityBalance`).
*/
module Content {
  import opened Scanner
  import opened References
  import opened Lines
  import Namespaces

  datatype Error =
    | AsyncEntity | NoElements | InvalidToken | UnclosedToken | PartialCharacter
    | UndefinedEntity | DeclaredInPe | RecursiveRef | BinaryRef | TagMismatch | BadCharRef
    | MisplacedXmlPi | UnclosedCdata | ExternalHandling | AttributeError(code: nat)

  /** An open element: its raw name and the namespaces it declares. */
  datatype Tag = Tag(name: Text, bindings: seq<Namespaces.Decl>)

  /** What storeAtts makes of a tag: the attributes to report and the namespaces declared, or an error. */
  datatype Atts = Atts(values: seq<Text>, bindings: seq<Namespaces.Decl>) | AttsError(code: nat)

  /** Calls of the application's handlers. */
  datatype Event =
    | Data(text: Text)
    | Start(name: Text, values: seq<Text>)
    | End(ename: Text)
    | StartCdata | EndCdata
    | PiEvent(target: Text, pi: Text)
    | CommentEvent(comment: Text)
    | Skipped(entity: Text)
    | ExternalRef(entity: Text)

  /**
    What a content run depends on besides the text. `storeAtts` is what storeAtts does
    with a tag, given the open entities and the open tags (Attributes defines it);
    `external` is what the application's handler for external entities returns, given
    the open entities and tags, of which its context argument is made, and the name.
    `base` is the tag level with no open tag: 0 in the document, 1 in an external entity.
  */
  datatype Env = Env(
    doc: Enc, intern: Enc, entities: map<Text, Entity>, hasParamRefs: bool, standalone: bool, expand: bool,
    storeAtts: (Enc, set<Text>, seq<Tag>, Text) -> Atts, external: (set<Text>, seq<Tag>, Text) -> bool, base: nat)

  /** contentProcessor, cdataSectionProcessor, epilogProcessor */
  datatype Mode = InContent | InCdata | InEpilog

  datatype Parser = Parser(stack: seq<Tag>, mode: Mode, pos: nat)

  datatype Outcome = Ok(st: Parser, events: seq<Event>) | Err(error: Error)

  datatype Step = Move(st: Parser, events: seq<Event>) | Stop(st: Parser, events: seq<Event>) | Fail(error: Error)

  function Level(env: Env, stack: seq<Tag>): nat { env.base + |stack| }

  /** nameLength: up to the first byte that no name contains. */
  function NameEnd(enc: Enc, s: Text, i: nat, end: nat): (r: nat)
    requires i <= end <= |s|
    ensures i <= r <= end
    decreases end - i
  {
    if i == end then i
    else
      var c := ByteType(enc, s[i]);
      var n := if LeadLen(c) > 0 then LeadLen(c) else if c in {NMSTRT, COLON, HEX, DIGIT, NAME, MINUS} then 1 else 0;
      if n == 0 || end - i < n then i else NameEnd(enc, s, i + n, end)
  }

  /** skipS */
  function SkipBlanks(enc: Enc, s: Text, i: nat, end: nat): (r: nat)
    requires i <= end <= |s|
    ensures i <= r <= end
    decreases end - i
  {
    if i < end && IsSpace(ByteType(enc, s[i])) then SkipBlanks(enc, s, i + 1, end) else i
  }

  function Slice(s: Text, i: nat, end: nat): Text { if i <= end <= |s| then s[i..end] else [] }

  /** reportProcessingInstruction: the target, and what follows the blanks after it. */
  function PiReport(enc: Enc, s: Text, i: nat, next: nat): Event
    requires i <= next <= |s|
  {
    if next < i + 4 then PiEvent([], [])
    else
      var tem := NameEnd(enc, s, i + 2, next);
      PiEvent(s[i + 2..tem], Normalised(Slice(s, SkipBlanks(enc, s, tem, next), next - 2)))
  }

  /** reportComment */
  function CommentReport(s: Text, i: nat, next: nat): Event
    requires i <= next <= |s|
  {
    CommentEvent(if next < i + 7 then [] else Normalised(s[i + 4..next - 3]))
  }

  // --------------------------------------------------------- one token's work

  /** A start tag or an empty-element tag; `enc` finds the end of the name. */
  function OpenTag(env: Env, open: set<Text>, enc: Enc, s: Text, st: Parser, next: nat, empty: bool): Step
    requires st.pos < next <= |s|
  {
    var name := s[st.pos + 1..NameEnd(enc, s, st.pos + 1, next)];
    match env.storeAtts(enc, open, st.stack, s[st.pos..next])
    case AttsError(code) => Fail(AttributeError(code))
    case Atts(values, bindings) =>
      if !empty then Move(Parser(st.stack + [Tag(name, bindings)], InContent, next), [Start(name, values)])
      else Move(Parser(st.stack, if Level(env, st.stack) == 0 then InEpilog else InContent, next),
        [Start(name, values), End(name)])
  }

  function CloseTag(env: Env, lvl: nat, enc: Enc, s: Text, st: Parser, next: nat): Step
    requires st.pos + 1 < next <= |s|
  {
    if Level(env, st.stack) == lvl || st.stack == [] then Fail(AsyncEntity)
    else
      var name := s[st.pos + 2..NameEnd(enc, s, st.pos + 2, next)];
      var tag := st.stack[|st.stack| - 1];
      var rest := st.stack[..|st.stack| - 1];
      if tag.name != name then Fail(TagMismatch)
      else Move(Parser(rest, if Level(env, rest) == 0 then InEpilog else InContent, next), [End(name)])
  }

  /** The content switch for a decided token that is not an entity reference. */
  function Act(env: Env, open: set<Text>, lvl: nat, enc: Enc, s: Text, st: Parser, tok: Token, next: nat): (r: Step)
    requires st.pos < next <= |s|
    ensures r.Move? ==> r.st.pos == next
    ensures !r.Stop?
  {
    var go := Parser(st.stack, InContent, next);
    match tok
    case StartTag(_) => OpenTag(env, open, enc, s, st, next, false)
    case EmptyElement(_) => OpenTag(env, open, enc, s, st, next, true)
    case EndTag => if st.pos + 1 < next then CloseTag(env, lvl, enc, s, st, next) else Fail(InvalidToken)
    case CharRef =>
      if st.pos + 4 > next then Fail(BadCharRef)
      else
        var n := CharRefNumber(s, st.pos, next);
        if n < 0 then Fail(BadCharRef) else Move(go, [Data(Utf8Encode(n))])
    case XmlDecl => Fail(MisplacedXmlPi)
    case DataNewline => Move(go, [Data([0xA])])
    case DataChars => Move(go, [Data(s[st.pos..next])])
    case CdataOpen => Move(go.(mode := InCdata), [StartCdata])
    case Pi => Move(go, [PiReport(enc, s, st.pos, next)])
    case Comment => Move(go, [CommentReport(s, st.pos, next)])
    case _ => Move(go, [])
  }

  function CdataAct(s: Text, st: Parser, tok: Token, next: nat): (r: Step)
    requires st.pos < next <= |s|
    ensures r.Move? && r.st.pos == next
  {
    match tok
    case CdataClose => Move(Parser(st.stack, InContent, next), [EndCdata])
    case DataNewline => Move(st.(pos := next), [Data([0xA])])
    case _ => Move(st.(pos := next), [Data(s[st.pos..next])])
  }

  /** The end of an entity or of the input, reached with `last` still to be reported. */
  function AtEnd(env: Env, lvl: nat, st: Parser, end: nat, last: seq<Event>): Step
  {
    if lvl == 0 then Fail(NoElements)
    else if Level(env, st.stack) != lvl then Fail(AsyncEntity)
    else Stop(st.(pos := end), last)
  }

  /** A token that needs more input; *nextPtr stays at its start while there may be more. */
  function Undecided(env: Env, lvl: nat, s: Text, st: Parser, r: Result, end: nat, haveMore: bool): (m: Step)
    requires st.pos <= end <= |s|
    ensures !m.Move? && (m.Stop? ==> st.pos <= m.st.pos <= end)
  {
    if r.Invalid? then Fail(InvalidToken)
    else if haveMore then Stop(st, [])
    else if st.mode == InCdata then Fail(if r.PartialChar? then PartialCharacter else UnclosedCdata)
    else match r
      case PartialChar => Fail(PartialCharacter)
      case NoTok => AtEnd(env, lvl, st, end, [])
      case TrailingCr => AtEnd(env, lvl, st, end, [Data([0xA])])
      case TrailingRsqb => AtEnd(env, lvl, st, end, [Data(s[st.pos..end])])
      case _ => Fail(UnclosedToken)
  }

  // -------------------------------------------------------------- whole runs

  /** The name in a reference. */
  function RefName(s: Text, i: nat, next: nat): Text
    requires i < next <= |s|
  {
    if i + 1 <= next - 1 then s[i + 1..next - 1] else []
  }

  /** XML_TOK_ENTITY_REF; `open` are the entities whose open flag is set. */
  ghost function Reference(env: Env, open: set<Text>, s: Text, st: Parser, next: nat): (r: Step)
    requires st.pos < next <= |s|
    ensures r.Move? ==> r.st.pos == next && r.st.mode == InContent
    ensures !r.Stop?
    decreases Unopened(env.entities, open), |s| - st.pos, 0
  {
    var go := Parser(st.stack, InContent, next);
    var name := RefName(s, st.pos, next);
    if Predefined(name) != 0 then Move(go, [Data([Predefined(name)])])
    else if !env.hasParamRefs || env.standalone then
      if name !in env.entities then Fail(UndefinedEntity)
      else if !env.entities[name].inside then Fail(DeclaredInPe)
      else Included(env, open, name, st, go)
    else if name !in env.entities then Move(go, [Skipped(name)])
    else Included(env, open, name, st, go)
  }

  ghost function Included(env: Env, open: set<Text>, name: Text, st: Parser, go: Parser): (r: Step)
    requires name in env.entities
    ensures r.Move? ==> r.st.pos == go.pos && r.st.mode == go.mode
    ensures !r.Stop?
    decreases Unopened(env.entities, open), 0, 1
  {
    if name in open then Fail(RecursiveRef)
    else match env.entities[name]
      case Unparsed(_) => Fail(BinaryRef)
      case External(_) =>
        if env.external(open + {name}, st.stack, name) then Move(go, [ExternalRef(name)]) else Fail(ExternalHandling)
      case Internal(text, _) =>
        if !env.expand then Move(go, [Skipped(name)])
        else if Level(env, st.stack) == 0 then Fail(NoElements)  // content starts at the root tag
        else
          OpenOne(env.entities, open, name);
          match Run(env, open + {name}, Level(env, st.stack), env.intern, text, Parser(st.stack, InContent, 0), |text|,
            false)
          case Err(e) => Fail(e)
          case Ok(st', events) => Move(go.(stack := st'.stack), events)
  }

  /** One round of the loop in doContent or doCdataSection. */
  ghost function Round(env: Env, open: set<Text>, lvl: nat, enc: Enc, s: Text, st: Parser, end: nat,
      haveMore: bool): (r: Step)
    requires st.pos <= end <= |s|
    ensures r.Move? ==> st.pos < r.st.pos <= end
    ensures r.Stop? ==> st.pos <= r.st.pos <= end
    decreases Unopened(env.entities, open), |s| - st.pos, 1
  {
    hide ContentTok, CdataTok, Act, CdataAct, Undecided;
    match st.mode
    case InEpilog => Stop(st, [])
    case InCdata =>
      var r := CdataTok(enc, s, st.pos, end);
      if r.Tok? then CdataAct(s, st, r.tok, r.next) else Undecided(env, lvl, s, st, r, end, haveMore)
    case InContent =>
      var r := ContentTok(enc, s, st.pos, end);
      if !r.Tok? then Undecided(env, lvl, s, st, r, end, haveMore)
      else if r.tok == EntityRef then Reference(env, open, s, st, r.next)
      else Act(env, open, lvl, enc, s, st, r.tok, r.next)
  }

  /** A call of the current processor on the bytes from st.pos to `end`. */
  ghost function Run(env: Env, open: set<Text>, lvl: nat, enc: Enc, s: Text, st: Parser, end: nat,
      haveMore: bool): (r: Outcome)
    requires st.pos <= end <= |s|
    ensures r.Ok? ==> st.pos <= r.st.pos <= end
    decreases Unopened(env.entities, open), |s| - st.pos, 2
  {
    hide ContentTok, CdataTok, Act, CdataAct, Undecided;
    match Round(env, open, lvl, enc, s, st, end, haveMore)
    case Fail(e) => Err(e)
    case Stop(st', events) => Ok(st', events)
    case Move(st', events) => Prepend(events, Run(env, open, lvl, enc, s, st', end, haveMore))
  }

  function Prepend(events: seq<Event>, r: Outcome): Outcome
  {
    match r
    case Err(e) => Err(e)
    case Ok(st, more) => Ok(st, events + more)
  }

  // ------------------------------------------------- merging character data

  /** Report one event after `done`; character data joins character data. */
  function Emit(done: seq<Event>, e: Event): seq<Event>
  {
    if e.Data? && done != [] && done[|done| - 1].Data?
    then done[..|done| - 1] + [Data(done[|done| - 1].text + e.text)]
    else done + [e]
  }

  function MergeOnto(done: seq<Event>, events: seq<Event>): seq<Event>
  {
    if events == [] then done
    else Emit(MergeOnto(done, events[..|events| - 1]), events[|events| - 1])
  }

  /** Adjacent character data as one event: what an application may rely on. */
  function Merge(events: seq<Event>): seq<Event> { MergeOnto([], events) }

  lemma {:induction false} MergeConcat(done: seq<Event>, a: seq<Event>, b: seq<Event>)
    ensures MergeOnto(done, a + b) == MergeOnto(MergeOnto(done, a), b)
  {
    if b == [] {
      assert a + b == a;
    } else {
      var c := b[..|b| - 1];
      assert (a + b)[..|a + b| - 1] == a + c;
      MergeConcat(done, a, c);
    }
  }

  lemma EmitSplit(done: seq<Event>, a: Text, b: Text)
    ensures Emit(Emit(done, Data(a)), Data(b)) == Emit(done, Data(a + b))
  {
    if done != [] && done[|done| - 1].Data? {
      var t := done[|done| - 1].text;
      assert t + a + b == t + (a + b);
    }
  }

  lemma MergeSnoc(done: seq<Event>, m: seq<Event>, e: Event)
    ensures MergeOnto(done, m + [e]) == Emit(MergeOnto(done, m), e)
  {
    assert (m + [e])[..|m|] == m;
  }

  lemma MergeEmit(done: seq<Event>, m: seq<Event>, e: Event)
    ensures MergeOnto(done, Emit(m, e)) == Emit(MergeOnto(done, m), e)
  {
    if e.Data? && m != [] && m[|m| - 1].Data? {
      var front, d := m[..|m| - 1], m[|m| - 1].text;
      assert m == front + [Data(d)];
      MergeSnoc(done, front, Data(d));
      MergeSnoc(done, front, Data(d + e.text));
      EmitSplit(MergeOnto(done, front), d, e.text);
    } else {
      MergeSnoc(done, m, e);
    }
  }

  /** Merging a list first and then onto `done` is merging it onto `done`. */
  lemma {:induction false} MergeIdempotent(done: seq<Event>, events: seq<Event>)
    ensures MergeOnto(done, Merge(events)) == MergeOnto(done, events)
  {
    if events != [] {
      var front := events[..|events| - 1];
      MergeIdempotent(done, front);
      MergeEmit(done, Merge(front), events[|events| - 1]);
    }
  }

  lemma MergeCongruence(x: seq<Event>, a: seq<Event>, b: seq<Event>)
    requires Merge(a) == Merge(b)
    ensures Merge(x + a) == Merge(x + b)
  {
    MergeConcat([], x, a);
    MergeConcat([], x, b);
    MergeIdempotent(Merge(x), a);
    MergeIdempotent(Merge(x), b);
  }

  lemma MergeDataSplit(a: Text, b: Text, rest: seq<Event>)
    ensures Merge([Data(a)] + ([Data(b)] + rest)) == Merge([Data(a + b)] + rest)
  {
    MergeConcat([], [Data(a)], [Data(b)] + rest);
    MergeConcat(Merge([Data(a)]), [Data(b)], rest);
    MergeConcat([], [Data(a + b)], rest);
    MergeSnoc([], [], Data(a));
    MergeSnoc([], [], Data(a + b));
    MergeSnoc([Data(a)], [], Data(b));
    assert [] + [Data(a)] == [Data(a)] && [] + [Data(a + b)] == [Data(a + b)] && [] + [Data(b)] == [Data(b)];
  }

  // ------------------------------------------------ incremental is one-shot

  /** Two outcomes that an application cannot tell apart; a failure's events are not compared. */
  predicate Same(a: Outcome, b: Outcome)
  {
    if a.Err? then a == b else b.Ok? && a.st == b.st && Merge(a.events) == Merge(b.events)
  }

  /** How a round on less input relates to the same round on more. */
  ghost predicate RoundCut(env: Env, open: set<Text>, lvl: nat, enc: Enc, s: Text, st: Parser, end: nat, end': nat,
      more: bool)
    requires st.pos <= end <= end' <= |s|
  {
    var r, r' := Round(env, open, lvl, enc, s, st, end, true), Round(env, open, lvl, enc, s, st, end', more);
    || r == Stop(st, [])
    || (r == r' && !r.Stop?)
    || (r.Move? && r'.Fail? && Round(env, open, lvl, enc, s, r.st, end', more) == r')
    || exists a: Text, b: Text ::
         && DataSplit(r, r', a, b)
         && Round(env, open, lvl, enc, s, r.st, end', more) == Move(r'.st, [Data(b)])
  }

  ghost predicate DataSplit(r: Step, r': Step, a: Text, b: Text)
  {
    r.Move? && r'.Move? && r.events == [Data(a)] && r'.events == [Data(a + b)]
  }

  lemma CdataCut(env: Env, open: set<Text>, lvl: nat, enc: Enc, s: Text, st: Parser, end: nat, end': nat, more: bool)
    requires st.pos <= end <= end' <= |s| && st.mode == InCdata
    ensures RoundCut(env, open, lvl, enc, s, st, end, end', more)
  {
    hide ContentTok, CdataTok;
    var t, t' := CdataTok(enc, s, st.pos, end), CdataTok(enc, s, st.pos, end');
    if Decided(t) {
      CdataTokStable(enc, s, st.pos, end, end');
      if t != t' {
        var r, r' := Round(env, open, lvl, enc, s, st, end, true), Round(env, open, lvl, enc, s, st, end', more);
        var a, b := s[st.pos..t.next], s[t.next..t'.next];
        assert s[st.pos..t'.next] == a + b;
        assert DataSplit(r, r', a, b);
      }
    }
  }

  lemma ContentCut(env: Env, open: set<Text>, lvl: nat, enc: Enc, s: Text, st: Parser, end: nat, end': nat, more: bool)
    requires st.pos <= end <= end' <= |s| && st.mode == InContent
    ensures RoundCut(env, open, lvl, enc, s, st, end, end', more)
  {
    hide ContentTok, CdataTok, Reference, OpenTag, CloseTag;
    var t, t' := ContentTok(enc, s, st.pos, end), ContentTok(enc, s, st.pos, end');
    if Decided(t) {
      ContentTokStable(enc, s, st.pos, end, end');
      if t != t' && t'.Tok? {
        var r, r' := Round(env, open, lvl, enc, s, st, end, true), Round(env, open, lvl, enc, s, st, end', more);
        var a, b := s[st.pos..t.next], s[t.next..t'.next];
        assert s[st.pos..t'.next] == a + b;
        assert DataSplit(r, r', a, b);
      }
    }
  }

  lemma RoundCuts(env: Env, open: set<Text>, lvl: nat, enc: Enc, s: Text, st: Parser, end: nat, end': nat, more: bool)
    requires st.pos <= end <= end' <= |s|
    ensures RoundCut(env, open, lvl, enc, s, st, end, end', more)
  {
    if st.mode == InCdata {
      CdataCut(env, open, lvl, enc, s, st, end, end', more);
    } else if st.mode == InContent {
      ContentCut(env, open, lvl, enc, s, st, end, end', more);
    }
  }

  /** Go on from where an earlier call stopped. */
  ghost function Resume(env: Env, open: set<Text>, lvl: nat, enc: Enc, s: Text, first: Outcome, end: nat,
      more: bool): Outcome
    requires end <= |s| && (first.Ok? ==> first.st.pos <= end)
  {
    if first.Err? then first else Prepend(first.events, Run(env, open, lvl, enc, s, first.st, end, more))
  }

  /** Stopping at `end` and going on is the same as not stopping. */
  ghost predicate Resumes(env: Env, open: set<Text>, lvl: nat, enc: Enc, s: Text, st: Parser, end: nat, end': nat,
      more: bool)
    requires st.pos <= end <= end' <= |s|
  {
    Same(Resume(env, open, lvl, enc, s, Run(env, open, lvl, enc, s, st, end, true), end', more),
         Run(env, open, lvl, enc, s, st, end', more))
  }

  /**
    A call that sees the input only up to `end` and is then called again with more
    reports what one call with all of it would have reported.
  */
  lemma {:induction false} Cut(env: Env, open: set<Text>, lvl: nat, enc: Enc, s: Text, st: Parser, end: nat, end': nat,
      more: bool)
    requires st.pos <= end <= end' <= |s|
    ensures Resumes(env, open, lvl, enc, s, st, end, end', more)
    decreases |s| - st.pos
  {
    hide Round, Run, Merge, Resumes;
    RoundCuts(env, open, lvl, enc, s, st, end, end', more);
    RunUnfold(env, open, lvl, enc, s, st, end, true);
    RunUnfold(env, open, lvl, enc, s, st, end', more);
    var r, r' := Round(env, open, lvl, enc, s, st, end, true), Round(env, open, lvl, enc, s, st, end', more);
    if r == Stop(st, []) || (r == r' && r.Fail?) {
      CutNone(env, open, lvl, enc, s, st, end, end', more);
    } else if r == r' {
      Cut(env, open, lvl, enc, s, r.st, end, end', more);
      CutMove(env, open, lvl, enc, s, st, end, end', more);
    } else if r'.Fail? {
      RunUnfold(env, open, lvl, enc, s, r.st, end', more);
      Cut(env, open, lvl, enc, s, r.st, end, end', more);
      CutFail(env, open, lvl, enc, s, st, end, end', more);
    } else {
      var a: Text, b: Text :| DataSplit(r, r', a, b) &&
        Round(env, open, lvl, enc, s, r.st, end', more) == Move(r'.st, [Data(b)]);
      Cut(env, open, lvl, enc, s, r.st, end, end', more);
      CutData(env, open, lvl, enc, s, st, end, end', more, a, b);
    }
  }

  /** The first call had nothing to do, or met an error that stands. */
  lemma CutNone(env: Env, open: set<Text>, lvl: nat, enc: Enc, s: Text, st: Parser, end: nat, end': nat, more: bool)
    requires st.pos <= end <= end' <= |s|
    requires
      var first := Run(env, open, lvl, enc, s, st, end, true);
      first == Ok(st, []) || (first.Err? && first == Run(env, open, lvl, enc, s, st, end', more))
    ensures Resumes(env, open, lvl, enc, s, st, end, end', more)
  {
    hide Run, Merge;
    var whole := Run(env, open, lvl, enc, s, st, end', more);
    assert whole.Ok? ==> [] + whole.events == whole.events;
  }

  lemma SamePrepend(x: seq<Event>, a: Outcome, b: Outcome)
    requires Same(a, b)
    ensures Same(Prepend(x, a), Prepend(x, b))
  {
    hide Merge;
    if a.Ok? {
      MergeCongruence(x, a.events, b.events);
    }
  }

  lemma ResumePrepend(env: Env, open: set<Text>, lvl: nat, enc: Enc, s: Text, x: seq<Event>, first: Outcome, end: nat,
      more: bool)
    requires end <= |s| && (first.Ok? ==> first.st.pos <= end)
    ensures Resume(env, open, lvl, enc, s, Prepend(x, first), end, more) ==
      Prepend(x, Resume(env, open, lvl, enc, s, first, end, more))
  {
    hide Run;
    if first.Ok? {
      var second := Run(env, open, lvl, enc, s, first.st, end, more);
      assert second.Ok? ==> (x + first.events) + second.events == x + (first.events + second.events);
    }
  }

  /** The same round on both inputs. */
  lemma CutMove(env: Env, open: set<Text>, lvl: nat, enc: Enc, s: Text, st: Parser, end: nat, end': nat, more: bool)
    requires st.pos <= end <= end' <= |s|
    requires
      var r := Round(env, open, lvl, enc, s, st, end, true);
      && r.Move? && r == Round(env, open, lvl, enc, s, st, end', more)
      && Resumes(env, open, lvl, enc, s, r.st, end, end', more)
    ensures Resumes(env, open, lvl, enc, s, st, end, end', more)
  {
    hide Round, Run, Merge, Same, Prepend;
    RunUnfold(env, open, lvl, enc, s, st, end, true);
    RunUnfold(env, open, lvl, enc, s, st, end', more);
    var r := Round(env, open, lvl, enc, s, st, end, true);
    var first := Run(env, open, lvl, enc, s, r.st, end, true);
    ResumePrepend(env, open, lvl, enc, s, r.events, first, end', more);
    SamePrepend(r.events, Resume(env, open, lvl, enc, s, first, end', more),
      Run(env, open, lvl, enc, s, r.st, end', more));
  }

  /** The longer input is refused at character data of which the shorter one reports a part. */
  lemma CutFail(env: Env, open: set<Text>, lvl: nat, enc: Enc, s: Text, st: Parser, end: nat, end': nat, more: bool)
    requires st.pos <= end <= end' <= |s|
    requires
      var r, r' := Round(env, open, lvl, enc, s, st, end, true), Round(env, open, lvl, enc, s, st, end', more);
      && r.Move? && r'.Fail? && Round(env, open, lvl, enc, s, r.st, end', more) == r'
      && Resumes(env, open, lvl, enc, s, r.st, end, end', more)
    ensures Resumes(env, open, lvl, enc, s, st, end, end', more)
  {
    hide Round, Run, Merge;
    RunUnfold(env, open, lvl, enc, s, st, end, true);
    RunUnfold(env, open, lvl, enc, s, st, end', more);
    var r := Round(env, open, lvl, enc, s, st, end, true);
    RunUnfold(env, open, lvl, enc, s, r.st, end', more);
    var first := Run(env, open, lvl, enc, s, r.st, end, true);
    ResumePrepend(env, open, lvl, enc, s, r.events, first, end', more);
  }

  /** Character data that the shorter input splits. */
  lemma CutData(env: Env, open: set<Text>, lvl: nat, enc: Enc, s: Text, st: Parser, end: nat, end': nat, more: bool,
      a: Text, b: Text)
    requires st.pos <= end <= end' <= |s|
    requires
      var r, r' := Round(env, open, lvl, enc, s, st, end, true), Round(env, open, lvl, enc, s, st, end', more);
      && DataSplit(r, r', a, b)
      && Round(env, open, lvl, enc, s, r.st, end', more) == Move(r'.st, [Data(b)])
      && Resumes(env, open, lvl, enc, s, r.st, end, end', more)
    ensures Resumes(env, open, lvl, enc, s, st, end, end', more)
  {
    hide Round, Run, Merge;
    RunUnfold(env, open, lvl, enc, s, st, end, true);
    RunUnfold(env, open, lvl, enc, s, st, end', more);
    var r, r' := Round(env, open, lvl, enc, s, st, end, true), Round(env, open, lvl, enc, s, st, end', more);
    RunUnfold(env, open, lvl, enc, s, r.st, end', more);
    var first := Run(env, open, lvl, enc, s, r.st, end, true);
    var rest := Run(env, open, lvl, enc, s, r'.st, end', more);
    ResumePrepend(env, open, lvl, enc, s, [Data(a)], first, end', more);
    SamePrepend([Data(a)], Resume(env, open, lvl, enc, s, first, end', more), Prepend([Data(b)], rest));
    if rest.Ok? {
      MergeDataSplit(a, b, rest.events);
    }
  }

  lemma RunUnfold(env: Env, open: set<Text>, lvl: nat, enc: Enc, s: Text, st: Parser, end: nat, haveMore: bool)
    requires st.pos <= end <= |s|
    ensures
      var r := Round(env, open, lvl, enc, s, st, end, haveMore);
      Run(env, open, lvl, enc, s, st, end, haveMore) ==
      if r.Fail? then Err(r.error)
      else if r.Stop? then Ok(r.st, r.events)
      else Prepend(r.events, Run(env, open, lvl, enc, s, r.st, end, haveMore))
  {
    hide Round;
  }

  /** The positions at which the input is cut into chunks. */
  predicate Increasing(from: nat, ends: seq<nat>, to: nat)
    decreases |ends|
  {
    if ends == [] then from <= to else from <= ends[0] && Increasing(ends[0], ends[1..], to)
  }

  lemma {:induction false} IncreasingFrom(from: nat, from': nat, ends: seq<nat>, to: nat)
    requires Increasing(from', ends, to) && from <= from'
    ensures Increasing(from, ends, to) && from' <= to
    decreases |ends|
  {
    if ends != [] {
      IncreasingFrom(from', ends[0], ends[1..], to);
    }
  }

  /** A parse in several calls: all but the last say that more input may follow. */
  ghost function Feed(env: Env, open: set<Text>, lvl: nat, enc: Enc, s: Text, st: Parser, ends: seq<nat>): Outcome
    requires Increasing(st.pos, ends, |s|)
    decreases |ends|
  {
    if ends == [] then Run(env, open, lvl, enc, s, st, |s|, false)
    else
      IncreasingFrom(ends[0], ends[0], ends[1..], |s|);
      var first := Run(env, open, lvl, enc, s, st, ends[0], true);
      if first.Err? then first
      else
        IncreasingFrom(first.st.pos, ends[0], ends[1..], |s|);
        Prepend(first.events, Feed(env, open, lvl, enc, s, first.st, ends[1..]))
  }

  /**
    However the input is cut, the parse accepts the same texts with the same end state,
    refuses the others with the same error, and reports the same events once adjacent
    character data is merged.
  */
  lemma {:induction false} ChunkedEqualsOneShot(env: Env, open: set<Text>, lvl: nat, enc: Enc, s: Text, st: Parser,
      ends: seq<nat>)
    requires Increasing(st.pos, ends, |s|) && st.pos <= |s|
    ensures Same(Feed(env, open, lvl, enc, s, st, ends), Run(env, open, lvl, enc, s, st, |s|, false))
    decreases |ends|
  {
    hide Run, Merge;
    if ends != [] {
      IncreasingFrom(ends[0], ends[0], ends[1..], |s|);
      Cut(env, open, lvl, enc, s, st, ends[0], |s|, false);
      var first := Run(env, open, lvl, enc, s, st, ends[0], true);
      if first.Ok? {
        IncreasingFrom(first.st.pos, ends[0], ends[1..], |s|);
        ChunkedEqualsOneShot(env, open, lvl, enc, s, first.st, ends[1..]);
        SamePrepend(first.events, Feed(env, open, lvl, enc, s, first.st, ends[1..]),
                    Run(env, open, lvl, enc, s, first.st, |s|, false));
      }
    }
  }

  // ----------------------------------------------------------------- nesting

  function Names(stack: seq<Tag>): seq<Text> { seq(|stack|, i requires 0 <= i < |stack| => stack[i].name) }

  datatype Nesting = Nesting(open: seq<Text>) | Broken

  /** Follow the element events from the open names `n`: an end closes the innermost start. */
  function Nest(n: Nesting, events: seq<Event>): Nesting
  {
    if events == [] || n.Broken? then n
    else
      var before := Nest(n, events[..|events| - 1]);
      NestOne(before, events[|events| - 1])
  }

  function NestOne(n: Nesting, e: Event): Nesting
  {
    if n.Broken? then n
    else match e
      case Start(name, _) => Nesting(n.open + [name])
      case End(name) => if n.open != [] && n.open[|n.open| - 1] == name then Nesting(n.open[..|n.open| - 1]) else Broken
      case _ => n
  }

  lemma {:induction false} NestConcat(n: Nesting, a: seq<Event>, b: seq<Event>)
    ensures Nest(n, a + b) == Nest(Nest(n, a), b)
  {
    if b == [] {
      assert a + b == a;
    } else {
      assert (a + b)[..|a + b| - 1] == a + b[..|b| - 1];
      NestConcat(n, a, b[..|b| - 1]);
      NestBroken(b);
      NestBroken(b[..|b| - 1]);
    }
  }

  lemma {:induction false} NestBroken(events: seq<Event>)
    ensures Nest(Broken, events) == Broken
  {
  }

  /** The open tags of `a` below level `lvl` are still open, untouched, in `b`. */
  predicate Keeps(env: Env, lvl: nat, a: seq<Tag>, b: seq<Tag>)
  {
    var k := if lvl <= env.base then 0 else lvl - env.base;
    k <= |a| ==> k <= |b| && b[..k] == a[..k]
  }

  predicate WellNested(env: Env, lvl: nat, a: seq<Tag>, b: seq<Tag>, events: seq<Event>)
  {
    Nest(Nesting(Names(a)), events) == Nesting(Names(b)) && Keeps(env, lvl, a, b)
  }

  lemma WellNestedTrans(env: Env, lvl: nat, a: seq<Tag>, b: seq<Tag>, c: seq<Tag>, x: seq<Event>, y: seq<Event>)
    requires WellNested(env, lvl, a, b, x) && WellNested(env, lvl, b, c, y)
    ensures WellNested(env, lvl, a, c, x + y)
  {
    hide Nest;
    NestConcat(Nesting(Names(a)), x, y);
  }

  lemma NestQuiet(n: Nesting, e: Event)
    requires !e.Start? && !e.End?
    ensures Nest(n, [e]) == n && Nest(n, []) == n
  {
    assert [e][..0] == [];
  }

  lemma NestStartEnd(n: seq<Text>, name: Text, values: seq<Text>)
    ensures Nest(Nesting(n), [Start(name, values)]) == Nesting(n + [name])
    ensures Nest(Nesting(n), [Start(name, values), End(name)]) == Nesting(n)
    ensures Nest(Nesting(n + [name]), [End(name)]) == Nesting(n)
  {
    var a, b := [Start(name, values)], [End(name)];
    assert a[..0] == [] && b[..0] == [];
    assert (n + [name])[..|n|] == n;
    assert [Start(name, values), End(name)] == a + b;
    NestConcat(Nesting(n), a, b);
  }

  lemma ActNested(env: Env, open: set<Text>, lvl: nat, enc: Enc, s: Text, st: Parser, tok: Token, next: nat)
    requires st.pos < next <= |s|
    requires Act(env, open, lvl, enc, s, st, tok, next).Move? && lvl <= Level(env, st.stack)
    ensures
      var r := Act(env, open, lvl, enc, s, st, tok, next);
      && WellNested(env, lvl, st.stack, r.st.stack, r.events) && lvl <= Level(env, r.st.stack)
      && (r.st.mode == InEpilog ==> lvl == 0)
  {
    hide Nest, CharRefNumber, NameEnd;
    var r := Act(env, open, lvl, enc, s, st, tok, next);
    if tok.StartTag? {
      NestStartEnd(Names(st.stack), r.events[0].name, r.events[0].values);
      assert Names(r.st.stack) == Names(st.stack) + [r.events[0].name];
    } else if tok.EmptyElement? {
      NestStartEnd(Names(st.stack), r.events[0].name, r.events[0].values);
    } else if tok.EndTag? {
      NestStartEnd(Names(r.st.stack), r.events[0].ename, []);
      assert Names(st.stack) == Names(r.st.stack) + [r.events[0].ename];
    } else if r.events != [] {
      NestQuiet(Nesting(Names(st.stack)), r.events[0]);
    } else {
      NestQuiet(Nesting(Names(st.stack)), EndCdata);
    }
  }

  /** Element events are properly nested over any accepted call, entities included. */
  lemma {:induction false} RunNested(env: Env, open: set<Text>, lvl: nat, enc: Enc, s: Text, st: Parser, end: nat,
      haveMore: bool)
    requires st.pos <= end <= |s| && lvl <= Level(env, st.stack)
    requires Run(env, open, lvl, enc, s, st, end, haveMore).Ok?
    ensures
      var r := Run(env, open, lvl, enc, s, st, end, haveMore);
      && WellNested(env, lvl, st.stack, r.st.stack, r.events) && lvl <= Level(env, r.st.stack)
      && (!haveMore && r.st.mode != InEpilog ==> Level(env, r.st.stack) == lvl)
      && (r.st.mode == InEpilog ==> lvl == 0 || st.mode == InEpilog)
    decreases Unopened(env.entities, open), |s| - st.pos, 1
  {
    hide Run, Round, Nest;
    RunUnfold(env, open, lvl, enc, s, st, end, haveMore);
    RoundNested(env, open, lvl, enc, s, st, end, haveMore);
    var r := Round(env, open, lvl, enc, s, st, end, haveMore);
    if r.Move? {
      RunNested(env, open, lvl, enc, s, r.st, end, haveMore);
      var rest := Run(env, open, lvl, enc, s, r.st, end, haveMore);
      WellNestedTrans(env, lvl, st.stack, r.st.stack, rest.st.stack, r.events, rest.events);
    }
  }

  lemma {:induction false} RoundNested(env: Env, open: set<Text>, lvl: nat, enc: Enc, s: Text, st: Parser, end: nat,
      haveMore: bool)
    requires st.pos <= end <= |s| && lvl <= Level(env, st.stack)
    requires !Round(env, open, lvl, enc, s, st, end, haveMore).Fail?
    ensures
      var r := Round(env, open, lvl, enc, s, st, end, haveMore);
      && WellNested(env, lvl, st.stack, r.st.stack, r.events) && lvl <= Level(env, r.st.stack)
      && (r.Stop? && !haveMore && r.st.mode != InEpilog ==> Level(env, r.st.stack) == lvl)
      && (r.st.mode == InEpilog ==> lvl == 0 || st.mode == InEpilog)
    decreases Unopened(env.entities, open), |s| - st.pos, 0
  {
    hide ContentTok, CdataTok, Nest, Act, Reference;
    var r := Round(env, open, lvl, enc, s, st, end, haveMore);
    if r.events == [] {
      NestQuiet(Nesting(Names(st.stack)), EndCdata);
    } else {
      NestQuiet(Nesting(Names(st.stack)), if r.events[0].Start? || r.events[0].End? then EndCdata else r.events[0]);
    }
    if st.mode == InContent {
      var t := ContentTok(enc, s, st.pos, end);
      if t.Tok? && t.tok == EntityRef {
        ReferenceNested(env, open, lvl, s, st, t.next);
      } else if t.Tok? {
        ActNested(env, open, lvl, enc, s, st, t.tok, t.next);
      }
    }
  }

  lemma {:induction false} ReferenceNested(env: Env, open: set<Text>, lvl: nat, s: Text, st: Parser, next: nat)
    requires st.pos < next <= |s| && lvl <= Level(env, st.stack)
    requires Reference(env, open, s, st, next).Move?
    ensures
      var r := Reference(env, open, s, st, next);
      r.st == Parser(st.stack, InContent, next) && WellNested(env, lvl, st.stack, st.stack, r.events)
    decreases Unopened(env.entities, open), |s| - st.pos, 0, 0
  {
    hide Run, Nest;
    var r := Reference(env, open, s, st, next);
    var name := if st.pos + 1 <= next - 1 then s[st.pos + 1..next - 1] else [];
    if Predefined(name) != 0 || name !in env.entities || !env.entities[name].Internal? || !env.expand {
      NestQuiet(Nesting(Names(st.stack)), r.events[0]);
    } else {
      var text := env.entities[name].text;
      OpenOne(env.entities, open, name);
      var start := Parser(st.stack, InContent, 0);
      EntityBalance(env, open + {name}, text, st.stack);
    }
  }

  /**
    Replacement text parsed as an internal entity leaves the whole tag stack as it found
    it: every element it opens it closes, and it closes no other.
  */
  lemma {:induction false} EntityBalance(env: Env, open: set<Text>, text: Text, stack: seq<Tag>)
    requires Level(env, stack) > 0
    requires Run(env, open, Level(env, stack), env.intern, text, Parser(stack, InContent, 0), |text|, false).Ok?
    ensures
      var r := Run(env, open, Level(env, stack), env.intern, text, Parser(stack, InContent, 0), |text|, false);
      r.st.stack == stack && Nest(Nesting(Names(stack)), r.events) == Nesting(Names(stack))
    decreases Unopened(env.entities, open), |text|, 2
  {
    hide Run, Nest;
    var lvl := Level(env, stack);
    RunNested(env, open, lvl, env.intern, text, Parser(stack, InContent, 0), |text|, false);
    var r := Run(env, open, lvl, env.intern, text, Parser(stack, InContent, 0), |text|, false);
    assert r.st.stack[..|stack|] == stack[..|stack|] == stack;
  }

  /**
    A document parsed from its root tag to the hand-over to the epilog: starts and ends
    match up completely, and no tag stays open.
  */
  lemma DocumentNested(env: Env, s: Text, ends: seq<nat>)
    requires env.base == 0 && Increasing(0, ends, |s|)
    requires Feed(env, {}, 0, env.doc, s, Parser([], InContent, 0), ends).Ok?
    ensures
      var r := Run(env, {}, 0, env.doc, s, Parser([], InContent, 0), |s|, false);
      && r.Ok? && r.st.stack == [] && r.st.mode == InEpilog
      && Nest(Nesting([]), r.events) == Nesting([])
      && Merge(Feed(env, {}, 0, env.doc, s, Parser([], InContent, 0), ends).events) == Merge(r.events)
  {
    hide Nest, Merge;
    var st := Parser([], InContent, 0);
    ChunkedEqualsOneShot(env, {}, 0, env.doc, s, st, ends);
    DocumentEnds(env, s, st);
    hide Run;
    RunNested(env, {}, 0, env.doc, s, st, |s|, false);
    assert Names([]) == [];
  }

  /** At tag level 0 a document is only accepted through the epilog. */
  lemma {:induction false} DocumentEnds(env: Env, s: Text, st: Parser)
    requires env.base == 0 && st.pos <= |s|
    requires Run(env, {}, 0, env.doc, s, st, |s|, false).Ok?
    requires st.mode == InEpilog ==> st.stack == []
    ensures
      var r := Run(env, {}, 0, env.doc, s, st, |s|, false);
      r.st.mode == InEpilog && r.st.stack == []
    decreases |s| - st.pos
  {
    hide Run;
    RunUnfold(env, {}, 0, env.doc, s, st, |s|, false);
    RoundEnds(env, s, st);
    var r := Round(env, {}, 0, env.doc, s, st, |s|, false);
    if r.Move? {
      DocumentEnds(env, s, r.st);
    }
  }

  lemma RoundEnds(env: Env, s: Text, st: Parser)
    requires env.base == 0 && st.pos <= |s|
    requires st.mode == InEpilog ==> st.stack == []
    ensures
      var r := Round(env, {}, 0, env.doc, s, st, |s|, false);
      && (r.Stop? ==> r.st == st && st.mode == InEpilog)
      && (r.Move? && r.st.mode == InEpilog ==> r.st.stack == [])
  {
    hide ContentTok, CdataTok, Reference, Act;
    if st.mode == InContent {
      var t := ContentTok(env.doc, s, st.pos, |s|);
      if t.Tok? && t.tok != EntityRef {
        ActEnds(env, env.doc, s, st, t.tok, t.next);
      }
    }
  }

  lemma ActEnds(env: Env, enc: Enc, s: Text, st: Parser, tok: Token, next: nat)
    requires env.base == 0 && st.pos < next <= |s|
    ensures
      var r := Act(env, {}, 0, enc, s, st, tok, next);
      r.Move? && r.st.mode == InEpilog ==> r.st.stack == []
  {
    hide NameEnd, CharRefNumber;
  }

  // ------------------------------------------------------------------ locality

  lemma {:induction false} NameEndLocal(enc: Enc, s: Text, s': Text, i: nat, end: nat)
    requires Alike(s, s', end) && i <= end
    ensures NameEnd(enc, s, i, end) == NameEnd(enc, s', i, end)
    decreases end - i
  {
    hide ByteType;
    if i < end {
      AlikeAt(s, s', end);
      var c := ByteType(enc, s[i]);
      var n := if LeadLen(c) > 0 then LeadLen(c) else 1;
      if i + n <= end { NameEndLocal(enc, s, s', i + n, end); }
    }
  }

  lemma {:induction false} DigitsLocal(s: Text, s': Text, i: nat, semi: nat, end: nat, radix: nat, acc: nat)
    requires Alike(s, s', end) && i <= semi <= end
    ensures Digits(s, i, semi, radix, acc) == Digits(s', i, semi, radix, acc)
    decreases semi - i
  {
    hide HexDigit;
    if i < semi {
      AlikeAt(s, s', end);
      DigitsLocal(s, s', i + 1, semi, end, radix, acc * radix + HexDigit(s[i]));
    }
  }

  lemma CharRefLocal(s: Text, s': Text, i: nat, next: nat, end: nat)
    requires Alike(s, s', end) && i + 4 <= next <= end
    ensures CharRefNumber(s, i, next) == CharRefNumber(s', i, next)
  {
    hide Digits, CheckCharRef;
    AlikeAt(s, s', end);
    DigitsLocal(s, s', i + 2, next - 1, end, 10, 0);
    DigitsLocal(s, s', i + 3, next - 1, end, 16, 0);
  }

  lemma {:induction false} BlanksLocal(enc: Enc, s: Text, s': Text, i: nat, end: nat)
    requires Alike(s, s', end) && i <= end
    ensures SkipBlanks(enc, s, i, end) == SkipBlanks(enc, s', i, end)
    decreases end - i
  {
    hide ByteType;
    if i < end {
      AlikeAt(s, s', end);
      BlanksLocal(enc, s, s', i + 1, end);
    }
  }

  lemma PiLocal(enc: Enc, s: Text, s': Text, i: nat, next: nat)
    requires Alike(s, s', next) && i <= next
    ensures PiReport(enc, s, i, next) == PiReport(enc, s', i, next)
  {
    hide NameEnd, SkipBlanks, Normalised;
    if i + 4 <= next {
      AlikeAt(s, s', next);
      NameEndLocal(enc, s, s', i + 2, next);
      BlanksLocal(enc, s, s', NameEnd(enc, s, i + 2, next), next);
    }
  }

  lemma ActLocal(env: Env, open: set<Text>, lvl: nat, enc: Enc, s: Text, s': Text, st: Parser, tok: Token, next: nat,
      end: nat)
    requires Alike(s, s', end) && st.pos < next <= end
    ensures Act(env, open, lvl, enc, s, st, tok, next) == Act(env, open, lvl, enc, s', st, tok, next)
  {
    hide NameEnd, CharRefNumber, Utf8Encode, PiReport;
    AlikeAt(s, s', end);
    AlikeLess(s, s', next, end);
    PiLocal(enc, s, s', st.pos, next);
    if st.pos + 4 <= next { CharRefLocal(s, s', st.pos, next, end); }
    NameEndLocal(enc, s, s', st.pos + 1, next);
    if st.pos + 2 <= next { NameEndLocal(enc, s, s', st.pos + 2, next); }
  }

  lemma AlikeLess(s: Text, s': Text, end: nat, end': nat)
    requires Alike(s, s', end') && end <= end'
    ensures Alike(s, s', end)
  {
    AlikeAt(s, s', end');
  }

  lemma RoundLocal(env: Env, open: set<Text>, lvl: nat, enc: Enc, s: Text, s': Text, st: Parser, end: nat,
      haveMore: bool)
    requires Alike(s, s', end) && st.pos <= end
    ensures Round(env, open, lvl, enc, s, st, end, haveMore) == Round(env, open, lvl, enc, s', st, end, haveMore)
  {
    hide ContentTok, CdataTok, Act, Included;
    AlikeAt(s, s', end);
    ContentTokLocal(enc, s, s', st.pos, end);
    CdataTokLocal(enc, s, s', st.pos, end);
    var t := ContentTok(enc, s, st.pos, end);
    if t.Tok? {
      ActLocal(env, open, lvl, enc, s, s', st, t.tok, t.next, end);
    }
  }

  /** A call depends on no byte from `end` on, whatever the buffer holds there. */
  lemma {:induction false} RunLocal(env: Env, open: set<Text>, lvl: nat, enc: Enc, s: Text, s': Text, st: Parser,
      end: nat, haveMore: bool)
    requires Alike(s, s', end) && st.pos <= end
    ensures Run(env, open, lvl, enc, s, st, end, haveMore) == Run(env, open, lvl, enc, s', st, end, haveMore)
    decreases end - st.pos
  {
    hide Run, Round;
    RunUnfold(env, open, lvl, enc, s, st, end, haveMore);
    RunUnfold(env, open, lvl, enc, s', st, end, haveMore);
    RoundLocal(env, open, lvl, enc, s, s', st, end, haveMore);
    var r := Round(env, open, lvl, enc, s, st, end, haveMore);
    if r.Move? {
      RunLocal(env, open, lvl, enc, s, s', r.st, end, haveMore);
    }
  }
}
