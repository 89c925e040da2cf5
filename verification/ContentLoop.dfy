/**
  doContent, doCdataSection and processInternalEntity in their own form: a parser object
  whose tag stack, tag level, processor and open flags are updated token by token. The
  loops are proved to do what Content.Run says, so every result about runs is about them.
*/
module ContentLoop {
  import opened Scanner
  import opened Tokenizer
  import opened References
  import opened Content
  import opened Lines

  datatype Status = Fine | Failed(error: Error)

  class XmlParser {
    const env: Env
    var tagStack: seq<Tag>
    var tagLevel: nat
    var processor: Mode
    var openEntities: set<Text>  // entities whose open flag is set
    var calls: seq<Event>        // handler calls made so far

    ghost predicate Valid()
      reads this
    {
      tagLevel == Level(env, tagStack)
    }

    constructor (env: Env, openEntities: set<Text>)
      ensures Valid() && this.env == env && this.openEntities == openEntities
      ensures tagStack == [] && processor == InContent && calls == []
    {
      this.env, this.openEntities := env, openEntities;
      tagStack, tagLevel, processor, calls := [], env.base, InContent, [];
    }

    /** The parser stands where `r` ends a call that began with the calls `before`. */
    ghost predicate Reached(r: Outcome, status: Status, next: nat, before: seq<Event>, open: set<Text>)
      reads this
    {
      match r
      case Err(e) => status == Failed(e)
      case Ok(st, events) =>
        && status == Fine && Valid() && openEntities == open
        && Parser(tagStack, processor, next) == st && calls == before + events
    }

    /** The call `whole` has come as far as `next`; the rest of it is a call from here. */
    ghost predicate Advanced(whole: Outcome, lvl: nat, enc: Enc, s: Text, next: nat, end: nat, haveMore: bool,
        before: seq<Event>)
      requires next <= end <= |s|
      reads this
    {
      exists events :: calls == before + events
        && whole == Prepend(events,
          Run(env, openEntities, lvl, enc, s, Parser(tagStack, processor, next), end, haveMore))
    }

    /** Two advances in a row are one. */
    lemma AdvancedTrans(a: Outcome, events: seq<Event>, before: seq<Event>, mid: seq<Event>, b: Outcome,
                        lvl: nat, enc: Enc, s: Text, next: nat, end: nat, haveMore: bool)
      requires next <= end <= |s| && a == Prepend(events, b) && mid == before + events
      requires Advanced(b, lvl, enc, s, next, end, haveMore, mid)
      ensures Advanced(a, lvl, enc, s, next, end, haveMore, before)
    {
      hide Run;
      var rest := Run(env, openEntities, lvl, enc, s, Parser(tagStack, processor, next), end, haveMore);
      var more :| calls == mid + more && b == Prepend(more, rest);
      PrependMore(events, more, rest);
      assert calls == before + (events + more);
    }

    lemma ReachedAfter(a: Outcome, events: seq<Event>, before: seq<Event>, mid: seq<Event>, b: Outcome, status: Status,
        next: nat)
      requires a == Prepend(events, b) && mid == before + events
      requires Reached(b, status, next, mid, openEntities)
      ensures Reached(a, status, next, before, openEntities)
    {
      if b.Ok? {
        assert before + (events + b.events) == (before + events) + b.events;
      }
    }

    method Report(e: Event)
      modifies this`calls
      ensures calls == old(calls) + [e]
    {
      calls := calls + [e];
    }

    /** nameLength */
    method NameLength(enc: Enc, s: Text, start: nat, end: nat) returns (ptr: nat)
      requires start <= end <= |s|
      ensures ptr == NameEnd(enc, s, start, end)
    {
      hide ByteType;
      ptr := start;
      while ptr != end
        invariant start <= ptr <= end
        invariant NameEnd(enc, s, ptr, end) == NameEnd(enc, s, start, end)
      {
        var c := ByteType(enc, s[ptr]);
        var n := LeadLen(c);
        if n == 0 && c in {NMSTRT, COLON, HEX, DIGIT, NAME, MINUS} {
          n := 1;
        }
        if n == 0 || end - ptr < n {
          return;
        }
        ptr := ptr + n;
      }
    }

    /** XML_TOK_START_TAG_... and XML_TOK_EMPTY_ELEMENT_... */
    method HandleOpenTag(enc: Enc, s: Text, ptr: nat, next: nat, empty: bool) returns (status: Status)
      requires Valid() && processor == InContent && ptr < next <= |s|
      modifies this`tagStack, this`tagLevel, this`processor, this`calls
      ensures Took(OpenTag(env, openEntities, enc, s, Parser(old(tagStack), InContent, ptr), next, empty), status, next,
        old(calls))
    {
      hide NameEnd;
      var nameEnd := NameLength(enc, s, ptr + 1, next);
      var name := s[ptr + 1..nameEnd];
      var atts := env.storeAtts(enc, openEntities, tagStack, s[ptr..next]);
      if atts.AttsError? {
        return Failed(AttributeError(atts.code));
      }
      Report(Start(name, atts.values));
      if empty {
        Report(End(name));
        if tagLevel == 0 {
          processor := InEpilog;
        }
      } else {
        tagStack := tagStack + [Tag(name, atts.bindings)];
        tagLevel := tagLevel + 1;
      }
      status := Fine;
    }

    /** XML_TOK_END_TAG */
    method HandleCloseTag(startTagLevel: nat, enc: Enc, s: Text, ptr: nat, next: nat) returns (status: Status)
      requires Valid() && processor == InContent && ptr + 1 < next <= |s| && env.base <= startTagLevel
      modifies this`tagStack, this`tagLevel, this`processor, this`calls
      ensures Took(CloseTag(env, startTagLevel, enc, s, Parser(old(tagStack), InContent, ptr), next), status, next,
        old(calls))
    {
      hide NameEnd;
      if tagLevel == startTagLevel || tagStack == [] {
        return Failed(AsyncEntity);
      }
      var tag := tagStack[|tagStack| - 1];
      var nameEnd := NameLength(enc, s, ptr + 2, next);
      var name := s[ptr + 2..nameEnd];
      if tag.name != name {
        return Failed(TagMismatch);
      }
      tagStack := tagStack[..|tagStack| - 1];
      tagLevel := tagLevel - 1;
      Report(End(name));
      if tagLevel == 0 {
        processor := InEpilog;
      }
      status := Fine;
    }

    /** skipS */
    method SkipS(enc: Enc, s: Text, start: nat, end: nat) returns (ptr: nat)
      requires start <= end <= |s|
      ensures ptr == SkipBlanks(enc, s, start, end)
    {
      hide ByteType;
      ptr := start;
      while ptr < end && IsSpace(ByteType(enc, s[ptr]))
        invariant start <= ptr <= end
        invariant SkipBlanks(enc, s, ptr, end) == SkipBlanks(enc, s, start, end)
      {
        ptr := ptr + 1;
      }
    }

    method ReportProcessingInstruction(enc: Enc, s: Text, ptr: nat, next: nat)
      requires ptr <= next <= |s|
      modifies this`calls
      ensures calls == old(calls) + [PiReport(enc, s, ptr, next)]
    {
      hide NameEnd, SkipBlanks, Normalised;
      if next < ptr + 4 {
        Report(PiEvent([], []));
        return;
      }
      var start := ptr + 2;
      var tem := NameLength(enc, s, start, next);
      var target := s[start..tem];
      var from := SkipS(enc, s, tem, next);
      Report(PiEvent(target, Normalised(Slice(s, from, next - 2))));
    }

    method ReportComment(s: Text, ptr: nat, next: nat)
      requires ptr <= next <= |s|
      modifies this`calls
      ensures calls == old(calls) + [CommentReport(s, ptr, next)]
    {
      hide Normalised;
      var data := if next < ptr + 7 then [] else Normalised(s[ptr + 4..next - 3]);
      Report(CommentEvent(data));
    }

    /** What the parser holds after a token's work `m`. */
    ghost predicate Took(m: Step, status: Status, next: nat, before: seq<Event>)
      reads this
    {
      if m.Fail? then status == Failed(m.error)
      else status == Fine && Valid() && Parser(tagStack, processor, next) == m.st && calls == before + m.events
    }

    /** The content switch, save for entity references. */
    method Handle(startTagLevel: nat, enc: Enc, s: Text, ptr: nat, tok: Token, next: nat) returns (status: Status)
      requires Valid() && processor == InContent && ptr < next <= |s| && env.base <= startTagLevel
      modifies this`tagStack, this`tagLevel, this`processor, this`calls
      ensures Took(Act(env, openEntities, startTagLevel, enc, s, Parser(old(tagStack), InContent, ptr), tok, next),
        status, next, old(calls))
    {
      hide OpenTag, CloseTag, CharRefNumber, Utf8Encode, PiReport, CommentReport;
      status := Fine;
      match tok
      case StartTag(_) => status := HandleOpenTag(enc, s, ptr, next, false);
      case EmptyElement(_) => status := HandleOpenTag(enc, s, ptr, next, true);
      case EndTag =>
        if ptr + 1 < next {
          status := HandleCloseTag(startTagLevel, enc, s, ptr, next);
        } else {
          status := Failed(InvalidToken);
        }
      case CharRef =>
        if ptr + 4 > next {
          return Failed(BadCharRef);
        }
        var n := CharRefNumber(s, ptr, next);
        if n < 0 {
          return Failed(BadCharRef);
        }
        Report(Data(Utf8Encode(n)));
      case XmlDecl => status := Failed(MisplacedXmlPi);
      case DataNewline => Report(Data([0xA]));
      case DataChars => Report(Data(s[ptr..next]));
      case CdataOpen =>
        Report(StartCdata);
        processor := InCdata;
      case Pi => ReportProcessingInstruction(enc, s, ptr, next);
      case Comment => ReportComment(s, ptr, next);
      case _ =>
    }

    /** The end of the text, with `last` still to be reported. */
    method HandleEnd(startTagLevel: nat, ptr: nat, end: nat, last: seq<Event>) returns (status: Status)
      requires Valid() && processor == InContent
      modifies this`calls
      ensures Took(AtEnd(env, startTagLevel, Parser(tagStack, InContent, ptr), end, last), status, end, old(calls))
    {
      calls := calls + last;
      if startTagLevel == 0 {
        return Failed(NoElements);
      }
      if tagLevel != startTagLevel {
        return Failed(AsyncEntity);
      }
      status := Fine;
    }

    /** A token that cannot be decided yet. */
    method HandleUndecided(startTagLevel: nat, s: Text, ptr: nat, r: Result, end: nat, haveMore: bool)
        returns (status: Status, next: nat)
      requires Valid() && processor != InEpilog && ptr <= end <= |s|
      modifies this`calls
      ensures Took(Undecided(env, startTagLevel, s, Parser(tagStack, processor, ptr), r, end, haveMore), status, next,
        old(calls))
    {
      next := ptr;
      if r.Invalid? {
        return Failed(InvalidToken), next;
      }
      if haveMore {
        return Fine, ptr;
      }
      if processor == InCdata {
        return Failed(if r.PartialChar? then PartialCharacter else UnclosedCdata), next;
      }
      match r
      case PartialChar => status := Failed(PartialCharacter);
      case NoTok => status := HandleEnd(startTagLevel, ptr, end, []); next := end;
      case TrailingCr => status := HandleEnd(startTagLevel, ptr, end, [Data([0xA])]); next := end;
      case TrailingRsqb => status := HandleEnd(startTagLevel, ptr, end, [Data(s[ptr..end])]); next := end;
      case _ => status := Failed(UnclosedToken);
    }

    /** The switch of doCdataSection. */
    method HandleCdata(s: Text, ptr: nat, tok: Token, next: nat)
      requires processor == InCdata && ptr < next <= |s| && tok in {DataChars, DataNewline, CdataClose}
      modifies this`processor, this`calls
      ensures
        var m := CdataAct(s, Parser(tagStack, InCdata, ptr), tok, next);
        && m.Move? && m.st == Parser(tagStack, processor, next) && calls == old(calls) + m.events
        && processor == if tok == CdataClose then InContent else InCdata
    {
      if tok == CdataClose {
        Report(EndCdata);
        processor := InContent;
      } else if tok == DataNewline {
        Report(Data([0xA]));
      } else {
        Report(Data(s[ptr..next]));
      }
    }

    /** One round of doCdataSection; `done` when the call is over. */
    method CdataOnce(startTagLevel: nat, enc: Enc, s: Text, start: nat, end: nat, haveMore: bool)
      returns (status: Status, done: bool, next: nat)
      requires Valid() && processor == InCdata && start <= end <= |s|
      modifies this`processor, this`calls
      ensures
        var whole := Run(env, openEntities, startTagLevel, enc, s, Parser(tagStack, InCdata, start), end, haveMore);
        if done then Reached(whole, status, next, old(calls), openEntities)
        else
          && status == Fine && processor != InEpilog && start < next <= end
          && Advanced(whole, startTagLevel, enc, s, next, end, haveMore, old(calls))
    {
      hide Run, Round, CdataTok, Undecided, CdataAct;
      ghost var st := Parser(tagStack, InCdata, start);
      RunUnfold(env, openEntities, startTagLevel, enc, s, st, end, haveMore);
      CdataRound(env, openEntities, startTagLevel, enc, s, st, end, haveMore);
      var r := NextCdataTok(enc, s, start, end);
      if !r.Tok? {
        status, next := HandleUndecided(startTagLevel, s, start, r, end, haveMore);
        return status, true, next;
      }
      HandleCdata(s, start, r.tok, r.next);
      return Fine, false, r.next;
    }

    /** doCdataSection: `closed` once "]]>" has been read. */
    method DoCdataSection(startTagLevel: nat, enc: Enc, s: Text, start: nat, end: nat, haveMore: bool)
      returns (status: Status, closed: bool, next: nat)
      requires Valid() && processor == InCdata && start <= end <= |s|
      modifies this`processor, this`calls
      ensures
        var whole := Run(env, openEntities, startTagLevel, enc, s, Parser(tagStack, InCdata, start), end, haveMore);
        if !closed then Reached(whole, status, next, old(calls), openEntities)
        else
          && status == Fine && processor == InContent && start < next <= end
          && Advanced(whole, startTagLevel, enc, s, next, end, haveMore, old(calls))
    {
      hide Run;
      next := start;
      ghost var whole := Run(env, openEntities, startTagLevel, enc, s, Parser(tagStack, InCdata, start), end, haveMore);
      PrependNone(whole);
      assert calls == old(calls) + [];
      while processor == InCdata
        invariant start <= next <= end && processor != InEpilog && Valid() && (processor == InCdata || start < next)
        invariant Advanced(whole, startTagLevel, enc, s, next, end, haveMore, old(calls))
        decreases end - next
      {
        ghost var rest := Run(env, openEntities, startTagLevel, enc, s, Parser(tagStack, processor, next), end,
          haveMore);
        ghost var events :| calls == old(calls) + events && whole == Prepend(events, rest);
        ghost var mid := calls;
        var done;
        status, done, next := CdataOnce(startTagLevel, enc, s, next, end, haveMore);
        if done {
          ReachedAfter(whole, events, old(calls), mid, rest, status, next);
          closed := false;
          return;
        }
        AdvancedTrans(whole, events, old(calls), mid, rest, startTagLevel, enc, s, next, end, haveMore);
      }
      status, closed := Fine, true;
    }

    /** XML_TOK_ENTITY_REF */
    method HandleReference(s: Text, ptr: nat, next: nat) returns (status: Status)
      requires Valid() && processor == InContent && ptr < next <= |s|
      modifies this
      ensures Took(Reference(env, old(openEntities), s, Parser(old(tagStack), InContent, ptr), next), status, next,
        old(calls))
      ensures status == Fine ==> openEntities == old(openEntities)
      decreases Unopened(env.entities, openEntities), |s| - ptr, 0
    {
      hide Run, Predefined, Unopened, Level;
      var name := if ptr + 1 <= next - 1 then s[ptr + 1..next - 1] else [];
      var ch := Predefined(name);
      status := Fine;
      if ch != 0 {
        Report(Data([ch]));
        return;
      }
      if !env.hasParamRefs || env.standalone {
        if name !in env.entities {
          return Failed(UndefinedEntity);
        } else if !env.entities[name].inside {
          return Failed(DeclaredInPe);
        }
      } else if name !in env.entities {
        Report(Skipped(name));
        return;
      }
      if name in openEntities {
        return Failed(RecursiveRef);
      }
      match env.entities[name]
      case Unparsed(_) => status := Failed(BinaryRef);
      case External(_) =>
        openEntities := openEntities + {name};
        var ok := env.external(openEntities, tagStack, name);
        openEntities := openEntities - {name};
        Report(ExternalRef(name));
        if !ok {
          status := Failed(ExternalHandling);
        }
      case Internal(text, _) =>
        if !env.expand {
          Report(Skipped(name));
        } else if tagLevel == 0 {
          status := Failed(NoElements);
        } else {
          status := ProcessInternalEntity(name, text);
        }
    }

    /** processInternalEntity: the open flag is set while the replacement text is parsed. */
    method ProcessInternalEntity(name: Text, text: Text) returns (status: Status)
      requires Valid() && processor == InContent && name in env.entities && name !in openEntities && tagLevel > 0
      modifies this
      ensures
        var r := Run(env, old(openEntities) + {name}, old(tagLevel), env.intern, text,
          Parser(old(tagStack), InContent, 0), |text|, false);
        match r
        case Err(e) => status == Failed(e)
        case Ok(st, events) =>
          && status == Fine && Valid() && tagStack == st.stack && processor == InContent
          && calls == old(calls) + events
      ensures status == Fine ==> openEntities == old(openEntities)
      decreases Unopened(env.entities, openEntities), 0, 1
    {
      hide Run;
      OpenOne(env.entities, openEntities, name);
      ghost var open := openEntities;
      openEntities := openEntities + {name};
      ghost var level := tagLevel;
      ghost var r := Run(env, openEntities, level, env.intern, text, Parser(tagStack, InContent, 0), |text|, false);
      if r.Ok? {
        RunNested(env, openEntities, level, env.intern, text, Parser(tagStack, InContent, 0), |text|, false);
        InternalEndsInContent(env, openEntities, level, env.intern, text, Parser(tagStack, InContent, 0));
      }
      var next;
      status, next := DoContent(tagLevel, env.intern, text, 0, |text|, false);
      if status == Fine {
        openEntities := openEntities - {name};
        assert openEntities == open;
      }
    }

    /** One round of doContent on content; `done` when the call is over. */
    method ContentOnce(startTagLevel: nat, enc: Enc, s: Text, start: nat, end: nat, haveMore: bool)
      returns (status: Status, done: bool, next: nat)
      requires Valid() && processor == InContent && start <= end <= |s| && env.base <= startTagLevel
      modifies this
      ensures
        var whole := Run(env, old(openEntities), startTagLevel, enc, s, Parser(old(tagStack), InContent, start), end,
          haveMore);
        if done then Reached(whole, status, next, old(calls), old(openEntities))
        else
          && status == Fine && Valid() && openEntities == old(openEntities) && start < next <= end
          && Advanced(whole, startTagLevel, enc, s, next, end, haveMore, old(calls))
      decreases Unopened(env.entities, openEntities), |s|, 1
    {
      hide Run, Round, ContentTok, Undecided, Reference, Act;
      ghost var st := Parser(tagStack, processor, start);
      RunUnfold(env, openEntities, startTagLevel, enc, s, st, end, haveMore);
      ContentRound(env, openEntities, startTagLevel, enc, s, st, end, haveMore);
      var r := NextContentTok(enc, s, start, end);
      if !r.Tok? {
        status, next := HandleUndecided(startTagLevel, s, start, r, end, haveMore);
        return status, true, next;
      }
      if r.tok == EntityRef {
        status := HandleReference(s, start, r.next);
      } else {
        status := Handle(startTagLevel, enc, s, start, r.tok, r.next);
      }
      return status, status != Fine, r.next;
    }

    /** doContent, entered through the current processor. */
    method DoContent(startTagLevel: nat, enc: Enc, s: Text, start: nat, end: nat, haveMore: bool)
        returns (status: Status, next: nat)
      requires Valid() && start <= end <= |s| && env.base <= startTagLevel
      modifies this
      ensures Reached(Run(env, old(openEntities), startTagLevel, enc, s, Parser(old(tagStack), old(processor), start),
        end, haveMore),
                      status, next, old(calls), old(openEntities))
      decreases Unopened(env.entities, openEntities), |s|, 2
    {
      hide Run, Round;
      next := start;
      ghost var open := openEntities;
      ghost var whole := Run(env, open, startTagLevel, enc, s, Parser(tagStack, processor, start), end, haveMore);
      PrependNone(whole);
      assert calls == old(calls) + [];
      while processor != InEpilog
        invariant start <= next <= end && Valid() && openEntities == open
        invariant Advanced(whole, startTagLevel, enc, s, next, end, haveMore, old(calls))
        decreases end - next, processor == InContent
      {
        ghost var rest := Run(env, open, startTagLevel, enc, s, Parser(tagStack, processor, next), end, haveMore);
        ghost var events :| calls == old(calls) + events && whole == Prepend(events, rest);
        ghost var mid := calls;
        var done;
        if processor == InCdata {
          var closed;
          status, closed, next := DoCdataSection(startTagLevel, enc, s, next, end, haveMore);
          done := !closed;
        } else {
          status, done, next := ContentOnce(startTagLevel, enc, s, next, end, haveMore);
        }
        if done {
          if status == Fine {
            ReachedAfter(whole, events, old(calls), mid, rest, status, next);
          }
          return;
        }
        AdvancedTrans(whole, events, old(calls), mid, rest, startTagLevel, enc, s, next, end, haveMore);
      }
      ghost var last := Parser(tagStack, processor, next);
      RunUnfold(env, open, startTagLevel, enc, s, last, end, haveMore);
      EpilogRound(env, open, startTagLevel, enc, s, last, end, haveMore);
      status := Fine;
    }
  }

  lemma PrependNone(r: Outcome)
    ensures Prepend([], r) == r
  {
    assert r.Ok? ==> [] + r.events == r.events;
  }

  lemma PrependMore(a: seq<Event>, b: seq<Event>, r: Outcome)
    ensures Prepend(a, Prepend(b, r)) == Prepend(a + b, r)
  {
    assert r.Ok? ==> a + (b + r.events) == (a + b) + r.events;
  }

  lemma CdataRound(env: Env, open: set<Text>, lvl: nat, enc: Enc, s: Text, st: Parser, end: nat, haveMore: bool)
    requires st.pos <= end <= |s| && st.mode == InCdata
    ensures
      var r := CdataTok(enc, s, st.pos, end);
      Round(env, open, lvl, enc, s, st, end, haveMore) ==
      if r.Tok? then CdataAct(s, st, r.tok, r.next) else Undecided(env, lvl, s, st, r, end, haveMore)
  {
    hide CdataTok, ContentTok;
  }

  lemma ContentRound(env: Env, open: set<Text>, lvl: nat, enc: Enc, s: Text, st: Parser, end: nat, haveMore: bool)
    requires st.pos <= end <= |s| && st.mode == InContent
    ensures
      var r := ContentTok(enc, s, st.pos, end);
      Round(env, open, lvl, enc, s, st, end, haveMore) ==
      if !r.Tok? then Undecided(env, lvl, s, st, r, end, haveMore)
      else if r.tok == EntityRef then Reference(env, open, s, st, r.next)
      else Act(env, open, lvl, enc, s, st, r.tok, r.next)
  {
    hide CdataTok, ContentTok;
  }

  lemma EpilogRound(env: Env, open: set<Text>, lvl: nat, enc: Enc, s: Text, st: Parser, end: nat, haveMore: bool)
    requires st.pos <= end <= |s| && st.mode == InEpilog
    ensures Round(env, open, lvl, enc, s, st, end, haveMore) == Stop(st, [])
  {
  }

  /** A replacement text never ends inside a CDATA section, nor in the epilog. */
  lemma {:induction false} InternalEndsInContent(env: Env, open: set<Text>, lvl: nat, enc: Enc, s: Text, st: Parser)
    requires st.pos <= |s| && lvl > 0 && lvl <= Level(env, st.stack) && st.mode != InEpilog
    requires Run(env, open, lvl, enc, s, st, |s|, false).Ok?
    ensures Run(env, open, lvl, enc, s, st, |s|, false).st.mode == InContent
    decreases |s| - st.pos
  {
    hide Run, Round, CdataTok, ContentTok, Reference, Act;
    RunUnfold(env, open, lvl, enc, s, st, |s|, false);
    RoundNested(env, open, lvl, enc, s, st, |s|, false);
    if st.mode == InCdata {
      CdataRound(env, open, lvl, enc, s, st, |s|, false);
    } else {
      ContentRound(env, open, lvl, enc, s, st, |s|, false);
    }
    var m := Round(env, open, lvl, enc, s, st, |s|, false);
    if m.Move? {
      InternalEndsInContent(env, open, lvl, enc, s, m.st);
    }
  }
}
