/**
  Element declarations of the document type: the content-model grammar and the
  automaton that the role machine (xmlrole.c) and the prolog loop (xmlparse.c)
  run together over the tokens of one declaration.

  The grammar is `Print`; the automaton is `Run`. `RoundTrip` and `OnlyPrinted`
  say that the automaton accepts exactly the printed specifications, blanks
  aside, and returns the very tree that was printed.
*/
module ContentModel {

  datatype Quant = QNone | QOpt | QRep | QPlus

  datatype Kind = Seq | Choice | Mixed

  /** A content particle: an element name, or a group of particles. */
  datatype Tree =
    | Leaf(name: string, quant: Quant)
    | Group(kind: Kind, kids: seq<Tree>, quant: Quant)

  /** The content specification of one element declaration. */
  datatype Spec = EmptySpec | AnySpec | Model(tree: Tree)

  /**
    Tokens of an element declaration after the element's own name. `Name` stands
    for XML_TOK_NAME and XML_TOK_PREFIXED_NAME and, with a quantifier, for
    XML_TOK_NAME_QUESTION, _ASTERISK and _PLUS. `Pcdata` is the pound name #PCDATA.
  */
  datatype Token =
    | Blank
    | OpenParen
    | CloseParen(q: Quant)
    | Name(n: string, nq: Quant)
    | Pcdata
    | PoundName(other: string)
    | Comma
    | Or
    | DeclEnd
    | OtherToken

  // ---------------------------------------------------------------- grammar

  /** XML names hold no NUL, which the parser uses as its terminator. */
  predicate NameOk(n: string) { '\0' !in n }

  /** A tree that may stand inside a group. */
  predicate Nested(t: Tree)
  {
    match t
    case Leaf(n, _) => NameOk(n)
    case Group(k, kids, _) =>
      && k != Mixed
      && |kids| >= (if k == Choice then 2 else 1)
      && forall i :: 0 <= i < |kids| ==> Nested(kids[i])
  }

  predicate PlainName(t: Tree) { t.Leaf? && t.quant == QNone && NameOk(t.name) }

  /** What may stand at the top: a children group, or mixed content. */
  predicate WellFormed(s: Spec)
  {
    match s
    case EmptySpec => true
    case AnySpec => true
    case Model(Leaf(_, _)) => false
    case Model(Group(Mixed, kids, q)) =>
      && (forall i :: 0 <= i < |kids| ==> PlainName(kids[i]))
      && (q == QRep || (q == QNone && kids == []))
    case Model(t) => Nested(t)
  }

  function Separator(k: Kind): Token { if k == Seq then Comma else Or }

  function PrintItem(t: Tree): seq<Token>
    decreases t, 1
  {
    match t
    case Leaf(n, q) => [Name(n, q)]
    case Group(k, kids, q) => [OpenParen] + PrintKids(kids, Separator(k)) + [CloseParen(q)]
  }

  function PrintKids(kids: seq<Tree>, sep: Token): seq<Token>
    decreases kids, 0
  {
    if kids == [] then []
    else if |kids| == 1 then PrintItem(kids[0])
    else PrintKids(kids[..|kids| - 1], sep) + [sep] + PrintItem(kids[|kids| - 1])
  }

  function PrintMixed(kids: seq<Tree>): seq<Token>
    decreases kids
  {
    if kids == [] then []
    else PrintMixed(kids[..|kids| - 1]) + [Or] + PrintItem(kids[|kids| - 1])
  }

  /** The declaration's tokens, from after the element name to the closing '>'. */
  function Print(s: Spec): seq<Token>
  {
    match s
    case EmptySpec => [Name("EMPTY", QNone), DeclEnd]
    case AnySpec => [Name("ANY", QNone), DeclEnd]
    case Model(Group(Mixed, kids, q)) => [OpenParen, Pcdata] + PrintMixed(kids) + [CloseParen(q), DeclEnd]
    case Model(t) => PrintItem(t) + [DeclEnd]
  }

  function Strip(toks: seq<Token>): (r: seq<Token>)
    ensures Blank !in r
  {
    if toks == [] then []
    else if toks[|toks| - 1].Blank? then Strip(toks[..|toks| - 1])
    else Strip(toks[..|toks| - 1]) + [toks[|toks| - 1]]
  }

  // -------------------------------------------------------------- automaton

  /** The state handlers element1..element7 and declClose; Top is back at the subset. */
  datatype Handler = E1 | E2 | E3 | E4 | E5 | E6 | E7 | DeclClose | Top | Failed

  datatype Conn = NoConn | CommaConn | PipeConn

  /** An open group: its connector so far and its finished children. */
  datatype Frame = Frame(conn: Conn, mixed: bool, kids: seq<Tree>)

  datatype State = State(handler: Handler, stack: seq<Frame>, result: Spec)

  const INITIAL := State(E1, [], EmptySpec)

  const REJECT := State(Failed, [], EmptySpec)

  function FrameKind(f: Frame): Kind
  {
    if f.mixed then Mixed else if f.conn == PipeConn then Choice else Seq
  }

  function Push(s: State, h: Handler): State { State(h, s.stack + [Frame(NoConn, false, [])], s.result) }

  function AddKid(stack: seq<Frame>, t: Tree): seq<Frame>
    requires stack != []
  {
    var top := stack[|stack| - 1];
    stack[|stack| - 1 := top.(kids := top.kids + [t])]
  }

  function Connect(s: State, c: Conn): State
    requires s.stack != []
  {
    var top := s.stack[|s.stack| - 1];
    if top.conn != NoConn && top.conn != c then REJECT
    else State(E6, s.stack[|s.stack| - 1 := top.(conn := c)], s.result)
  }

  function Close(s: State, q: Quant): State
    requires s.stack != []
  {
    var top := s.stack[|s.stack| - 1];
    var rest := s.stack[..|s.stack| - 1];
    var t := Group(FrameKind(top), top.kids, q);
    if rest == [] then State(DeclClose, [], Model(t)) else State(E7, AddKid(rest, t), s.result)
  }

  /** What every reachable state keeps: element2..7 run inside at least one group. */
  predicate Sane(s: State)
  {
    && (s.handler in {E2, E3, E4, E5} ==> |s.stack| == 1)
    && (s.handler in {E6, E7} ==> |s.stack| >= 1)
  }

  /** One token through the role machine and the prolog loop's switch. */
  function Step(s: State, tok: Token): (r: State)
    requires Sane(s)
    ensures Sane(r)
  {
    if tok.Blank? then s else
    match s.handler
    case E1 =>
      if tok == Name("EMPTY", QNone) then State(DeclClose, [], EmptySpec)
      else if tok == Name("ANY", QNone) then State(DeclClose, [], AnySpec)
      else if tok.OpenParen? then State(E2, [Frame(NoConn, false, [])], s.result)
      else REJECT
    case E2 =>
      if tok.Pcdata? then State(E3, [s.stack[0].(mixed := true)], s.result)
      else if tok.OpenParen? then Push(s, E6)
      else if tok.Name? then State(E7, AddKid(s.stack, Leaf(tok.n, tok.nq)), s.result)
      else REJECT
    case E3 =>
      if tok == CloseParen(QNone) || tok == CloseParen(QRep) then Close(s, tok.q)
      else if tok.Or? then s.(handler := E4)
      else REJECT
    case E4 =>
      if tok.Name? && tok.nq == QNone then State(E5, AddKid(s.stack, Leaf(tok.n, QNone)), s.result)
      else REJECT
    case E5 =>
      if tok == CloseParen(QRep) then Close(s, QRep)
      else if tok.Or? then s.(handler := E4)
      else REJECT
    case E6 =>
      if tok.OpenParen? then Push(s, E6)
      else if tok.Name? then State(E7, AddKid(s.stack, Leaf(tok.n, tok.nq)), s.result)
      else REJECT
    case E7 =>
      if tok.CloseParen? then Close(s, tok.q)
      else if tok.Comma? then Connect(s, CommaConn)
      else if tok.Or? then Connect(s, PipeConn)
      else REJECT
    case DeclClose => if tok.DeclEnd? then s.(handler := Top) else REJECT
    case Top => REJECT
    case Failed => REJECT
  }

  function Run(toks: seq<Token>): (s: State)
    ensures Sane(s)
  {
    if toks == [] then INITIAL else Step(Run(toks[..|toks| - 1]), toks[|toks| - 1])
  }

  predicate Accepts(toks: seq<Token>, spec: Spec)
  {
    Run(toks).handler == Top && Run(toks).result == spec
  }

  // ------------------------------------------- the tokens a state stands for

  /** Names in tokens come from the tokenizer, which lets no NUL through. */
  predicate TokensOk(toks: seq<Token>)
  {
    forall i :: 0 <= i < |toks| && toks[i].Name? ==> NameOk(toks[i].n)
  }

  /** `pending`: a separator, or an open child, follows the finished children. */
  predicate FrameOk(f: Frame, pending: bool)
  {
    && !f.mixed
    && (f.conn == NoConn <==> |f.kids| + (if pending then 1 else 0) <= 1)
    && forall i :: 0 <= i < |f.kids| ==> Nested(f.kids[i])
  }

  function FrameTokens(f: Frame, pending: bool): seq<Token>
  {
    [OpenParen] + PrintKids(f.kids, Separator(FrameKind(f)))
    + (if pending && f.kids != [] then [Separator(FrameKind(f))] else [])
  }

  /** The tokens of the frames of a stack; every frame but the last has an open child. */
  function StackTokens(stack: seq<Frame>, pending: bool): seq<Token>
  {
    if stack == [] then []
    else StackTokens(stack[..|stack| - 1], true) + FrameTokens(stack[|stack| - 1], pending)
  }

  predicate StackOk(stack: seq<Frame>, pending: bool)
  {
    forall i :: 0 <= i < |stack| ==> FrameOk(stack[i], i < |stack| - 1 || pending)
  }

  predicate MixedOk(stack: seq<Frame>)
  {
    && |stack| == 1 && stack[0].mixed && stack[0].conn == NoConn
    && forall i :: 0 <= i < |stack[0].kids| ==> PlainName(stack[0].kids[i])
  }

  /** State `s` has consumed exactly `toks`. */
  ghost predicate Consumed(s: State, toks: seq<Token>)
  {
    match s.handler
    case E1 => s.stack == [] && toks == []
    case E2 => s.stack == [Frame(NoConn, false, [])] && toks == [OpenParen]
    case E3 => MixedOk(s.stack) && s.stack[0].kids == [] && toks == [OpenParen, Pcdata]
    case E4 => MixedOk(s.stack) && toks == [OpenParen, Pcdata] + PrintMixed(s.stack[0].kids) + [Or]
    case E5 => MixedOk(s.stack) && s.stack[0].kids != [] && toks == [OpenParen, Pcdata] + PrintMixed(s.stack[0].kids)
    case E6 =>
      && s.stack != [] && StackOk(s.stack, true)
      && (|s.stack| == 1 ==> s.stack[0].kids != [])
      && toks == StackTokens(s.stack, true)
    case E7 =>
      && s.stack != [] && StackOk(s.stack, false) && s.stack[|s.stack| - 1].kids != []
      && toks == StackTokens(s.stack, false)
    case DeclClose => s.stack == [] && WellFormed(s.result) && toks + [DeclEnd] == Print(s.result)
    case Top => s.stack == [] && WellFormed(s.result) && toks == Print(s.result)
    case Failed => true
  }

  lemma PrintKidsShort(t: Tree, sep: Token)
    ensures PrintKids([], sep) == []
    ensures PrintKids([t], sep) == PrintItem(t)
  {
  }

  lemma PrintKidsSnoc(kids: seq<Tree>, t: Tree, sep: Token)
    requires kids != []
    ensures PrintKids(kids + [t], sep) == PrintKids(kids, sep) + [sep] + PrintItem(t)
  {
    assert (kids + [t])[..|kids|] == kids;
  }

  lemma PrintMixedSnoc(kids: seq<Tree>, t: Tree)
    ensures PrintMixed(kids + [t]) == PrintMixed(kids) + [Or] + PrintItem(t)
  {
    assert (kids + [t])[..|kids|] == kids;
  }

  lemma FrameAddKid(f: Frame, t: Tree)
    requires FrameOk(f, true) && Nested(t)
    ensures FrameOk(f.(kids := f.kids + [t]), false)
    ensures FrameTokens(f.(kids := f.kids + [t]), false) == FrameTokens(f, true) + PrintItem(t)
  {
    hide Nested, PrintItem, PrintKids;
    if f.kids == [] {
      assert f.kids + [t] == [t];
      PrintKidsShort(t, Separator(FrameKind(f)));
    } else {
      PrintKidsSnoc(f.kids, t, Separator(FrameKind(f)));
    }
  }

  lemma FrameConnect(f: Frame, c: Conn)
    requires FrameOk(f, false) && f.kids != [] && c != NoConn && (f.conn == NoConn || f.conn == c)
    ensures FrameOk(f.(conn := c), true)
    ensures FrameTokens(f.(conn := c), true)
         == FrameTokens(f, false) + [Separator(if c == CommaConn then Seq else Choice)]
  {
    hide Nested, PrintItem, PrintKids;
    if f.conn == NoConn {
      assert f.kids == [f.kids[0]];
      PrintKidsShort(f.kids[0], Separator(FrameKind(f)));
      PrintKidsShort(f.kids[0], Separator(FrameKind(f.(conn := c))));
    }
  }

  /** Replacing the innermost frame leaves the tokens of the outer ones. */
  lemma ReplaceTop(stack: seq<Frame>, pending: bool, f: Frame, pending': bool)
    requires stack != [] && StackOk(stack, pending) && FrameOk(f, pending')
    ensures
      var rest := stack[..|stack| - 1];
      && StackOk(stack[|stack| - 1 := f], pending')
      && StackTokens(stack, pending) == StackTokens(rest, true) + FrameTokens(stack[|stack| - 1], pending)
      && StackTokens(stack[|stack| - 1 := f], pending') == StackTokens(rest, true) + FrameTokens(f, pending')
  {
    hide FrameOk, FrameTokens;
    var after := stack[|stack| - 1 := f];
    assert after[..|stack| - 1] == stack[..|stack| - 1];
    forall i | 0 <= i < |after|
      ensures FrameOk(after[i], i < |after| - 1 || pending')
    {
      assert FrameOk(stack[i], i < |stack| - 1 || pending);
    }
  }

  /** Finishing a child turns "pending" into one more printed child. */
  lemma AddKidTokens(stack: seq<Frame>, t: Tree)
    requires stack != [] && StackOk(stack, true) && Nested(t)
    ensures StackOk(AddKid(stack, t), false)
    ensures StackTokens(AddKid(stack, t), false) == StackTokens(stack, true) + PrintItem(t)
  {
    hide FrameTokens, StackTokens, PrintItem, Nested;
    var top := stack[|stack| - 1];
    assert FrameOk(top, true);
    hide FrameOk;
    FrameAddKid(top, t);
    ReplaceTop(stack, true, top.(kids := top.kids + [t]), false);
  }

  lemma PushTokens(stack: seq<Frame>)
    requires StackOk(stack, true)
    ensures StackOk(stack + [Frame(NoConn, false, [])], true)
    ensures StackTokens(stack + [Frame(NoConn, false, [])], true) == StackTokens(stack, true) + [OpenParen]
  {
    hide PrintItem, Nested;
    var after := stack + [Frame(NoConn, false, [])];
    assert after[..|stack|] == stack;
    forall i | 0 <= i < |after|
      ensures FrameOk(after[i], true)
    {
      if i < |stack| { assert FrameOk(stack[i], true); }
    }
  }

  lemma ConnectConsumed(s: State, toks: seq<Token>, c: Conn)
    requires s.handler == E7 && Consumed(s, toks) && c != NoConn
    requires Connect(s, c) != REJECT
    ensures Consumed(Connect(s, c), toks + [Separator(if c == CommaConn then Seq else Choice)])
  {
    hide FrameTokens, StackTokens, PrintItem, Nested;
    var top := s.stack[|s.stack| - 1];
    assert FrameOk(top, false);
    FrameConnect(top, c);
    ReplaceTop(s.stack, false, top.(conn := c), true);
  }

  lemma CloseConsumed(s: State, toks: seq<Token>, q: Quant)
    requires s.handler == E7 && Consumed(s, toks)
    ensures Consumed(Close(s, q), toks + [CloseParen(q)])
  {
    var n := |s.stack| - 1;
    var top := s.stack[n];
    var rest := s.stack[..n];
    var t := Group(FrameKind(top), top.kids, q);
    assert FrameOk(top, false);
    assert Nested(t);
    assert FrameTokens(top, false) + [CloseParen(q)] == PrintItem(t);
    if rest == [] {
      assert toks == FrameTokens(top, false);
    } else {
      forall i | 0 <= i < n
        ensures FrameOk(rest[i], true)
      {
        assert FrameOk(s.stack[i], true);
      }
      AddKidTokens(rest, t);
      assert toks + [CloseParen(q)] == StackTokens(rest, true) + PrintItem(t);
    }
  }

  lemma MixedCloseConsumed(s: State, toks: seq<Token>, q: Quant)
    requires s.handler in {E3, E5} && Consumed(s, toks)
    requires q == QRep || (s.handler == E3 && q == QNone)
    ensures Consumed(Close(s, q), toks + [CloseParen(q)])
  {
    var kids := s.stack[0].kids;
    assert toks == [OpenParen, Pcdata] + PrintMixed(kids);
    assert toks + [CloseParen(q)] + [DeclEnd] == Print(Model(Group(Mixed, kids, q)));
  }

  lemma MixedNameConsumed(s: State, toks: seq<Token>, n: string)
    requires s.handler == E4 && Consumed(s, toks) && NameOk(n)
    ensures Consumed(State(E5, AddKid(s.stack, Leaf(n, QNone)), s.result), toks + [Name(n, QNone)])
  {
    PrintMixedSnoc(s.stack[0].kids, Leaf(n, QNone));
  }

  lemma ItemConsumed(s: State, toks: seq<Token>, tok: Token)
    requires Sane(s) && s.handler in {E2, E6} && Consumed(s, toks)
    requires tok.OpenParen? || (tok.Name? && NameOk(tok.n))
    ensures Consumed(Step(s, tok), toks + [tok])
  {
    assert StackOk(s.stack, true) && StackTokens(s.stack, true) == toks by {
      if s.handler == E2 {
        assert StackTokens(s.stack[..0], true) == [];
        assert FrameTokens(s.stack[0], true) == [OpenParen];
      }
    }
    hide StackTokens, FrameTokens, FrameOk;
    if tok.OpenParen? {
      PushTokens(s.stack);
    } else {
      AddKidTokens(s.stack, Leaf(tok.n, tok.nq));
      assert PrintItem(Leaf(tok.n, tok.nq)) == [tok];
    }
  }

  lemma StepConsumed(s: State, toks: seq<Token>, tok: Token)
    requires Sane(s) && Consumed(s, toks) && !tok.Blank?
    requires tok.Name? ==> NameOk(tok.n)
    ensures Consumed(Step(s, tok), toks + [tok])
  {
    if Step(s, tok) == REJECT {
      return;
    }
    match s.handler {
      case E2 =>
        if !tok.Pcdata? { ItemConsumed(s, toks, tok); }
      case E3 =>
        if tok.CloseParen? { MixedCloseConsumed(s, toks, tok.q); }
      case E4 =>
        MixedNameConsumed(s, toks, tok.n);
      case E5 =>
        if tok.CloseParen? { MixedCloseConsumed(s, toks, QRep); }
      case E6 =>
        ItemConsumed(s, toks, tok);
      case E7 =>
        if tok.CloseParen? {
          CloseConsumed(s, toks, tok.q);
        } else {
          ConnectConsumed(s, toks, if tok.Comma? then CommaConn else PipeConn);
        }
      case _ =>
    }
  }

  lemma {:induction false} RunConsumed(toks: seq<Token>)
    requires TokensOk(toks)
    ensures Consumed(Run(toks), Strip(toks))
  {
    if toks != [] {
      var before, tok := toks[..|toks| - 1], toks[|toks| - 1];
      RunConsumed(before);
      if !tok.Blank? {
        StepConsumed(Run(before), Strip(before), tok);
      }
    }
  }

  /** Soundness: whatever is accepted is, blanks aside, the print of the tree returned. */
  lemma OnlyPrinted(toks: seq<Token>, spec: Spec)
    requires TokensOk(toks) && Accepts(toks, spec)
    ensures WellFormed(spec) && Strip(toks) == Print(spec)
  {
    RunConsumed(toks);
  }

  // ----------------------------------------------------------- completeness

  function RunFrom(s: State, toks: seq<Token>): (r: State)
    requires Sane(s)
    ensures Sane(r)
  {
    if toks == [] then s else Step(RunFrom(s, toks[..|toks| - 1]), toks[|toks| - 1])
  }

  lemma {:induction false} RunFromConcat(s: State, a: seq<Token>, b: seq<Token>)
    requires Sane(s)
    ensures RunFrom(s, a + b) == RunFrom(RunFrom(s, a), b)
  {
    if b == [] {
      assert a + b == a;
    } else {
      assert (a + b)[..|a + b| - 1] == a + b[..|b| - 1];
      RunFromConcat(s, a, b[..|b| - 1]);
    }
  }

  lemma {:induction false} RunIsRunFrom(toks: seq<Token>)
    ensures Run(toks) == RunFrom(INITIAL, toks)
  {
    if toks != [] { RunIsRunFrom(toks[..|toks| - 1]); }
  }

  lemma {:induction false} RunFromBlanks(s: State, toks: seq<Token>)
    requires Sane(s)
    ensures RunFrom(s, toks) == RunFrom(s, Strip(toks))
  {
    if toks != [] {
      var before, tok := toks[..|toks| - 1], toks[|toks| - 1];
      RunFromBlanks(s, before);
      if !tok.Blank? {
        assert Strip(toks)[..|Strip(toks)| - 1] == Strip(before);
      }
    }
  }

  lemma RunFromOne(s: State, tok: Token)
    requires Sane(s)
    ensures RunFrom(s, [tok]) == Step(s, tok)
  {
    assert RunFrom(s, [tok][..0]) == s;
  }

  /** Reading an item where an item is expected adds it to the innermost group. */
  lemma {:induction false} RunItem(s: State, t: Tree)
    requires s.handler in {E2, E6} && Sane(s) && s.stack != [] && Nested(t)
    requires s.handler == E2 ==> s.stack == [Frame(NoConn, false, [])]
    ensures RunFrom(s, PrintItem(t)) == State(E7, AddKid(s.stack, t), s.result)
    decreases t, 1
  {
    match t {
      case Leaf(n, q) =>
        RunFromOne(s, Name(n, q));
      case Group(k, kids, q) =>
        var inside := Push(s, E6);
        var full := WithKids(inside, kids, k);
        assert Step(s, OpenParen) == inside;
        assert Step(full, CloseParen(q)) == State(E7, AddKid(s.stack, t), s.result) by {
          assert full.stack[..|s.stack|] == s.stack;
        }
        hide Step, RunFrom, PrintKids;
        RunFromOne(s, OpenParen);
        RunKids(inside, kids, k);
        RunFromOne(full, CloseParen(q));
        RunFromConcat(s, [OpenParen], PrintKids(kids, Separator(k)));
        RunFromConcat(s, [OpenParen] + PrintKids(kids, Separator(k)), [CloseParen(q)]);
    }
  }

  function KidsConn(kids: seq<Tree>, k: Kind): Conn
  {
    if |kids| <= 1 then NoConn else if k == Seq then CommaConn else PipeConn
  }

  /** The state after the children read so far of the innermost group. */
  function WithKids(s: State, kids: seq<Tree>, k: Kind): State
    requires s.stack != []
  {
    State(E7, s.stack[|s.stack| - 1 := Frame(KidsConn(kids, k), false, kids)], s.result)
  }

  lemma {:induction false} RunKids(s: State, kids: seq<Tree>, k: Kind)
    requires s.handler == E6 && s.stack != []
    requires s.stack[|s.stack| - 1] == Frame(NoConn, false, [])
    requires k != Mixed && kids != [] && forall i :: 0 <= i < |kids| ==> Nested(kids[i])
    ensures RunFrom(s, PrintKids(kids, Separator(k))) == WithKids(s, kids, k)
    decreases kids, 0
  {
    var n := |kids| - 1;
    var sep := Separator(k);
    hide Step, RunFrom, PrintItem, Nested, WithKids, AddKid;
    if n == 0 {
      assert kids == [kids[0]];
      FirstKid(s, kids[0], k);
      RunItem(s, kids[0]);
    } else {
      var front, last := kids[..n], kids[n];
      assert kids == front + [last];
      RunKids(s, front, k);
      NextKid(s, front, last, k);
      var ready := Step(WithKids(s, front, k), sep);
      RunItem(ready, last);
      RunFromOne(WithKids(s, front, k), sep);
      RunFromConcat(s, PrintKids(front, sep), [sep]);
      RunFromConcat(s, PrintKids(front, sep) + [sep], PrintItem(last));
    }
  }

  lemma FirstKid(s: State, t: Tree, k: Kind)
    requires s.stack != [] && s.stack[|s.stack| - 1] == Frame(NoConn, false, [])
    ensures State(E7, AddKid(s.stack, t), s.result) == WithKids(s, [t], k)
  {
    assert [] + [t] == [t];
  }

  lemma NextKid(s: State, front: seq<Tree>, last: Tree, k: Kind)
    requires s.stack != [] && front != [] && k != Mixed
    ensures
      var ready := Step(WithKids(s, front, k), Separator(k));
      && ready.handler == E6 && ready.stack != [] && ready.result == s.result
      && State(E7, AddKid(ready.stack, last), s.result) == WithKids(s, front + [last], k)
  {
  }

  lemma {:induction false} RunMixed(s: State, kids: seq<Tree>)
    requires s.handler == E3 && s.stack == [Frame(NoConn, true, [])]
    requires forall i :: 0 <= i < |kids| ==> PlainName(kids[i])
    ensures RunFrom(s, PrintMixed(kids))
         == State(if kids == [] then E3 else E5, [Frame(NoConn, true, kids)], s.result)
  {
    if kids != [] {
      var n := |kids| - 1;
      var front, last := kids[..n], kids[n];
      RunMixed(s, front);
      var mid := RunFrom(s, PrintMixed(front));
      assert PrintItem(last) == [Name(last.name, QNone)];
      assert front + [last] == kids;
      assert Step(Step(mid, Or), Name(last.name, QNone)) == State(E5, [Frame(NoConn, true, kids)], s.result);
      hide Step, RunFrom;
      RunFromOne(mid, Or);
      RunFromOne(Step(mid, Or), Name(last.name, QNone));
      RunFromConcat(s, PrintMixed(front), [Or]);
      RunFromConcat(s, PrintMixed(front) + [Or], PrintItem(last));
    }
  }

  lemma RunPcdata()
    ensures RunFrom(INITIAL, [OpenParen] + [Pcdata]) == State(E3, [Frame(NoConn, true, [])], EmptySpec)
  {
    var inside := State(E2, [Frame(NoConn, false, [])], EmptySpec);
    RunFromOne(INITIAL, OpenParen);
    assert Step(INITIAL, OpenParen) == inside;
    RunFromOne(inside, Pcdata);
    RunFromConcat(INITIAL, [OpenParen], [Pcdata]);
  }

  lemma RunMixedHead(kids: seq<Tree>)
    requires forall i :: 0 <= i < |kids| ==> PlainName(kids[i])
    ensures RunFrom(INITIAL, [OpenParen] + [Pcdata] + PrintMixed(kids))
         == State(if kids == [] then E3 else E5, [Frame(NoConn, true, kids)], EmptySpec)
  {
    var start := State(E3, [Frame(NoConn, true, [])], EmptySpec);
    RunPcdata();
    RunMixed(start, kids);
    RunFromConcat(INITIAL, [OpenParen] + [Pcdata], PrintMixed(kids));
  }

  lemma RunPrintMixed(kids: seq<Tree>, q: Quant)
    requires WellFormed(Model(Group(Mixed, kids, q)))
    ensures RunFrom(INITIAL, Print(Model(Group(Mixed, kids, q)))) == State(Top, [], Model(Group(Mixed, kids, q)))
  {
    var head := [OpenParen] + [Pcdata] + PrintMixed(kids);
    var tail := [CloseParen(q)] + [DeclEnd];
    var full := State(if kids == [] then E3 else E5, [Frame(NoConn, true, kids)], EmptySpec);
    var closed := State(DeclClose, [], Model(Group(Mixed, kids, q)));
    assert RunFrom(full, tail) == State(Top, [], closed.result) by {
      assert full.stack[..0] == [];
      RunFromOne(full, CloseParen(q));
      RunFromOne(closed, DeclEnd);
      RunFromConcat(full, [CloseParen(q)], [DeclEnd]);
    }
    assert Print(Model(Group(Mixed, kids, q))) == head + tail;
    RunMixedHead(kids);
    RunFromConcat(INITIAL, head, tail);
  }

  lemma RunPrint(spec: Spec)
    requires WellFormed(spec)
    ensures RunFrom(INITIAL, Print(spec)) == State(Top, [], spec)
  {
    match spec {
      case EmptySpec =>
        RunFromOne(INITIAL, Name("EMPTY", QNone));
        assert Print(spec)[..1] == [Name("EMPTY", QNone)];
      case AnySpec =>
        RunFromOne(INITIAL, Name("ANY", QNone));
        assert Print(spec)[..1] == [Name("ANY", QNone)];
      case Model(Group(k, kids, q)) =>
        if k == Mixed {
          RunPrintMixed(kids, q);
        } else {
          RunTopGroup(spec.tree);
          RunFromOne(State(DeclClose, [], spec), DeclEnd);
          RunFromConcat(INITIAL, PrintItem(spec.tree), [DeclEnd]);
        }
    }
  }

  /** The outermost group is read from element1/element2 instead of element6. */
  lemma RunTopGroup(t: Tree)
    requires t.Group? && Nested(t)
    ensures RunFrom(INITIAL, PrintItem(t)) == State(DeclClose, [], Model(t))
  {
    var kids, sep := t.kids, Separator(t.kind);
    var inside := State(E2, [Frame(NoConn, false, [])], EmptySpec);
    var as6 := inside.(handler := E6);
    var full := WithKids(as6, kids, t.kind);
    assert Step(INITIAL, OpenParen) == inside;
    assert Step(full, CloseParen(t.quant)) == State(DeclClose, [], Model(t)) by {
      assert full.stack[..0] == [];
    }
    hide Step, RunFrom, PrintKids, Nested, WithKids;
    RunFromOne(INITIAL, OpenParen);
    RunKids(as6, kids, t.kind);
    FirstItemSame(inside, as6, kids, sep);
    RunFromOne(full, CloseParen(t.quant));
    RunFromConcat(INITIAL, [OpenParen], PrintKids(kids, sep));
    RunFromConcat(INITIAL, [OpenParen] + PrintKids(kids, sep), [CloseParen(t.quant)]);
  }

  lemma {:induction false} PrintNonEmpty(t: Tree)
    requires Nested(t)
    ensures PrintItem(t) != [] && (PrintItem(t)[0].Name? || PrintItem(t)[0].OpenParen?)
  {
  }

  lemma {:induction false} PrintKidsFirst(kids: seq<Tree>, sep: Token)
    requires kids != [] && forall i :: 0 <= i < |kids| ==> Nested(kids[i])
    ensures PrintKids(kids, sep) != []
    ensures PrintKids(kids, sep)[0].Name? || PrintKids(kids, sep)[0].OpenParen?
  {
    if |kids| == 1 {
      PrintNonEmpty(kids[0]);
    } else {
      PrintKidsFirst(kids[..|kids| - 1], sep);
    }
  }

  /** element2 and element6 treat the first item of a children group alike. */
  lemma FirstItemSame(a: State, b: State, kids: seq<Tree>, sep: Token)
    requires Sane(a) && a.handler == E2 && b == a.(handler := E6)
    requires kids != [] && forall i :: 0 <= i < |kids| ==> Nested(kids[i])
    ensures RunFrom(a, PrintKids(kids, sep)) == RunFrom(b, PrintKids(kids, sep))
  {
    var toks := PrintKids(kids, sep);
    PrintKidsFirst(kids, sep);
    assert toks == [toks[0]] + toks[1..];
    RunFromOne(a, toks[0]);
    RunFromOne(b, toks[0]);
    RunFromConcat(a, [toks[0]], toks[1..]);
    RunFromConcat(b, [toks[0]], toks[1..]);
  }

  /** Completeness: a printed specification, with blanks anywhere, is accepted as itself. */
  lemma RoundTrip(spec: Spec, toks: seq<Token>)
    requires WellFormed(spec) && Strip(toks) == Print(spec)
    ensures Accepts(toks, spec)
  {
    RunIsRunFrom(toks);
    RunFromBlanks(INITIAL, toks);
    RunPrint(spec);
  }

  // -------------------------------------------------------------- measures

  /** Nodes of a tree: one scaffold slot and one XML_Content cell each. */
  function Size(t: Tree): (n: nat)
    ensures n >= 1
    decreases t, 1
  {
    if t.Leaf? then 1 else 1 + SizeKids(t.kids)
  }

  function SizeKids(kids: seq<Tree>): nat
    decreases kids, 0
  {
    if kids == [] then 0 else SizeKids(kids[..|kids| - 1]) + Size(kids[|kids| - 1])
  }

  /** Characters of the names of a tree, terminators included. */
  function Chars(t: Tree): nat
    decreases t, 1
  {
    if t.Leaf? then |t.name| + 1 else CharsKids(t.kids)
  }

  function CharsKids(kids: seq<Tree>): nat
    decreases kids, 0
  {
    if kids == [] then 0 else CharsKids(kids[..|kids| - 1]) + Chars(kids[|kids| - 1])
  }

  function StackChars(stack: seq<Frame>): nat
  {
    if stack == [] then 0 else StackChars(stack[..|stack| - 1]) + CharsKids(stack[|stack| - 1].kids)
  }
}
