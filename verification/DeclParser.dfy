/**
  The imperative side of element declarations: the prolog state of xmlrole.c, the
  group and scaffold arrays of xmlparse.c with their growth, and build_model.
*/
module DeclParser {
  import opened ContentModel
  import opened Scaffold

  const INIT_GROUP_SIZE := 32
  const INIT_SCAFFOLD_ELEMENTS := 32

  datatype Role =
    | RNone
    | RError
    | REmpty
    | RAny
    | RGroupOpen
    | RPcdata
    | RElement(q: Quant)
    | RGroupClose(cq: Quant)
    | RSequence
    | RChoice

  /** The role of a token under each handler of xmlrole.c, with the next handler. */
  function RoleOf(h: Handler, level: nat, tok: Token): (Role, Handler)
  {
    if tok.Blank? && h != Failed then (RNone, h) else
    match (h, tok)
    case (E1, OpenParen) => (RGroupOpen, E2)
    case (E1, Name(n, QNone)) =>
      if n == "EMPTY" then (REmpty, DeclClose) else if n == "ANY" then (RAny, DeclClose) else (RError, Failed)
    case (E2, Pcdata) => (RPcdata, E3)
    case (E2, OpenParen) => (RGroupOpen, E6)
    case (E2, Name(_, q)) => (RElement(q), E7)
    case (E3, CloseParen(QNone)) => (RGroupClose(QNone), DeclClose)
    case (E3, CloseParen(QRep)) => (RGroupClose(QRep), DeclClose)
    case (E3, Or) => (RNone, E4)
    case (E4, Name(_, QNone)) => (RElement(QNone), E5)
    case (E5, CloseParen(QRep)) => (RGroupClose(QRep), DeclClose)
    case (E5, Or) => (RNone, E4)
    case (E6, OpenParen) => (RGroupOpen, E6)
    case (E6, Name(_, q)) => (RElement(q), E7)
    case (E7, CloseParen(q)) => (RGroupClose(q), if level == 1 then DeclClose else E7)
    case (E7, Comma) => (RSequence, E6)
    case (E7, Or) => (RChoice, E6)
    case (DeclClose, DeclEnd) => (RNone, Top)
    case _ => (RError, Failed)
  }

  /** The XML_Content block of one declaration. */
  datatype Content = NoContent | Plain(ctype: CType) | Block(cells: array<Cell>, strs: array<char>)

  predicate KidsNamesOk(kids: seq<Tree>) { forall i :: 0 <= i < |kids| ==> AllNamesOk(kids[i]) }

  predicate StackNamesOk(stack: seq<Frame>) { forall i :: 0 <= i < |stack| ==> KidsNamesOk(stack[i].kids) }

  lemma StackCharsTop(stack: seq<Frame>, f: Frame)
    requires stack != []
    ensures StackChars(stack[|stack| - 1 := f])
         == StackChars(stack) - CharsKids(stack[|stack| - 1].kids) + CharsKids(f.kids)
  {
    assert stack[|stack| - 1 := f][..|stack| - 1] == stack[..|stack| - 1];
  }

  lemma StackCharsPush(stack: seq<Frame>, f: Frame)
    ensures StackChars(stack + [f]) == StackChars(stack) + CharsKids(f.kids)
  {
    assert (stack + [f])[..|stack|] == stack;
  }

  lemma AddKidChars(stack: seq<Frame>, t: Tree)
    requires stack != []
    ensures StackChars(AddKid(stack, t)) == StackChars(stack) + Chars(t)
  {
    var top := stack[|stack| - 1];
    StackCharsTop(stack, top.(kids := top.kids + [t]));
    SizeKidsSnoc(top.kids, t);
  }

  /** No token leads back from the error handler. */
  lemma {:induction false} RunStops(toks: seq<Token>, n: nat)
    requires n <= |toks| && Run(toks[..n]).handler == Failed
    ensures Run(toks).handler == Failed
  {
    if n == |toks| {
      assert toks[..n] == toks;
    } else {
      var before := toks[..|toks| - 1];
      assert before[..n] == toks[..n];
      RunStops(before, n);
    }
  }

  lemma OneFrameChars(stack: seq<Frame>)
    requires |stack| == 1
    ensures StackChars(stack) == CharsKids(stack[0].kids)
  {
    assert stack[..0] == [];
  }

  /** Closing a group moves its characters to the parent. */
  lemma CharsOfRest(stack: seq<Frame>, t: Tree)
    requires |stack| > 1 && Chars(t) == CharsKids(stack[|stack| - 1].kids)
    ensures StackChars(AddKid(stack[..|stack| - 1], t)) == StackChars(stack)
  {
    AddKidChars(stack[..|stack| - 1], t);
  }

  /** The open groups of `stack` laid out in the growable buffers. */
  ghost predicate Groups(stack: seq<Frame>, conns: seq<Conn>, nodes: seq<Node>, index: seq<nat>, count: nat, chars: nat)
  {
    && (|index| == 0 || |index| == |conns|)
    && (|conns| == 0 || |conns| >= INIT_GROUP_SIZE)
    && (stack != [] ==> |stack| < |conns| && |index| > 0)
    && (forall j :: 0 <= j < |stack| ==> conns[j + 1] == stack[j].conn)
    && chars == StackChars(stack)
    && StackNamesOk(stack)
    && Linked(nodes, index, stack, count)
  }

  /** What the C code may rely on about its buffers. */
  lemma GroupsBounds(stack: seq<Frame>, conns: seq<Conn>, nodes: seq<Node>, index: seq<nat>, count: nat, chars: nat)
    requires Groups(stack, conns, nodes, index, count, chars)
    ensures count <= |nodes| && (|index| == 0 || |index| == |conns|) && (|conns| == 0 || |conns| >= INIT_GROUP_SIZE)
    ensures stack == [] ==> chars == 0
    ensures stack != [] ==>
              var top := |stack| - 1;
              && |stack| < |conns| && |index| > 0
              && conns[|stack|] == stack[top].conn
              && ParentOk(nodes, index[top], count)
              && nodes[index[top]].ctype == TypeOf(FrameKind(stack[top]))
  {
    hide MatchesKids, SizeKids;
    if stack != [] {
      TopBounds(nodes, index, stack, count);
    }
  }

  lemma GroupsGrow(stack: seq<Frame>, conns: seq<Conn>, nodes: seq<Node>, index: seq<nat>, count: nat, chars: nat,
                   conns': seq<Conn>, index': seq<nat>)
    requires Groups(stack, conns, nodes, index, count, chars)
    requires conns <= conns' && index <= index' && |conns'| >= INIT_GROUP_SIZE
    requires |index'| == |conns'| || index' == []
    ensures Groups(stack, conns', nodes, index', count, chars)
  {
    hide Linked;
    LinkedReindex(nodes, index, index', stack, count);
  }

  lemma GroupsPush(stack: seq<Frame>, conns: seq<Conn>, nodes: seq<Node>, index: seq<nat>, count: nat, chars: nat,
                   conns': seq<Conn>, linked: seq<Node>, nodes': seq<Node>, index': seq<nat>)
    requires Groups(stack, conns, nodes, index, count, chars)
    requires |stack| + 1 < |conns| == |index'| && conns' == conns[|stack| + 1 := NoConn]
    requires Agree(index, index', 0, |stack|) && index'[|stack|] == count
    requires count < |linked| && |nodes| <= |linked|
    requires stack != [] ==> index[|stack| - 1] < count && LinkedChild(nodes, linked, index[|stack| - 1], count)
    requires NewSlot(linked[count]) && nodes' == linked[count := linked[count].(ctype := CSeq)]
    ensures Groups(stack + [Frame(NoConn, false, [])], conns', nodes', index', count + 1, chars)
  {
    hide Linked, LinkedChild, StackChars;
    LinkPush(nodes, linked, nodes', index, index', stack, count);
    StackCharsPush(stack, Frame(NoConn, false, []));
  }

  lemma GroupsLeaf(stack: seq<Frame>, conns: seq<Conn>, nodes: seq<Node>, index: seq<nat>, count: nat, chars: nat,
                   linked: seq<Node>, nodes': seq<Node>, n: string, q: Quant)
    requires Groups(stack, conns, nodes, index, count, chars) && stack != [] && NameOk(n)
    requires count < |linked| && |nodes| <= |linked|
    requires index[|stack| - 1] < count && LinkedChild(nodes, linked, index[|stack| - 1], count)
    requires NewSlot(linked[count]) && nodes' == linked[count := linked[count].(ctype := CName, quant := q, name := n)]
    ensures Groups(AddKid(stack, Leaf(n, q)), conns, nodes', index, count + 1, chars + |n| + 1)
  {
    hide Linked, LinkedChild, StackChars;
    LinkLeaf(nodes, linked, nodes', index, stack, count, n, q);
    AddKidChars(stack, Leaf(n, q));
  }

  /** A change of connector and kind of the innermost group. */
  lemma GroupsRetype(stack: seq<Frame>, conns: seq<Conn>, nodes: seq<Node>, index: seq<nat>, count: nat, chars: nat,
                     conns': seq<Conn>, nodes': seq<Node>, f: Frame)
    requires Groups(stack, conns, nodes, index, count, chars) && stack != []
    requires f.kids == stack[|stack| - 1].kids && ParentOk(nodes, index[|stack| - 1], count)
    requires conns' == conns[|stack| := f.conn]
    requires
      var p := index[|stack| - 1];
      nodes' == nodes[p := nodes[p].(ctype := TypeOf(FrameKind(f)))]
    ensures Groups(stack[|stack| - 1 := f], conns', nodes', index, count, chars)
  {
    hide Linked, StackChars;
    LinkRetype(nodes, nodes', index, stack, count, f);
    StackCharsTop(stack, f);
  }

  lemma GroupsClose(stack: seq<Frame>, conns: seq<Conn>, nodes: seq<Node>, index: seq<nat>, count: nat, chars: nat,
                    nodes': seq<Node>, q: Quant)
    requires Groups(stack, conns, nodes, index, count, chars) && stack != []
    requires ParentOk(nodes, index[|stack| - 1], count)
    requires nodes' == nodes[index[|stack| - 1] := nodes[index[|stack| - 1]].(quant := q)]
    ensures
      var top := stack[|stack| - 1];
      var t := Group(FrameKind(top), top.kids, q);
      if |stack| > 1 then Groups(AddKid(stack[..|stack| - 1], t), conns, nodes', index, count, chars)
      else index[0] == 0 && Matches(nodes', 0, t, 0) && AllNamesOk(t) && count == Size(t) && chars == Chars(t)
  {
    hide Linked, StackChars, Matches;
    var top := stack[|stack| - 1];
    var t := Group(FrameKind(top), top.kids, q);
    assert KidsNamesOk(top.kids);
    LinkClose(nodes, nodes', index, stack, count, q);
    if |stack| > 1 {
      CharsOfRest(stack, t);
    } else {
      OneFrameChars(stack);
    }
  }

  /** A write that touched nothing but slots lo..hi. */
  ghost predicate SameOutside<T>(a: seq<T>, b: seq<T>, lo: nat, hi: nat)
  {
    |a| == |b| && forall k :: 0 <= k < |a| && !(lo <= k < hi) ==> b[k] == a[k]
  }

  /** A write that touched nothing but slot `one` and slots lo..hi. */
  ghost predicate SameBut<T>(a: seq<T>, b: seq<T>, one: nat, lo: nat, hi: nat)
  {
    |a| == |b| && forall k :: 0 <= k < |a| && k != one && !(lo <= k < hi) ==> b[k] == a[k]
  }

  /** Writes lo..mid, then one of these slots and mid..hi, are writes lo..hi. */
  lemma SameThen<T>(a: seq<T>, b: seq<T>, c: seq<T>, lo: nat, mid: nat, one: nat, hi: nat)
    requires SameOutside(a, b, lo, mid) && SameBut(b, c, one, mid, hi) && lo <= one < mid <= hi
    ensures SameOutside(a, c, lo, hi)
  {
  }

  lemma SameThenMore<T>(a: seq<T>, b: seq<T>, c: seq<T>, lo: nat, mid: nat, hi: nat)
    requires SameOutside(a, b, lo, mid) && SameOutside(b, c, mid, hi) && lo <= mid <= hi
    ensures SameOutside(a, c, lo, hi)
  {
  }

  lemma NothingBuilt(c: seq<Cell>, s: seq<char>, first: nat, cp: nat, sp: nat, kids: seq<Tree>)
    requires first + |kids| <= |c| && cp <= |c| && sp <= |s|
    ensures LaidKids(c, s, first, cp, sp, kids[..0])
    ensures SizeKids(kids[..0]) == CharsKids(kids[..0]) == 0
    ensures SameOutside(c, c, first, cp) && SameOutside(s, s, sp, sp)
  {
  }

  /** Building child `i` keeps the children before it and adds one. */
  lemma NextBuilt(c: seq<Cell>, s: seq<char>, c': seq<Cell>, s': seq<char>, first: nat, sp: nat, kids: seq<Tree>,
      i: nat,
                  cpEnd: nat, spEnd: nat)
    requires i < |kids| && SizeKids(kids[..i]) >= i
    requires
      var cp := first + |kids| + (SizeKids(kids[..i]) - i);
      && LaidKids(c, s, first, first + |kids|, sp, kids[..i])
      && SameBut(c, c', first + i, cp, cpEnd) && SameOutside(s, s', sp + CharsKids(kids[..i]), spEnd)
      && Laid(c', s', first + i, cp, sp + CharsKids(kids[..i]), kids[i])
    ensures LaidKids(c', s', first, first + |kids|, sp, kids[..i + 1])
  {
    LaidKidsLocal(c, s, c', s', first, first + |kids|, sp, kids[..i]);
    LaidSnoc(c', s', first, first + |kids|, sp, kids, i);
  }

  /** Memory fresh from malloc or realloc: callers learn its size, not its contents. */
  method Uninitialised<T>(n: nat, some: T) returns (s: seq<T>)
    ensures |s| == n
  {
    s := seq(n, _ => some);
  }

  class Parser {
    // PROLOG_STATE
    var handler: Handler
    var level: nat
    // the realloc'd buffers; a length is the allocated size, [] stands for NULL
    var groupConnector: seq<Conn>
    var scaffold: seq<Node>
    var scaffIndex: seq<nat>
    var scaffCount: nat
    var scaffLevel: nat
    var contentStringLen: nat
    // what the automaton of ContentModel holds
    ghost var stack: seq<Frame>
    ghost var result: Spec

    ghost function Abs(): State
      reads this
    {
      State(handler, stack, result)
    }

    /** The buffers hold the open groups; independent of the role machine. */
    ghost predicate Core()
      reads this
    {
      && scaffLevel == |stack|
      && Groups(stack, groupConnector, scaffold, scaffIndex, scaffCount, contentStringLen)
    }

    /** Valid, were the role machine in handler `h` at nesting level `lv`. */
    ghost predicate ValidAt(h: Handler, lv: nat)
      reads this
    {
      && (h in {E1, E2, E3, E4, E5, E6, E7} ==> Core())
      && (h in {E2, E3, E4, E5, E6, E7} ==> lv == |stack|)
      && (h in {E2, E6, E7} ==> forall j :: 0 <= j < |stack| ==> !stack[j].mixed)
      && (h in {E1, DeclClose, Top} ==> stack == [])
      && (h in {DeclClose, Top} ==> Idle())
      && (h != Failed ==> Sane(State(h, stack, result)))
    }

    /** Between declarations only the buffers' sizes matter. */
    ghost predicate Idle()
      reads this
    {
      && contentStringLen == 0
      && (|scaffIndex| == 0 || |scaffIndex| == |groupConnector|)
      && (|groupConnector| == 0 || |groupConnector| >= INIT_GROUP_SIZE)
    }

    ghost predicate Valid()
      reads this
    {
      ValidAt(handler, level)
    }

    constructor ()
      ensures Valid() && handler == Top
    {
      handler, level := Top, 0;
      groupConnector, scaffold, scaffIndex := [], [], [];
      scaffCount, scaffLevel, contentStringLen := 0, 0, 0;
      stack, result := [], EmptySpec;
    }

    /** XML_ROLE_ELEMENT_NAME: the buffers of earlier declarations are reused. */
    method StartDecl()
      requires Valid() && handler == Top
      modifies this
      ensures Valid() && Abs() == INITIAL
    {
      handler := E1;
      scaffLevel, scaffCount := 0, 0;
      stack, result := [], EmptySpec;
    }

    /** XmlTokenRole, dispatching on the handler; `level` follows the parentheses. */
    method TokenRole(tok: Token) returns (role: Role)
      requires handler == E7 ==> level > 0
      modifies this`handler, this`level
      ensures (role, handler) == RoleOf(old(handler), old(level), tok)
      ensures role == RGroupOpen ==>
                level == (if old(handler) == E1 then 1 else if old(handler) == E2 then 2 else old(level) + 1)
      ensures level == old(level) || role == RGroupOpen || (old(handler) == E7 && role.RGroupClose?)
      ensures old(handler) == E7 && role.RGroupClose? ==> level == old(level) - 1
    {
      role := RError;
      match handler {
        case E1 =>
          if tok.Blank? { role := RNone; return; }
          if tok == Name("EMPTY", QNone) { handler := DeclClose; role := REmpty; return; }
          if tok == Name("ANY", QNone) { handler := DeclClose; role := RAny; return; }
          if tok.OpenParen? { handler := E2; level := 1; role := RGroupOpen; return; }
        case E2 =>
          if tok.Blank? { role := RNone; return; }
          if tok.Pcdata? { handler := E3; role := RPcdata; return; }
          if tok.OpenParen? { level := 2; handler := E6; role := RGroupOpen; return; }
          if tok.Name? { handler := E7; role := RElement(tok.nq); return; }
        case E3 =>
          if tok.Blank? { role := RNone; return; }
          if tok == CloseParen(QNone) || tok == CloseParen(QRep) {
            handler := DeclClose;
            role := RGroupClose(tok.q);
            return;
          }
          if tok.Or? { handler := E4; role := RNone; return; }
        case E4 =>
          if tok.Blank? { role := RNone; return; }
          if tok.Name? && tok.nq == QNone { handler := E5; role := RElement(QNone); return; }
        case E5 =>
          if tok.Blank? { role := RNone; return; }
          if tok == CloseParen(QRep) { handler := DeclClose; role := RGroupClose(QRep); return; }
          if tok.Or? { handler := E4; role := RNone; return; }
        case E6 =>
          if tok.Blank? { role := RNone; return; }
          if tok.OpenParen? { level := level + 1; role := RGroupOpen; return; }
          if tok.Name? { handler := E7; role := RElement(tok.nq); return; }
        case E7 =>
          if tok.Blank? { role := RNone; return; }
          if tok.CloseParen? {
            level := level - 1;
            if level == 0 { handler := DeclClose; }
            role := RGroupClose(tok.q);
            return;
          }
          if tok.Comma? { handler := E6; role := RSequence; return; }
          if tok.Or? { handler := E6; role := RChoice; return; }
        case DeclClose =>
          if tok.Blank? { role := RNone; return; }
          if tok.DeclEnd? { handler := Top; role := RNone; return; }
        case Top =>
          if tok.Blank? { role := RNone; return; }
        case Failed =>
      }
      handler := Failed;
    }

    /** Room for the connector and the scaffold index of nesting level `level`. */
    method GrowGroups()
      requires Core() && level == |stack| + 1
      modifies this`groupConnector, this`scaffIndex
      ensures Core() && level < |groupConnector|
    {
      hide Groups;
      GroupsBounds(stack, groupConnector, scaffold, scaffIndex, scaffCount, contentStringLen);
      if level >= |groupConnector| {
        ghost var conns, index := groupConnector, scaffIndex;
        if |groupConnector| > 0 {
          var moreConns := Uninitialised(|groupConnector|, NoConn);
          if |scaffIndex| > 0 {
            var moreIndex := Uninitialised(|groupConnector|, 0);
            scaffIndex := scaffIndex + moreIndex;
          }
          groupConnector := groupConnector + moreConns;
        } else {
          groupConnector := Uninitialised(INIT_GROUP_SIZE, NoConn);
        }
        GroupsGrow(stack, conns, scaffold, index, scaffCount, contentStringLen, groupConnector, scaffIndex);
      }
    }

    /** Next free slot, linked under the innermost open group; slots keep stale data. */
    method NextScaffoldPart() returns (next: nat)
      requires scaffLevel < |groupConnector| && scaffCount <= |scaffold|
      requires |scaffIndex| == 0 || |scaffIndex| == |groupConnector|
      requires scaffLevel > 0 ==> |scaffIndex| > 0 && ParentOk(scaffold, scaffIndex[scaffLevel - 1], scaffCount)
      modifies this`scaffold, this`scaffCount, this`scaffIndex
      ensures next == old(scaffCount) && scaffCount == next + 1 <= |scaffold|
      ensures |scaffIndex| == |groupConnector| && (scaffLevel > 0 ==> scaffIndex == old(scaffIndex))
      ensures |old(scaffold)| <= |scaffold|
      ensures scaffLevel > 0 ==> LinkedChild(old(scaffold), scaffold, scaffIndex[scaffLevel - 1], next)
      ensures NewSlot(scaffold[next])
    {
      if |scaffIndex| == 0 {
        scaffIndex := Uninitialised(|groupConnector|, 0);
        scaffIndex := scaffIndex[0 := 0];
      }
      if scaffCount >= |scaffold| {
        var more := Uninitialised(if |scaffold| > 0 then |scaffold|
          else INIT_SCAFFOLD_ELEMENTS, Node(CEmpty, QNone, [], 0, 0, 0, 0));
        scaffold := scaffold + more;
      }
      next := scaffCount;
      scaffCount := scaffCount + 1;
      if scaffLevel > 0 {
        LinkUnder(scaffIndex[scaffLevel - 1], next);
      }
      scaffold := scaffold[next := scaffold[next].(firstchild := 0, lastchild := 0, childcnt := 0, nextsib := 0)];
    }

    /** Make slot `next` the last child of group `p`. */
    method LinkUnder(p: nat, next: nat)
      requires next < |scaffold| && ParentOk(scaffold, p, next)
      modifies this`scaffold
      ensures |scaffold| == |old(scaffold)| && LinkedChild(old(scaffold), scaffold, p, next)
    {
      var last := scaffold[p].lastchild;
      if last != 0 {
        scaffold := scaffold[last := scaffold[last].(nextsib := next)];
      }
      if scaffold[p].childcnt == 0 {
        scaffold := scaffold[p := scaffold[p].(firstchild := next)];
      }
      scaffold := scaffold[p := scaffold[p].(lastchild := next)];
      scaffold := scaffold[p := scaffold[p].(childcnt := scaffold[p].childcnt + 1)];
    }

    /** XML_ROLE_GROUP_OPEN */
    method GroupOpen()
      requires Core() && level == |stack| + 1
      modifies this`groupConnector, this`scaffold, this`scaffCount, this`scaffIndex, this`scaffLevel, this`stack
      ensures Core() && stack == old(stack) + [Frame(NoConn, false, [])]
    {
      hide Groups, LinkedChild;
      GrowGroups();
      ghost var conns, nodes, index := groupConnector, scaffold, scaffIndex;
      GroupsBounds(stack, conns, nodes, index, scaffCount, contentStringLen);
      groupConnector := groupConnector[level := NoConn];
      var myindex := NextScaffoldPart();
      ghost var linked := scaffold;
      scaffIndex := scaffIndex[scaffLevel := myindex];
      scaffLevel := scaffLevel + 1;
      scaffold := scaffold[myindex := scaffold[myindex].(ctype := CSeq)];
      GroupsPush(stack, conns, nodes, index, myindex, contentStringLen, groupConnector, linked, scaffold, scaffIndex);
      stack := stack + [Frame(NoConn, false, [])];
    }

    /** XML_ROLE_GROUP_SEQUENCE; false is XML_ERROR_SYNTAX. */
    method GroupSequence() returns (ok: bool)
      requires Core() && stack != [] && level == |stack| && !stack[|stack| - 1].mixed
      modifies this`groupConnector, this`stack
      ensures ok <==> old(stack)[level - 1].conn != PipeConn
      ensures !ok ==> stack == old(stack)
      ensures ok ==> Core() && stack == old(stack)[level - 1 := old(stack)[level - 1].(conn := CommaConn)]
    {
      hide Groups;
      ghost var conns := groupConnector;
      GroupsBounds(stack, conns, scaffold, scaffIndex, scaffCount, contentStringLen);
      if groupConnector[level] == PipeConn { return false; }
      groupConnector := groupConnector[level := CommaConn];
      ghost var f := stack[level - 1].(conn := CommaConn);
      GroupsRetype(stack, conns, scaffold, scaffIndex, scaffCount, contentStringLen, groupConnector, scaffold, f);
      stack := stack[level - 1 := f];
      ok := true;
    }

    /** XML_ROLE_GROUP_CHOICE; the first '|' turns the group into a choice. */
    method GroupChoice() returns (ok: bool)
      requires Core() && stack != [] && level == |stack| && !stack[|stack| - 1].mixed
      modifies this`groupConnector, this`scaffold, this`stack
      ensures ok <==> old(stack)[level - 1].conn != CommaConn
      ensures !ok ==> stack == old(stack)
      ensures ok ==> Core() && stack == old(stack)[level - 1 := old(stack)[level - 1].(conn := PipeConn)]
    {
      hide Groups;
      ghost var conns, nodes := groupConnector, scaffold;
      GroupsBounds(stack, conns, nodes, scaffIndex, scaffCount, contentStringLen);
      if groupConnector[level] == CommaConn { return false; }
      var p := scaffIndex[scaffLevel - 1];
      if groupConnector[level] == NoConn && scaffold[p].ctype != CMixed {
        scaffold := scaffold[p := scaffold[p].(ctype := CChoice)];
      }
      groupConnector := groupConnector[level := PipeConn];
      ghost var f := stack[level - 1].(conn := PipeConn);
      GroupsRetype(stack, conns, nodes, scaffIndex, scaffCount, contentStringLen, groupConnector, scaffold, f);
      stack := stack[level - 1 := f];
      ok := true;
    }

    /** XML_ROLE_CONTENT_PCDATA */
    method ContentPcdata()
      requires Core() && |stack| == 1
      modifies this`scaffold, this`stack
      ensures Core() && stack == [old(stack)[0].(mixed := true)]
    {
      hide Groups;
      ghost var nodes := scaffold;
      GroupsBounds(stack, groupConnector, nodes, scaffIndex, scaffCount, contentStringLen);
      var p := scaffIndex[scaffLevel - 1];
      scaffold := scaffold[p := scaffold[p].(ctype := CMixed)];
      ghost var f := stack[0].(mixed := true);
      GroupsRetype(stack, groupConnector, nodes, scaffIndex, scaffCount, contentStringLen, groupConnector, scaffold, f);
      stack := stack[0 := f];
    }

    /** XML_ROLE_CONTENT_ELEMENT and its quantified forms. */
    method ContentElement(n: string, q: Quant)
      requires Core() && stack != [] && NameOk(n)
      modifies this`scaffold, this`scaffCount, this`scaffIndex, this`contentStringLen, this`stack
      ensures Core() && stack == AddKid(old(stack), Leaf(n, q))
    {
      hide Groups, LinkedChild;
      ghost var nodes, chars := scaffold, contentStringLen;
      GroupsBounds(stack, groupConnector, nodes, scaffIndex, scaffCount, chars);
      var myindex := NextScaffoldPart();
      ghost var linked := scaffold;
      scaffold := scaffold[myindex := scaffold[myindex].(ctype := CName)];
      scaffold := scaffold[myindex := scaffold[myindex].(quant := q)];
      scaffold := scaffold[myindex := scaffold[myindex].(name := n)];
      contentStringLen := contentStringLen + |n| + 1;
      GroupsLeaf(stack, groupConnector, nodes, scaffIndex, myindex, chars, linked, scaffold, n, q);
      stack := AddKid(stack, Leaf(n, q));
    }

    /** XML_ROLE_GROUP_CLOSE and its quantified forms, up to build_model. */
    method GroupClose(q: Quant) returns (content: Content)
      requires Core() && stack != []
      modifies this`scaffLevel, this`contentStringLen, this`stack, this`result, this`scaffold
      ensures Closed(old(stack), q, old(result), content)
      ensures |old(stack)| > 1 ==> Core()
      ensures |old(stack)| == 1 ==>
                && Idle() && fresh(content.cells) && fresh(content.strs)
                && content.cells.Length == scaffCount && content.strs.Length == old(contentStringLen)
    {
      hide Groups, Matches, Reads;
      content := NoContent;
      ghost var nodes := scaffold;
      ghost var top := stack[|stack| - 1];
      ghost var t := Group(FrameKind(top), top.kids, q);
      GroupsBounds(stack, groupConnector, nodes, scaffIndex, scaffCount, contentStringLen);
      scaffLevel := scaffLevel - 1;
      var p := scaffIndex[scaffLevel];
      scaffold := scaffold[p := scaffold[p].(quant := q)];
      GroupsClose(stack, groupConnector, nodes, scaffIndex, scaffCount, contentStringLen, scaffold, q);
      if scaffLevel == 0 {
        var cells, strs := BuildModel(t);
        content := Block(cells, strs);
        contentStringLen := 0;
        stack, result := [], Model(t);
      } else {
        stack := AddKid(stack[..|stack| - 1], t);
      }
    }

    /** Closing the innermost of `before`: its tree joins the parent, or is the result. */
    ghost predicate Closed(before: seq<Frame>, q: Quant, was: Spec, content: Content)
      requires before != []
      reads this, if content.Block? then {content.cells as object, content.strs as object} else {}
    {
      var top := before[|before| - 1];
      var t := Group(FrameKind(top), top.kids, q);
      if |before| > 1 then
        stack == AddKid(before[..|before| - 1], t) && content == NoContent && result == was
      else
        stack == [] && result == Model(t) && content.Block? && Delivered(content)
    }

    method BuildModel(ghost t: Tree) returns (cells: array<Cell>, strs: array<char>)
      requires Matches(scaffold, 0, t, 0) && AllNamesOk(t)
      requires scaffCount == Size(t) && contentStringLen == Chars(t)
      ensures fresh(cells) && fresh(strs) && cells.Length == scaffCount && strs.Length == contentStringLen
      ensures Reads(cells[..], strs[..], 0, t)
    {
      cells := new Cell[scaffCount];
      strs := new char[contentStringLen];
      var contpos, strpos := BuildNode(0, cells, strs, 0, 1, 0, t, 0);
      assert contpos == scaffCount && strpos == contentStringLen;
      LaidReads(cells[..], strs[..], 0, 1, 0, t);
    }

    /** build_node: `contpos` and `strpos` come back past what the tree needs. */
    method BuildNode(src: nat, cells: array<Cell>, strs: array<char>, dest: nat, contpos: nat, strpos: nat,
                     ghost t: Tree, ghost sib: nat)
      returns (contpos': nat, strpos': nat)
      requires Matches(scaffold, src, t, sib) && AllNamesOk(t)
      requires dest < contpos && contpos + Size(t) - 1 <= cells.Length && strpos + Chars(t) <= strs.Length
      modifies cells, strs
      ensures contpos' == contpos + Size(t) - 1 && strpos' == strpos + Chars(t)
      ensures Laid(cells[..], strs[..], dest, contpos, strpos, t)
      ensures SameBut(old(cells[..]), cells[..], dest, contpos, contpos')
      ensures SameOutside(old(strs[..]), strs[..], strpos, strpos')
      decreases t, 1
    {
      var node := scaffold[src];
      contpos', strpos' := contpos, strpos;
      if node.ctype == CName {
        cells[dest] := Cell(node.ctype, node.quant, strpos, 0, 0);
        strpos' := CopyName(node.name, strs, strpos);
      } else {
        SizeKidsMonotone(t.kids, 0);
        cells[dest] := Cell(node.ctype, node.quant, 0, node.childcnt, contpos);
        hide LaidKids, MatchesKids;
        contpos', strpos' := BuildKids(node.firstchild, node.childcnt, cells, strs, contpos, strpos, src + 1, t.kids);
      }
    }

    /** The loop of build_node over the children of a group. */
    method BuildKids(firstchild: nat, childcnt: nat, cells: array<Cell>, strs: array<char>, first: nat, strpos: nat,
                     ghost at: nat, ghost kids: seq<Tree>)
      returns (contpos': nat, strpos': nat)
      requires MatchesKids(scaffold, at, kids, 0) && KidsNamesOk(kids)
      requires childcnt == |kids| && (kids != [] ==> firstchild == at) && SizeKids(kids) >= |kids|
      requires 0 < first && first + SizeKids(kids) <= cells.Length && strpos + CharsKids(kids) <= strs.Length
      modifies cells, strs
      ensures contpos' == first + SizeKids(kids) && strpos' == strpos + CharsKids(kids)
      ensures LaidKids(cells[..], strs[..], first, first + |kids|, strpos, kids)
      ensures SameOutside(old(cells[..]), cells[..], first, contpos')
      ensures SameOutside(old(strs[..]), strs[..], strpos, strpos')
      decreases kids, 0, 1
    {
      contpos', strpos' := first + childcnt, strpos;
      var cn := firstchild;
      var i := 0;
      assert kids[..0] == [];
      hide MatchesKids, LaidKids, Laid, SizeKids, CharsKids, SameOutside, SameBut, Matches, AllNamesOk;
      NothingBuilt(cells[..], strs[..], first, first + |kids|, strpos, kids);
      while i < childcnt
        invariant i <= |kids|
        invariant SizeKids(kids[..i]) >= i && contpos' == first + |kids| + (SizeKids(kids[..i]) - i)
        invariant strpos' == strpos + CharsKids(kids[..i])
        invariant i < |kids| ==> cn == at + SizeKids(kids[..i])
        invariant LaidKids(cells[..], strs[..], first, first + |kids|, strpos, kids[..i])
        invariant SameOutside(old(cells[..]), cells[..], first, contpos')
        invariant SameOutside(old(strs[..]), strs[..], strpos, strpos')
      {
        contpos', strpos' := BuildKid(i, cn, cells, strs, first, contpos', strpos', strpos, at, kids, old(cells[..]),
          old(strs[..]));
        MatchNext(scaffold, at, kids, i);
        SizeKidsTake(kids, i);
        cn := scaffold[cn].nextsib;
        i := i + 1;
      }
      assert kids[..i] == kids;
    }

    /** Child `i` of a group, the earlier ones being built. */
    method BuildKid(i: nat, cn: nat, cells: array<Cell>, strs: array<char>, first: nat, contpos: nat, strpos: nat,
                    ghost sp: nat, ghost at: nat, ghost kids: seq<Tree>, ghost cells0: seq<Cell>,
                      ghost strs0: seq<char>)
      returns (contpos': nat, strpos': nat)
      requires MatchesKids(scaffold, at, kids, 0) && KidsNamesOk(kids) && i < |kids| && cn == at + SizeKids(kids[..i])
      requires SizeKids(kids) >= |kids| && SizeKids(kids[..i]) >= i
      requires contpos == first + |kids| + (SizeKids(kids[..i]) - i) && strpos == sp + CharsKids(kids[..i])
      requires 0 < first && first + SizeKids(kids) <= cells.Length && sp + CharsKids(kids) <= strs.Length
      requires LaidKids(cells[..], strs[..], first, first + |kids|, sp, kids[..i])
      requires SameOutside(cells0, cells[..], first, contpos) && SameOutside(strs0, strs[..], sp, strpos)
      modifies cells, strs
      ensures SizeKids(kids[..i + 1]) >= i + 1
      ensures contpos' == first + |kids| + (SizeKids(kids[..i + 1]) - (i + 1))
      ensures strpos' == sp + CharsKids(kids[..i + 1])
      ensures LaidKids(cells[..], strs[..], first, first + |kids|, sp, kids[..i + 1])
      ensures SameOutside(cells0, cells[..], first, contpos') && SameOutside(strs0, strs[..], sp, strpos')
      decreases kids, 0, 0
    {
      hide MatchesKids, LaidKids, Laid, SizeKids, CharsKids, SameOutside, SameBut, Matches, AllNamesOk;
      ghost var sib := if i + 1 < |kids| then at + SizeKids(kids[..i + 1]) else 0;
      KidAt(scaffold, at, kids, 0, i);
      SizeKidsTake(kids, i);
      ghost var c0, s0 := cells[..], strs[..];
      contpos', strpos' := BuildNode(cn, cells, strs, first + i, contpos, strpos, kids[i], sib);
      NextBuilt(c0, s0, cells[..], strs[..], first, sp, kids, i, contpos', strpos');
      SameThen(cells0, c0, cells[..], first, contpos, first + i, contpos');
      SameThenMore(strs0, s0, strs[..], sp, strpos, strpos');
    }

    /** Copy a name with its terminator. */
    method CopyName(name: string, strs: array<char>, strpos: nat) returns (end: nat)
      requires strpos + |name| + 1 <= strs.Length
      modifies strs
      ensures end == strpos + |name| + 1 && StringAt(strs[..], strpos, name)
      ensures SameOutside(old(strs[..]), strs[..], strpos, end)
    {
      var i := 0;
      while i < |name|
        invariant i <= |name|
        invariant forall k :: 0 <= k < i ==> strs[strpos + k] == name[k]
        invariant forall k :: 0 <= k < strs.Length && !(strpos <= k < strpos + i) ==> strs[k] == old(strs[k])
      {
        strs[strpos + i] := name[i];
        i := i + 1;
      }
      strs[strpos + i] := '\0';
      end := strpos + i + 1;
      assert strs[..][strpos..strpos + |name|] == name;
    }

    /** TokenRole has just taken handler `h` at level `lv` to the present one. */
    ghost predicate Moved(h: Handler, lv: nat, tok: Token, role: Role)
      reads this
    {
      && ValidAt(h, lv) && h != Failed
      && (role, handler) == RoleOf(h, lv, tok)
      && level == (if role == RGroupOpen then |stack| + 1
                   else if role.RGroupClose? && h == E7 then lv - 1 else lv)
    }

    /** Roles that touch no group: blanks, '|' of mixed content, EMPTY, ANY, '>'. */
    method DoPlain(tok: Token, role: Role, ghost h: Handler, ghost lv: nat) returns (content: Content)
      requires Moved(h, lv, tok, role) && role in {RNone, REmpty, RAny}
      modifies this`result
      ensures Valid() && Abs() == Step(State(h, old(stack), old(result)), tok)
      ensures content == NoContent <==> role == RNone
      ensures role == RNone ==> (handler in {DeclClose, Top} ==> h in {DeclClose, handler}) && result == old(result)
      ensures role != RNone ==> h != DeclClose && handler == DeclClose && Delivered(content) && content.Plain?
    {
      hide Groups;
      if h == E1 {
        GroupsBounds(stack, groupConnector, scaffold, scaffIndex, scaffCount, contentStringLen);
      }
      content := NoContent;
      if role == REmpty {
        content, result := Plain(CEmpty), EmptySpec;
      } else if role == RAny {
        content, result := Plain(CAny), AnySpec;
      }
    }

    lemma MovedError(h: Handler, lv: nat, tok: Token)
      requires Moved(h, lv, tok, RError)
      ensures Step(State(h, stack, result), tok) == REJECT
    {
      hide Groups;
    }

    method DoOpen(tok: Token, ghost h: Handler, ghost lv: nat)
      requires Moved(h, lv, tok, RGroupOpen)
      modifies this`groupConnector, this`scaffold, this`scaffCount, this`scaffIndex, this`scaffLevel, this`stack
      ensures Valid() && h != DeclClose && handler !in {DeclClose, Top}
      ensures Abs() == Step(State(h, old(stack), old(result)), tok)
    {
      hide Groups;
      GroupOpen();
    }

    method DoItem(tok: Token, role: Role, ghost h: Handler, ghost lv: nat)
      requires Moved(h, lv, tok, role) && (role == RPcdata || role.RElement?)
      requires tok.Name? ==> NameOk(tok.n)
      modifies this`scaffold, this`scaffCount, this`scaffIndex, this`contentStringLen, this`stack
      ensures Valid() && h != DeclClose && handler !in {DeclClose, Top}
      ensures Abs() == Step(State(h, old(stack), old(result)), tok)
    {
      hide Groups;
      if role == RPcdata {
        ContentPcdata();
      } else {
        ContentElement(tok.n, role.q);
      }
    }

    method DoConnect(tok: Token, role: Role, ghost h: Handler, ghost lv: nat) returns (ok: bool)
      requires Moved(h, lv, tok, role) && (role == RSequence || role == RChoice)
      modifies this`groupConnector, this`scaffold, this`stack
      ensures ok <==> Step(State(h, old(stack), old(result)), tok) != REJECT
      ensures ok ==>
        && Valid() && h != DeclClose && handler !in {DeclClose, Top}
        && Abs() == Step(State(h, old(stack), old(result)), tok)
    {
      hide Groups;
      if role == RSequence {
        ok := GroupSequence();
      } else {
        ok := GroupChoice();
      }
    }

    method DoClose(tok: Token, role: Role, ghost h: Handler, ghost lv: nat) returns (content: Content)
      requires Moved(h, lv, tok, role) && role.RGroupClose?
      modifies this`scaffLevel, this`contentStringLen, this`stack, this`result, this`scaffold
      ensures Valid() && Abs() == Step(State(h, old(stack), old(result)), tok)
      ensures h != DeclClose && handler != Top && (content == NoContent <==> handler != DeclClose)
      ensures content != NoContent ==> Delivered(content)
      ensures content.Block? ==> fresh(content.cells) && fresh(content.strs)
    {
      hide Groups, Reads;
      content := GroupClose(role.cq);
    }

    /** One token: its role, then the prolog loop's action. */
    method Process(tok: Token) returns (content: Content)
      requires Valid() && handler != Failed
      requires tok.Name? ==> NameOk(tok.n)
      modifies this
      ensures Valid()
      ensures Abs() == Step(old(Abs()), tok)
      ensures content == NoContent <==> !(old(handler) != DeclClose && handler == DeclClose)
      ensures content != NoContent ==> Delivered(content)
      ensures content == NoContent && handler in {DeclClose, Top} ==>
                old(handler) in {DeclClose, Top} && result == old(result)
      ensures content.Block? ==> fresh(content.cells) && fresh(content.strs)
    {
      hide Groups, Reads;
      ghost var h, lv := handler, level;
      var role := TokenRole(tok);
      content := Perform(role, tok, h, lv);
    }

    /** The prolog loop's switch on the role. */
    method Perform(role: Role, tok: Token, ghost h: Handler, ghost lv: nat) returns (content: Content)
      requires Moved(h, lv, tok, role)
      requires tok.Name? ==> NameOk(tok.n)
      modifies this
      ensures Valid()
      ensures Abs() == Step(State(h, old(stack), old(result)), tok)
      ensures content == NoContent <==> !(h != DeclClose && handler == DeclClose)
      ensures content != NoContent ==> Delivered(content)
      ensures content == NoContent && handler in {DeclClose, Top} ==> h in {DeclClose, Top} && result == old(result)
      ensures content.Block? ==> fresh(content.cells) && fresh(content.strs)
    {
      hide Groups, Reads, Step, RoleOf;
      content := NoContent;
      var ok := true;
      match role {
        case RNone => content := DoPlain(tok, role, h, lv);
        case REmpty => content := DoPlain(tok, role, h, lv);
        case RAny => content := DoPlain(tok, role, h, lv);
        case RError => MovedError(h, lv, tok); ok := false;
        case RGroupOpen => DoOpen(tok, h, lv);
        case RPcdata => DoItem(tok, role, h, lv);
        case RElement(_) => DoItem(tok, role, h, lv);
        case RGroupClose(_) => content := DoClose(tok, role, h, lv);
        case RSequence => ok := DoConnect(tok, role, h, lv);
        case RChoice => ok := DoConnect(tok, role, h, lv);
      }
      if !ok {
        Abandon();
      }
    }

    /** XML_ERROR_SYNTAX: the declaration is given up. */
    method Abandon()
      modifies this`handler, this`stack, this`result
      ensures Valid() && Abs() == REJECT
    {
      handler := Failed;
      stack, result := [], EmptySpec;
    }

    /** `content` is the automaton's result. */
    ghost predicate Delivered(content: Content)
      reads this, if content.Block? then {content.cells as object, content.strs as object} else {}
    {
      match content
      case NoContent => false
      case Plain(c) => (result == EmptySpec && c == CEmpty) || (result == AnySpec && c == CAny)
      case Block(cells, strs) =>
        && result.Model?
        && cells.Length == Size(result.tree) && strs.Length == Chars(result.tree)
        && Reads(cells[..], strs[..], 0, result.tree)
    }

    /**
      A whole declaration. It succeeds exactly on the tokens of a well-formed content
      specification, and then the content delivered is that specification.
    */
    method ParseDecl(toks: seq<Token>) returns (ok: bool, content: Content)
      requires Valid() && handler == Top && TokensOk(toks)
      modifies this
      ensures ok ==> Valid() && handler == Top
      ensures ok ==> WellFormed(result) && Strip(toks) == Print(result)
      ensures forall spec :: WellFormed(spec) && Strip(toks) == Print(spec) ==> ok && result == spec
      ensures ok ==> Delivered(content)
    {
      hide Groups, Reads, Step, Print, WellFormed, Strip;
      StartDecl();
      content := NoContent;
      var i := 0;
      assert toks[..0] == [];
      while i < |toks| && handler != Failed
        invariant i <= |toks| && Valid()
        invariant Abs() == Run(toks[..i])
        invariant handler in {DeclClose, Top} ==> Delivered(content)
      {
        var c := Process(toks[i]);
        if c != NoContent {
          content := c;
        }
        assert toks[..i + 1][..i] == toks[..i];
        i := i + 1;
      }
      ok := handler == Top;
      if handler == Failed {
        RunStops(toks, i);
      }
      assert toks[..|toks|] == toks;
      if ok {
        OnlyPrinted(toks, result);
      }
      forall spec | WellFormed(spec) && Strip(toks) == Print(spec)
        ensures ok && result == spec
      {
        RoundTrip(spec, toks);
      }
    }
  }
}
