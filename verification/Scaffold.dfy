/**
  The content-model compiler of xmlparse.c: the scaffold that doProlog fills while
  a declaration is read, and build_model, which turns it into the XML_Content
  block handed to the application.

  `DeclParser` refines the automaton of ContentModel: every array it indexes is
  in range for every token sequence, and at the last ')' the block it builds
  holds the tree of the automaton's innermost group.
*/
module Scaffold {
  import opened ContentModel

  datatype CType = CEmpty | CAny | CMixed | CName | CChoice | CSeq

  function TypeOf(k: Kind): CType
  {
    match k
    case Seq => CSeq
    case Choice => CChoice
    case Mixed => CMixed
  }

  /** CONTENT_SCAFFOLD; index 0 doubles as "none", the root being nobody's child. */
  datatype Node = Node(ctype: CType, quant: Quant, name: string,
                       firstchild: nat, lastchild: nat, childcnt: nat, nextsib: nat)

  // ------------------------------------------------ scaffold against trees

  lemma {:induction false} SizeKidsMonotone(kids: seq<Tree>, k: nat)
    requires k <= |kids|
    ensures SizeKids(kids[..k]) <= SizeKids(kids)
    ensures CharsKids(kids[..k]) <= CharsKids(kids)
    ensures SizeKids(kids[..k]) - k <= SizeKids(kids) - |kids|
  {
    if k == |kids| {
      assert kids[..k] == kids;
    } else {
      var front := kids[..|kids| - 1];
      SizeKidsMonotone(front, k);
      assert front[..k] == kids[..k];
    }
  }

  lemma SizeKidsSnoc(kids: seq<Tree>, t: Tree)
    ensures SizeKids(kids + [t]) == SizeKids(kids) + Size(t)
    ensures CharsKids(kids + [t]) == CharsKids(kids) + Chars(t)
  {
    assert (kids + [t])[..|kids|] == kids;
  }

  lemma SizeKidsTake(kids: seq<Tree>, k: nat)
    requires k < |kids|
    ensures SizeKids(kids[..k + 1]) == SizeKids(kids[..k]) + Size(kids[k])
    ensures CharsKids(kids[..k + 1]) == CharsKids(kids[..k]) + Chars(kids[k])
    ensures SizeKids(kids[..k + 1]) <= SizeKids(kids)
    ensures CharsKids(kids[..k + 1]) <= CharsKids(kids)
    ensures SizeKids(kids[..k + 1]) - (k + 1) <= SizeKids(kids) - |kids|
  {
    hide Size, SizeKids, Chars, CharsKids;
    assert kids[..k + 1] == kids[..k] + [kids[k]];
    SizeKidsSnoc(kids[..k], kids[k]);
    SizeKidsMonotone(kids, k + 1);
  }

  /** Slots i, i+1, ... hold tree `t` in creation order; `sib` is its next sibling. */
  predicate Matches(nodes: seq<Node>, i: nat, t: Tree, sib: nat)
    decreases t, 1
  {
    && i + Size(t) <= |nodes|
    && nodes[i].quant == t.quant
    && nodes[i].nextsib == sib
    && match t
       case Leaf(n, _) => nodes[i].ctype == CName && nodes[i].name == n
       case Group(k, kids, _) =>
         && nodes[i].ctype == TypeOf(k)
         && nodes[i].childcnt == |kids|
         && (kids != [] ==> nodes[i].firstchild == i + 1)
         && MatchesKids(nodes, i + 1, kids, 0)
  }

  predicate MatchesKids(nodes: seq<Node>, i: nat, kids: seq<Tree>, sib: nat)
    decreases kids, 0
  {
    && i + SizeKids(kids) <= |nodes|
    && (kids != [] ==>
          var n := |kids| - 1;
          var last := i + SizeKids(kids[..n]);
          && MatchesKids(nodes, i, kids[..n], last)
          && Matches(nodes, last, kids[n], sib))
  }

  ghost predicate Agree<T>(a: seq<T>, b: seq<T>, lo: nat, hi: nat)
  {
    hi <= |a| && hi <= |b| && forall j :: lo <= j < hi ==> a[j] == b[j]
  }

  /** A tree's slots are all that `Matches` reads. */
  lemma {:induction false} MatchesLocal(a: seq<Node>, b: seq<Node>, i: nat, t: Tree, sib: nat)
    requires Matches(a, i, t, sib) && Agree(a, b, i, i + Size(t))
    ensures Matches(b, i, t, sib)
    decreases t, 1
  {
    if t.Group? {
      MatchesKidsLocal(a, b, i + 1, t.kids, 0);
    }
  }

  lemma {:induction false} MatchesKidsLocal(a: seq<Node>, b: seq<Node>, i: nat, kids: seq<Tree>, sib: nat)
    requires MatchesKids(a, i, kids, sib) && Agree(a, b, i, i + SizeKids(kids))
    ensures MatchesKids(b, i, kids, sib)
    decreases kids, 0
  {
    if kids != [] {
      var n := |kids| - 1;
      var last := i + SizeKids(kids[..n]);
      MatchesKidsLocal(a, b, i, kids[..n], last);
      MatchesLocal(a, b, last, kids[n], sib);
    }
  }

  /** Where the last child starts; 0 when there is none, as in the source. */
  function LastStart(i: nat, kids: seq<Tree>): nat
  {
    if kids == [] then 0 else i + SizeKids(kids[..|kids| - 1])
  }

  /** Setting the last child's `nextsib` moves the whole list's sibling. */
  lemma Resibling(a: seq<Node>, b: seq<Node>, i: nat, kids: seq<Tree>, sib: nat, sib': nat)
    requires MatchesKids(a, i, kids, sib) && kids != []
    requires
      var last := LastStart(i, kids);
      && Agree(a, b, i, last) && i + SizeKids(kids) <= |b|
      && b[last] == a[last].(nextsib := sib')
      && Agree(a, b, last + 1, i + SizeKids(kids))
    ensures MatchesKids(b, i, kids, sib')
  {
    var n := |kids| - 1;
    var last := LastStart(i, kids);
    MatchesKidsLocal(a, b, i, kids[..n], last);
    if kids[n].Group? {
      MatchesKidsLocal(a, b, last + 1, kids[n].kids, 0);
    }
  }

  lemma MatchesSnoc(nodes: seq<Node>, i: nat, kids: seq<Tree>, t: Tree, sib: nat)
    requires MatchesKids(nodes, i, kids, i + SizeKids(kids)) || (kids == [] && i <= |nodes|)
    requires Matches(nodes, i + SizeKids(kids), t, sib)
    ensures MatchesKids(nodes, i, kids + [t], sib)
  {
    SizeKidsSnoc(kids, t);
    assert (kids + [t])[..|kids|] == kids;
  }

  /** Walking `nextsib` from the first child meets the children in order. */
  lemma {:induction false} KidAt(nodes: seq<Node>, i: nat, kids: seq<Tree>, sib: nat, k: nat)
    requires MatchesKids(nodes, i, kids, sib) && k < |kids|
    ensures Matches(nodes, i + SizeKids(kids[..k]), kids[k],
                    if k + 1 < |kids| then i + SizeKids(kids[..k + 1]) else sib)
  {
    var n := |kids| - 1;
    var front := kids[..n];
    if k < n {
      KidAt(nodes, i, front, i + SizeKids(front), k);
      assert front[..k] == kids[..k];
      assert front[..k + 1] == kids[..k + 1];
      if k + 1 == n { assert kids[..k + 1] == front; }
    }
  }

  lemma MatchNext(nodes: seq<Node>, i: nat, kids: seq<Tree>, k: nat)
    requires MatchesKids(nodes, i, kids, 0) && k < |kids|
    ensures
      var at := i + SizeKids(kids[..k]);
      at < |nodes| && (k + 1 < |kids| ==> nodes[at].nextsib == i + SizeKids(kids[..k + 1]))
  {
    KidAt(nodes, i, kids, 0, k);
  }

  /** Open group `f` at slot `idx`; `child` is its open child group, 0 if there is none. */
  predicate FrameAt(nodes: seq<Node>, idx: nat, f: Frame, child: nat)
  {
    var end := idx + 1 + SizeKids(f.kids);
    && end <= |nodes|
    && nodes[idx].ctype == TypeOf(FrameKind(f))
    && nodes[idx].nextsib == 0
    && nodes[idx].childcnt == |f.kids| + (if child != 0 then 1 else 0)
    && (nodes[idx].childcnt > 0 ==> nodes[idx].firstchild == idx + 1)
    && nodes[idx].lastchild == (if child != 0 then child else LastStart(idx + 1, f.kids))
    && (child != 0 ==> child == end)
    && MatchesKids(nodes, idx + 1, f.kids, child)
  }

  lemma FrameLocal(a: seq<Node>, b: seq<Node>, idx: nat, f: Frame, child: nat)
    requires FrameAt(a, idx, f, child) && Agree(a, b, idx, idx + 1 + SizeKids(f.kids))
    ensures FrameAt(b, idx, f, child)
  {
    MatchesKidsLocal(a, b, idx + 1, f.kids, child);
  }

  /** The open groups, outermost first, with every slot below `count` accounted for. */
  ghost predicate Linked(nodes: seq<Node>, index: seq<nat>, stack: seq<Frame>, count: nat)
  {
    && count <= |nodes|
    && |stack| <= |index|
    && (forall i, j :: 0 <= i < j < |stack| ==> index[i] < index[j])
    && (forall j :: 0 <= j < |stack| - 1 ==> FrameAt(nodes, index[j], stack[j], index[j + 1]))
    && (stack != [] ==>
          && index[0] == 0
          && FrameAt(nodes, index[|stack| - 1], stack[|stack| - 1], 0)
          && count == index[|stack| - 1] + 1 + SizeKids(stack[|stack| - 1].kids))
    && (stack == [] ==> count == 0)
  }

  /** Only the entries of open groups matter in the index. */
  lemma LinkedReindex(nodes: seq<Node>, index: seq<nat>, index': seq<nat>, stack: seq<Frame>, count: nat)
    requires Linked(nodes, index, stack, count) && Agree(index, index', 0, |stack|)
    ensures Linked(nodes, index', stack, count)
  {
    forall j | 0 <= j < |stack| - 1
      ensures FrameAt(nodes, index'[j], stack[j], index'[j + 1])
    {
      assert FrameAt(nodes, index[j], stack[j], index[j + 1]);
    }
  }

  /** The writes of nextScaffoldPart: link a new slot under the innermost group. */
  ghost predicate LinkedChild(a: seq<Node>, b: seq<Node>, idx: nat, next: nat)
    requires idx < next < |b| && next <= |a|
  {
    && (forall j :: 0 <= j < next && j != idx && (a[idx].lastchild == 0 || j != a[idx].lastchild) ==> b[j] == a[j])
    && (a[idx].lastchild != 0 && a[idx].lastchild < next && a[idx].lastchild != idx ==>
          b[a[idx].lastchild] == a[a[idx].lastchild].(nextsib := next))
    && b[idx] == a[idx].(firstchild := if a[idx].childcnt == 0 then next else a[idx].firstchild,
                         lastchild := next, childcnt := a[idx].childcnt + 1)
  }

  /** A slot just handed out: no links, the rest stale. */
  predicate NewSlot(n: Node) { n.firstchild == n.lastchild == n.childcnt == n.nextsib == 0 }

  /** What nextScaffoldPart relies on about the innermost open group. */
  predicate ParentOk(nodes: seq<Node>, idx: nat, count: nat)
  {
    idx < count <= |nodes| && (nodes[idx].lastchild == 0 || idx < nodes[idx].lastchild < count)
  }

  lemma LinkTop(a: seq<Node>, b: seq<Node>, idx: nat, f: Frame, next: nat)
    requires FrameAt(a, idx, f, 0) && next == idx + 1 + SizeKids(f.kids) < |b|
    requires LinkedChild(a, b, idx, next)
    ensures FrameAt(b, idx, f, next)
  {
    if f.kids != [] {
      var last := LastStart(idx + 1, f.kids);
      assert last < next by { SizeKidsTake(f.kids, |f.kids| - 1); assert f.kids[..|f.kids|] == f.kids; }
      Resibling(a, b, idx + 1, f.kids, 0, next);
    }
  }

  /** Lower groups are untouched by writes to the innermost one and beyond. */
  lemma LowerFrames(a: seq<Node>, b: seq<Node>, index: seq<nat>, stack: seq<Frame>, count: nat, top: nat)
    requires Linked(a, index, stack, count) && top < |stack| && |a| <= |b|
    requires forall j :: 0 <= j < index[top] ==> b[j] == a[j]
    ensures forall j :: 0 <= j < top ==> FrameAt(b, index[j], stack[j], index[j + 1])
  {
    forall j | 0 <= j < top
      ensures FrameAt(b, index[j], stack[j], index[j + 1])
    {
      assert FrameAt(a, index[j], stack[j], index[j + 1]);
      FrameLocal(a, b, index[j], stack[j], index[j + 1]);
    }
  }

  lemma NewFrame(nodes: seq<Node>, idx: nat)
    requires idx < |nodes| && NewSlot(nodes[idx]) && nodes[idx].ctype == CSeq
    ensures FrameAt(nodes, idx, Frame(NoConn, false, []), 0)
  {
  }

  lemma NewLeaf(nodes: seq<Node>, idx: nat, n: string, q: Quant)
    requires idx < |nodes| && NewSlot(nodes[idx])
    requires nodes[idx].ctype == CName && nodes[idx].quant == q && nodes[idx].name == n
    ensures Matches(nodes, idx, Leaf(n, q), 0)
  {
  }

  /** b: the child slot linked; c: its own fields set as well. */
  lemma LinkPush(a: seq<Node>, b: seq<Node>, c: seq<Node>, index: seq<nat>, index': seq<nat>, stack: seq<Frame>,
      count: nat)
    requires Linked(a, index, stack, count) && count < |b| && |a| <= |b|
    requires |stack| < |index'| && Agree(index, index', 0, |stack|) && index'[|stack|] == count
    requires stack != [] ==> index[|stack| - 1] < count && LinkedChild(a, b, index[|stack| - 1], count)
    requires NewSlot(b[count]) && c == b[count := b[count].(ctype := CSeq)]
    ensures Linked(c, index', stack + [Frame(NoConn, false, [])], count + 1)
  {
    hide FrameAt;
    NewFrame(c, count);
    if stack != [] {
      var top := |stack| - 1;
      TopBounds(a, index, stack, count);
      assert LinkedChild(a, c, index[top], count);
      LinkTop(a, c, index[top], stack[top], count);
      assert forall j :: 0 <= j < index[top] ==> c[j] == a[j];
      hide LinkedChild;
      LowerFrames(a, c, index, stack, count, top);
    }
  }

  lemma TopBounds(a: seq<Node>, index: seq<nat>, stack: seq<Frame>, count: nat)
    requires Linked(a, index, stack, count) && stack != []
    ensures ParentOk(a, index[|stack| - 1], count)
  {
    var f := stack[|stack| - 1];
    if f.kids != [] {
      SizeKidsTake(f.kids, |f.kids| - 1);
      assert f.kids[..|f.kids|] == f.kids;
    }
  }

  lemma LinkLeaf(a: seq<Node>, b: seq<Node>, c: seq<Node>, index: seq<nat>, stack: seq<Frame>, count: nat, n: string,
      q: Quant)
    requires Linked(a, index, stack, count) && stack != [] && count < |b| && |a| <= |b|
    requires index[|stack| - 1] < count && LinkedChild(a, b, index[|stack| - 1], count)
    requires NewSlot(b[count]) && c == b[count := b[count].(ctype := CName, quant := q, name := n)]
    ensures Linked(c, index, AddKid(stack, Leaf(n, q)), count + 1)
  {
    hide FrameAt, Matches;
    var top := |stack| - 1;
    TopBounds(a, index, stack, count);
    assert LinkedChild(a, c, index[top], count);
    LinkTop(a, c, index[top], stack[top], count);
    assert forall j :: 0 <= j < index[top] ==> c[j] == a[j];
    hide LinkedChild;
    LowerFrames(a, c, index, stack, count, top);
    NewLeaf(c, count, n, q);
    Adopt(c, index, stack, count, Leaf(n, q));
  }

  /** The innermost group's open child is finished and joins its children. */
  lemma Adopt(nodes: seq<Node>, index: seq<nat>, stack: seq<Frame>, child: nat, t: Tree)
    requires stack != [] && |stack| <= |index| && index[0] == 0 && child != 0
    requires forall i, j :: 0 <= i < j < |stack| ==> index[i] < index[j]
    requires forall j :: 0 <= j < |stack| - 1 ==> FrameAt(nodes, index[j], stack[j], index[j + 1])
    requires FrameAt(nodes, index[|stack| - 1], stack[|stack| - 1], child) && Matches(nodes, child, t, 0)
    ensures Linked(nodes, index, AddKid(stack, t), child + Size(t))
  {
    hide FrameAt, Size, SizeKids;
    var top := |stack| - 1;
    FrameEnd(nodes, index[top], stack[top], child);
    assert child + Size(t) <= |nodes|;
    hide Matches;
    AddKidAt(nodes, index[top], stack[top], t, child);
    SizeKidsSnoc(stack[top].kids, t);
  }

  /** A finished child joins the finished children of its group. */
  lemma AddKidAt(nodes: seq<Node>, idx: nat, f: Frame, t: Tree, child: nat)
    requires FrameAt(nodes, idx, f, child) && child != 0 && Matches(nodes, child, t, 0)
    ensures FrameAt(nodes, idx, f.(kids := f.kids + [t]), 0)
  {
    MatchesSnoc(nodes, idx + 1, f.kids, t, 0);
    SizeKidsSnoc(f.kids, t);
    assert (f.kids + [t])[..|f.kids|] == f.kids;
  }

  lemma LinkRetype(a: seq<Node>, b: seq<Node>, index: seq<nat>, stack: seq<Frame>, count: nat, f: Frame)
    requires Linked(a, index, stack, count) && stack != []
    requires f.kids == stack[|stack| - 1].kids
    requires index[|stack| - 1] < |a|
    requires b == a[index[|stack| - 1] := a[index[|stack| - 1]].(ctype := TypeOf(FrameKind(f)))]
    ensures Linked(b, index, stack[|stack| - 1 := f], count)
  {
    hide FrameAt;
    var top := |stack| - 1;
    LowerFrames(a, b, index, stack, count, top);
    RetypeFrame(a, b, index[top], stack[top], f);
  }

  lemma RetypeFrame(a: seq<Node>, b: seq<Node>, idx: nat, f: Frame, f': Frame)
    requires FrameAt(a, idx, f, 0) && f'.kids == f.kids
    requires b == a[idx := a[idx].(ctype := TypeOf(FrameKind(f')))]
    ensures FrameAt(b, idx, f', 0)
  {
    MatchesKidsLocal(a, b, idx + 1, f.kids, 0);
  }

  lemma LinkClose(a: seq<Node>, b: seq<Node>, index: seq<nat>, stack: seq<Frame>, count: nat, q: Quant)
    requires Linked(a, index, stack, count) && stack != []
    requires b == a[index[|stack| - 1] := a[index[|stack| - 1]].(quant := q)]
    ensures
      var top := stack[|stack| - 1];
      var t := Group(FrameKind(top), top.kids, q);
      var rest := stack[..|stack| - 1];
      && count == index[|stack| - 1] + Size(t)
      && (rest == [] ==> index[0] == 0)
      && Matches(b, index[|stack| - 1], t, 0)
      && (rest != [] ==> Linked(b, index, AddKid(rest, t), count))
  {
    hide FrameAt, Matches;
    var n := |stack| - 1;
    var top := stack[n];
    var t := Group(FrameKind(top), top.kids, q);
    CloseFrame(a, b, index[n], top, q);
    if n > 0 {
      LowerFrames(a, b, index, stack, count, n);
      Adopt(b, index, stack[..n], index[n], t);
    }
  }

  lemma FrameEnd(nodes: seq<Node>, idx: nat, f: Frame, child: nat)
    requires FrameAt(nodes, idx, f, child) && child != 0
    ensures child == idx + 1 + SizeKids(f.kids)
  {
  }

  lemma CloseFrame(a: seq<Node>, b: seq<Node>, idx: nat, f: Frame, q: Quant)
    requires FrameAt(a, idx, f, 0) && b == a[idx := a[idx].(quant := q)]
    ensures Matches(b, idx, Group(FrameKind(f), f.kids, q), 0)
  {
    MatchesKidsLocal(a, b, idx + 1, f.kids, 0);
  }

  // ------------------------------------------------------- XML_Content block

  /** XML_cp: `name` is an offset in the string area, `children` a cell index. */
  datatype Cell = Cell(ctype: CType, quant: Quant, name: nat, numchildren: nat, children: nat)

  /** The C string at offset `at` is `n`. */
  predicate StringAt(strs: seq<char>, at: nat, n: string)
  {
    at + |n| < |strs| && strs[at..at + |n|] == n && strs[at + |n|] == '\0'
  }

  /** What a reader that follows the pointers from cell `i` finds. */
  predicate Reads(cells: seq<Cell>, strs: seq<char>, i: nat, t: Tree)
    decreases t
  {
    && i < |cells|
    && cells[i].quant == t.quant
    && match t
       case Leaf(n, _) => cells[i].ctype == CName && cells[i].numchildren == 0 && StringAt(strs, cells[i].name, n)
       case Group(k, kids, _) =>
         && cells[i].ctype == TypeOf(k)
         && cells[i].numchildren == |kids|
         && forall j :: 0 <= j < |kids| ==> Reads(cells, strs, cells[i].children + j, kids[j])
  }

  predicate AllNamesOk(t: Tree)
  {
    match t
    case Leaf(n, _) => NameOk(n)
    case Group(_, kids, _) => forall i :: 0 <= i < |kids| ==> AllNamesOk(kids[i])
  }

  lemma StringUnique(strs: seq<char>, at: nat, n: string, n': string)
    requires StringAt(strs, at, n) && StringAt(strs, at, n') && NameOk(n) && NameOk(n')
    ensures n == n'
  {
    assert forall k :: 0 <= k < |n| ==> n[k] == strs[at..at + |n|][k] == strs[at + k];
    assert forall k :: 0 <= k < |n'| ==> n'[k] == strs[at..at + |n'|][k] == strs[at + k];
  }

  /** A block denotes at most one tree. */
  lemma {:induction false} ReadsUnique(cells: seq<Cell>, strs: seq<char>, i: nat, t: Tree, t': Tree)
    requires Reads(cells, strs, i, t) && Reads(cells, strs, i, t') && AllNamesOk(t) && AllNamesOk(t')
    ensures t == t'
    decreases t
  {
    match t {
      case Leaf(n, _) => StringUnique(strs, cells[i].name, n, t'.name);
      case Group(k, kids, _) =>
        forall j | 0 <= j < |kids|
          ensures kids[j] == t'.kids[j]
        {
          ReadsUnique(cells, strs, cells[i].children + j, kids[j], t'.kids[j]);
        }
    }
  }

  /**
    The block that build_node lays out for `t`: the root in cell `i`, the cells below
    it in cells cp, cp+1, ... and the names in the string area from `sp` on.
  */
  predicate Laid(cells: seq<Cell>, strs: seq<char>, i: nat, cp: nat, sp: nat, t: Tree)
    decreases t, 1
  {
    && i < |cells| && cp + Size(t) - 1 <= |cells| && sp + Chars(t) <= |strs|
    && cells[i].quant == t.quant
    && match t
       case Leaf(n, _) => cells[i].ctype == CName && cells[i].numchildren == 0 && cells[i].name == sp &&
         StringAt(strs, sp, n)
       case Group(k, kids, _) =>
         && cells[i].ctype == TypeOf(k) && cells[i].numchildren == |kids| && cells[i].children == cp
         && LaidKids(cells, strs, cp, cp + |kids|, sp, kids)
  }

  predicate LaidKids(cells: seq<Cell>, strs: seq<char>, first: nat, cp: nat, sp: nat, kids: seq<Tree>)
    decreases kids, 0
  {
    && first + |kids| <= |cells|
    && (SizeKidsMonotone(kids, 0); cp + (SizeKids(kids) - |kids|) <= |cells|)
    && sp + CharsKids(kids) <= |strs|
    && (kids != [] ==>
          var n := |kids| - 1;
          SizeKidsMonotone(kids[..n], 0);
          && LaidKids(cells, strs, first, cp, sp, kids[..n])
          && Laid(cells, strs, first + n, cp + (SizeKids(kids[..n]) - n), sp + CharsKids(kids[..n]), kids[n]))
  }

  lemma {:induction false} LaidLocal(c: seq<Cell>, s: seq<char>, c': seq<Cell>, s': seq<char>, i: nat, cp: nat, sp: nat,
      t: Tree)
    requires Laid(c, s, i, cp, sp, t)
    requires i < |c'| && c'[i] == c[i] && Agree(c, c', cp, cp + Size(t) - 1) && Agree(s, s', sp, sp + Chars(t))
    ensures Laid(c', s', i, cp, sp, t)
    decreases t, 1
  {
    match t {
      case Leaf(n, _) =>
        assert s'[sp..sp + |n|] == s[sp..sp + |n|];
      case Group(_, kids, _) =>
        SizeKidsMonotone(kids, 0);
        LaidKidsLocal(c, s, c', s', cp, cp + |kids|, sp, kids);
    }
  }

  lemma {:induction false} LaidKidsLocal(c: seq<Cell>, s: seq<char>, c': seq<Cell>, s': seq<char>, first: nat, cp: nat,
      sp: nat, kids: seq<Tree>)
    requires LaidKids(c, s, first, cp, sp, kids)
    requires SizeKids(kids) >= |kids| && Agree(c, c', first, first + |kids|)
    requires Agree(c, c', cp, cp + (SizeKids(kids) - |kids|)) && Agree(s, s', sp, sp + CharsKids(kids))
    ensures LaidKids(c', s', first, cp, sp, kids)
    decreases kids, 0
  {
    if kids != [] {
      var n := |kids| - 1;
      SizeKidsMonotone(kids[..n], 0);
      LaidKidsLocal(c, s, c', s', first, cp, sp, kids[..n]);
      LaidLocal(c, s, c', s', first + n, cp + (SizeKids(kids[..n]) - n), sp + CharsKids(kids[..n]), kids[n]);
    }
  }

  lemma {:induction false} LaidReads(cells: seq<Cell>, strs: seq<char>, i: nat, cp: nat, sp: nat, t: Tree)
    requires Laid(cells, strs, i, cp, sp, t)
    ensures Reads(cells, strs, i, t)
    decreases t, 1
  {
    if t.Group? {
      forall j | 0 <= j < |t.kids|
        ensures Reads(cells, strs, cp + j, t.kids[j])
      {
        LaidKidsReads(cells, strs, cp, cp + |t.kids|, sp, t.kids, j);
      }
    }
  }

  lemma {:induction false} LaidKidsReads(cells: seq<Cell>, strs: seq<char>, first: nat, cp: nat, sp: nat,
      kids: seq<Tree>, j: nat)
    requires LaidKids(cells, strs, first, cp, sp, kids) && j < |kids|
    ensures Reads(cells, strs, first + j, kids[j])
    decreases kids, 0
  {
    var n := |kids| - 1;
    SizeKidsMonotone(kids[..n], 0);
    if j == n {
      LaidReads(cells, strs, first + n, cp + (SizeKids(kids[..n]) - n), sp + CharsKids(kids[..n]), kids[n]);
    } else {
      LaidKidsReads(cells, strs, first, cp, sp, kids[..n], j);
    }
  }

  lemma LaidSnoc(cells: seq<Cell>, strs: seq<char>, first: nat, cp: nat, sp: nat, kids: seq<Tree>, k: nat)
    requires k < |kids| && SizeKids(kids[..k]) >= k
    requires LaidKids(cells, strs, first, cp, sp, kids[..k])
    requires Laid(cells, strs, first + k, cp + (SizeKids(kids[..k]) - k), sp + CharsKids(kids[..k]), kids[k])
    ensures LaidKids(cells, strs, first, cp, sp, kids[..k + 1])
  {
    assert kids[..k + 1][..k] == kids[..k];
    assert kids[..k + 1][k] == kids[k];
    SizeKidsTake(kids, k);
  }
}
