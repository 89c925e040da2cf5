/**
  What the tokens of content look like, byte for byte: which kind of token each state of the
  automaton can still become, and, for every kind, the form that the grammar of XML 1.0 and
  of Namespaces in XML gives it.
*/
module Tokens {
  import opened Scanner
  import opened Tokenizer

  // ------------------------------------------------------------------- kinds

  predicate TagKind(tok: Token) { tok.StartTag? || tok.EmptyElement? }

  /** The token may still come of this state. */
  predicate Open(st: State, tok: Token)
  {
    match st
    case Lt => tok in {EndTag, CdataOpen, Pi, XmlDecl, Comment} || TagKind(tok)
    case Excl => tok == CdataOpen || tok == Comment
    case Cdata => tok == CdataOpen
    case InComment(_) => tok == Comment
    case InPi(PiStart) => tok == Pi || tok == XmlDecl
    case InPi(PiName(_)) => tok == Pi || tok == XmlDecl
    case InPi(PiNameQuest(t)) => tok == t
    case InPi(PiBody(t)) => tok == t
    case InPi(PiQuest(t)) => tok == t
    case InEnd(_) => tok == EndTag
    case InTag(TagSol(atts)) => tok == EmptyElement(atts)
    case InTag(_) => TagKind(tok)
    case InAtt(_) => TagKind(tok)
    case InRef(RefStart, NoQuote) => tok == EntityRef || tok == CharRef
    case InRef(RefName, NoQuote) => tok == EntityRef
    case InRef(_, NoQuote) => tok == CharRef
    case InRef(_, Quote(_)) => TagKind(tok)
  }

  ghost predicate Narrows(st: State, m: Move)
  {
    match m
    case Go(st', _) => forall tok: Token :: Open(st', tok) ==> Open(st, tok)
    case Accept(tok, _) => Open(st, tok)
    case _ => true
  }

  lemma MoveNarrows(st: State, v: View)
    ensures Narrows(st, CharStep(st, v))
  {
    hide CheckPiTarget;
    match st
    case InPi(p) =>
    case InAtt(p) =>
    case InTag(p) =>
    case InRef(p, ctx) =>
    case _ =>
  }

  lemma {:induction false} ScanKind(enc: Enc, st: State, s: Text, i: nat, end: nat)
    requires i <= end <= |s|
    ensures Scan(enc, st, s, i, end).Tok? ==> Open(st, Scan(enc, st, s, i, end).tok)
    decreases end - i
  {
    hide CharStep, Look, Open, Scan, CdataMatch;
    ScanEmpty(enc, st, s, end);
    if i < end {
      ScanUnfold(enc, st, s, i, end);
      var m := StepAt(enc, st, s, i, end);
      if st.Cdata? {
        CdataOpens();
      } else {
        MoveNarrows(st, Look(enc, s, i, end));
      }
      if m.Go? {
        ScanKind(enc, m.st, s, i + m.n, end);
      }
    }
  }

  lemma CdataOpens()
    ensures Open(Cdata, CdataOpen)
  {
  }

  lemma LastMove(enc: Enc, st: State, s: Text, i: nat, end: nat)
    requires i < end <= |s| && !st.Cdata?
    ensures
      var m := CharStep(st, Look(enc, s, i, end));
      m.Accept? && m.tok !in {EntityRef, CharRef, CdataOpen} ==> m.an == 1 && s[i] == 0x3E
  {
    hide TestChar, CheckPiTarget, ByteType;
    LastClass(enc, s[i]);
  }

  lemma LastClass(enc: Enc, b: Byte)
    ensures ByteType(enc, b) == GT <==> b == 0x3E
    ensures ByteType(enc, b) == SEMI <==> b == 0x3B
    ensures ByteType(enc, b) == LT <==> b == 0x3C
    ensures ByteType(enc, b) == AMP <==> b == 0x26
    ensures ByteType(enc, b) == SOL <==> b == 0x2F
  {
  }

  /** Markup ends with `>`, but for the opening of a CDATA section. */
  lemma {:induction false} ScanLast(enc: Enc, st: State, s: Text, i: nat, end: nat)
    requires i <= end <= |s| && Scan(enc, st, s, i, end).Tok?
    requires Scan(enc, st, s, i, end).tok !in {EntityRef, CharRef, CdataOpen}
    ensures s[Scan(enc, st, s, i, end).next - 1] == 0x3E
    decreases end - i
  {
    hide CharStep, Look, Scan, CdataMatch;
    ScanEmpty(enc, st, s, end);
    ScanKind(enc, st, s, i, end);
    ScanMove(enc, st, s, i, end);
    LastMove(enc, st, s, i, end);
    var m := CharStep(st, Look(enc, s, i, end));
    if m.Go? {
      ScanLast(enc, m.st, s, i + m.n, end);
    }
  }

  // ------------------------------------------------------------- markup by its first bytes

  /** Markup begins with `<`, a reference with `&`, and nothing else begins with either. */
  lemma Begins(enc: Enc, s: Text, i: nat, end: nat)
    requires i < end <= |s| && ContentTok(enc, s, i, end).Tok?
    ensures
      var r := ContentTok(enc, s, i, end);
      && (s[i] == 0x3C <==> TagKind(r.tok) || r.tok in {EndTag, CdataOpen, Pi, XmlDecl, Comment})
      && (s[i] == 0x26 <==> r.tok == EntityRef || r.tok == CharRef)
      && (s[i] == 0x3C ==> r == Scan(enc, Lt, s, i + 1, end))
      && (s[i] == 0x26 ==> r == Scan(enc, InRef(RefStart, NoQuote), s, i + 1, end))
  {
    hide ByteType, Scan, TestChar, DataTail;
    LastClass(enc, s[i]);
    ScanKind(enc, Lt, s, i + 1, end);
    ScanKind(enc, InRef(RefStart, NoQuote), s, i + 1, end);
  }

  lemma LtMove(enc: Enc, s: Text, i: nat, end: nat)
    requires i < end <= |s|
    ensures
      var m := CharStep(Lt, Look(enc, s, i, end));
      && (s[i] == 0x21 <==> m == Go(Excl, 1)) && (s[i] == 0x3F <==> m == Go(InPi(PiStart), 1))
      && (s[i] == 0x2F <==> m == Go(InEnd(EndStart), 1))
      && (m.Go? && m.st != InTag(TagName(false)) ==> m.n == 1)
      && !m.Accept? && (m.Go? && m.st != Excl && m.st != InPi(PiStart) && m.st != InEnd(EndStart) ==>
                          m.st == InTag(TagName(false)))
  {
    hide TestChar;
  }

  // ---------------------------------------------------------------- comments

  const HYPHEN: Byte := 0x2D

  /** No two hyphens in a row from `i` to `n`. */
  ghost predicate NoDouble(s: Text, i: nat, n: nat)
  {
    n <= |s| && forall k :: i <= k && k + 1 < n ==> !(s[k] == HYPHEN && s[k + 1] == HYPHEN)
  }

  lemma CommentMove(enc: Enc, p: CommentPlace, s: Text, i: nat, end: nat)
    requires i < end <= |s|
    ensures
      var m := CharStep(InComment(p), Look(enc, s, i, end));
      && (m.Accept? ==> p == MinusMinus && s[i] == 0x3E && m == Accept(Comment, 1))
      && (m.Go? ==>
            && m.st.InComment? && i + m.n <= end && m.n >= 1
            && (m.st.comment == Minus <==> s[i] == HYPHEN && p == Body)
            && (m.st.comment == MinusMinus <==> s[i] == HYPHEN && p == Minus)
            && (p == Dash ==> s[i] == HYPHEN && m == Go(InComment(Body), 1))
            && (s[i] == HYPHEN ==> m.n == 1) && m.st.comment != Dash
            && forall k :: i < k < i + m.n ==> s[k] >= 0x80)
      && (p == MinusMinus ==> !m.Go?)
  {
    hide ByteType, InvalidChar;
    HyphenClass(enc, s[i]);
    if TestChar(enc, DataChar, s, i, end).Fits? {
      CharTrails(enc, s, i, end);
    }
  }

  lemma HyphenClass(enc: Enc, b: Byte)
    ensures ByteType(enc, b) == MINUS <==> b == HYPHEN
    ensures LeadLen(ByteType(enc, b)) > 0 ==> b >= 0xC0
  {
  }

  lemma CharTrails(enc: Enc, s: Text, i: nat, end: nat)
    requires i < end <= |s| && TestChar(enc, DataChar, s, i, end).Fits?
    ensures forall k :: i < k < i + TestChar(enc, DataChar, s, i, end).n ==> s[k] >= 0x80
  {
    hide ByteType;
    var n := TestChar(enc, DataChar, s, i, end).n;
    ValidTrails(s, i, n);
  }

  /** How the comment goes on from here: the hyphens read already are those before `i`. */
  lemma {:induction false} CommentBody(enc: Enc, p: CommentPlace, s: Text, i: nat, end: nat)
    requires i <= end <= |s| && p != Dash && Scan(enc, InComment(p), s, i, end).Tok?
    ensures
      var r := Scan(enc, InComment(p), s, i, end);
      && r.tok == Comment && s[r.next - 1] == 0x3E
      && (p == MinusMinus ==> r.next == i + 1)
      && (p == Minus ==> (r.next == i + 2 && s[i] == HYPHEN) || (i + 3 < r.next && s[i] != HYPHEN))
      && (p == Body ==> i + 3 <= r.next)
      && (r.next >= i + 3 ==> s[r.next - 3] == s[r.next - 2] == HYPHEN && NoDouble(s, i, r.next - 2))
    decreases end - i
  {
    hide CharStep, Look, Scan;
    ScanEmpty(enc, InComment(p), s, end);
    ScanMove(enc, InComment(p), s, i, end);
    CommentMove(enc, p, s, i, end);
    var m := CharStep(InComment(p), Look(enc, s, i, end));
    if m.Go? {
      CommentBody(enc, m.st.comment, s, i + m.n, end);
    }
  }

  lemma ExclMove(enc: Enc, s: Text, i: nat, end: nat)
    requires i < end <= |s|
    ensures
      var m := CharStep(Excl, Look(enc, s, i, end));
      if s[i] == HYPHEN then m == Go(InComment(Dash), 1)
      else if s[i] == 0x5B then m == Go(Cdata, 1)
      else m == Bad(0)
  {
    hide TestChar;
  }

  /** A comment is `<!--`, text without two hyphens in a row and with none at its end, and `-->`. */
  lemma CommentShape(enc: Enc, s: Text, i: nat, end: nat)
    requires i < end <= |s| && ContentTok(enc, s, i, end).Tok? && ContentTok(enc, s, i, end).tok == Comment
    ensures
      var next := ContentTok(enc, s, i, end).next;
      && i + 7 <= next && s[i..i + 4] == [0x3C, 0x21, HYPHEN, HYPHEN] && s[next - 3..next] == [HYPHEN, HYPHEN, 0x3E]
      && NoDouble(s, i + 4, next - 2)
  {
    hide CharStep, Look, Scan, ContentTok, Open;
    Begins(enc, s, i, end);
    ScanEmpty(enc, Lt, s, end);
    ScanMove(enc, Lt, s, i + 1, end);
    LtMove(enc, s, i + 1, end);
    var m := CharStep(Lt, Look(enc, s, i + 1, end));
    ScanKind(enc, m.st, s, i + 1 + m.n, end);
    OnlyExcl(m.st, Comment);
    ScanEmpty(enc, Excl, s, end);
    ScanMove(enc, Excl, s, i + 2, end);
    ExclMove(enc, s, i + 2, end);
    if s[i + 2] == 0x5B {
      ScanKind(enc, Cdata, s, i + 3, end);
      OnlyExcl(Cdata, Comment);
    }
    ScanEmpty(enc, InComment(Dash), s, end);
    ScanMove(enc, InComment(Dash), s, i + 3, end);
    CommentMove(enc, Dash, s, i + 3, end);
    CommentBody(enc, Body, s, i + 4, end);
  }

  lemma OnlyExcl(st: State, tok: Token)
    requires st == Excl || st == InPi(PiStart) || st == InEnd(EndStart) || st == InTag(TagName(false)) || st == Cdata
    ensures tok == Comment && Open(st, tok) ==> st == Excl
    ensures (tok == Pi || tok == XmlDecl) && Open(st, tok) ==> st == InPi(PiStart)
  {
  }

  // ----------------------------------------------------- processing instructions

  const QUESTION: Byte := 0x3F

  lemma QuestClass(enc: Enc, b: Byte)
    ensures ByteType(enc, b) == QUEST <==> b == QUESTION
    ensures IsSpace(ByteType(enc, b)) <==> b == 0x20 || b == 0x9 || b == 0xA || b == 0xD
  {
  }

  /** Nowhere from `i` on does `?>` begin before `n`. */
  ghost predicate NoClose(s: Text, i: nat, n: nat)
  {
    n < |s| && forall k :: i <= k < n ==> !(s[k] == QUESTION && s[k + 1] == 0x3E)
  }

  predicate AfterName(p: PiPlace) { p.PiBody? || p.PiQuest? }

  lemma PiMove(enc: Enc, p: PiPlace, s: Text, i: nat, end: nat)
    requires i < end <= |s| && AfterName(p)
    ensures
      var m := CharStep(InPi(p), Look(enc, s, i, end));
      && (m.Accept? <==> p.PiQuest? && s[i] == 0x3E) && (m.Accept? ==> m == Accept(p.ptok, 1))
      && (m.Go? ==>
            && m.st.InPi? && AfterName(m.st.pi) && m.st.pi.ptok == p.ptok && m.n >= 1 && i + m.n <= end
            && (m.st.pi.PiQuest? <==> s[i] == QUESTION) && (s[i] == QUESTION ==> m.n == 1)
            && forall k :: i < k < i + m.n ==> s[k] >= 0x80)
  {
    hide ByteType, InvalidChar;
    QuestClass(enc, s[i]);
    HyphenClass(enc, s[i]);
    if TestChar(enc, DataChar, s, i, end).Fits? {
      CharTrails(enc, s, i, end);
    }
  }

  lemma {:induction false} PiRest(enc: Enc, p: PiPlace, s: Text, i: nat, end: nat)
    requires i <= end <= |s| && AfterName(p) && Scan(enc, InPi(p), s, i, end).Tok?
    ensures
      var r := Scan(enc, InPi(p), s, i, end);
      && r.tok == p.ptok && s[r.next - 1] == 0x3E && (if p.PiQuest? then i + 1 else i + 2) <= r.next
      && (r.next >= i + 2 ==> s[r.next - 2] == QUESTION && NoClose(s, i, r.next - 2))
      && (p.PiQuest? ==> (r.next == i + 1 <==> s[i] == 0x3E))
    decreases end - i
  {
    hide CharStep, Look, Scan;
    ScanEmpty(enc, InPi(p), s, end);
    ScanMove(enc, InPi(p), s, i, end);
    PiMove(enc, p, s, i, end);
    var m := CharStep(InPi(p), Look(enc, s, i, end));
    if m.Go? {
      PiRest(enc, m.st.pi, s, i + m.n, end);
    }
  }

  /** XML 1.0 keeps the target xml, in any case, to itself. */
  predicate Reserved(t: Text)
  {
    |t| == 3 && (t[0] == 0x78 || t[0] == 0x58) && (t[1] == 0x6D || t[1] == 0x4D) && (t[2] == 0x6C || t[2] == 0x4C)
  }

  const XML_TARGET: Text := [0x78, 0x6D, 0x6C]

  lemma TargetIs(t: Text)
    ensures CheckPiTarget(t) == if t == XML_TARGET then XmlTarget else if Reserved(t) then BadTarget else PlainTarget
  {
  }

  function TargetToken(target: Text): Token { if target == XML_TARGET then XmlDecl else Pi }

  lemma PiNameMove(enc: Enc, target: Text, s: Text, i: nat, end: nat)
    requires i < end <= |s|
    ensures
      var m, space := CharStep(InPi(PiName(target)), Look(enc, s, i, end)), IsSpace(ByteType(enc, s[i]));
      && !m.Accept?
      && (space || s[i] == QUESTION ==>
            (m.Go? ==>
               && !(Reserved(target) && target != XML_TARGET) && m.n == 1
               && m.st == InPi(if space then PiBody(TargetToken(target)) else PiNameQuest(TargetToken(target)))))
      && (!space && s[i] != QUESTION ==>
            (m.Go? ==> m.n >= 1 && i + m.n <= end && m.st == InPi(PiName(target + s[i..i + m.n]))))
  {
    hide ByteType, InvalidChar, CheckPiTarget;
    QuestClass(enc, s[i]);
    TargetIs(target);
  }

  lemma QuestEnds(enc: Enc, tok: Token, s: Text, i: nat, end: nat)
    requires i <= end <= |s| && Scan(enc, InPi(PiNameQuest(tok)), s, i, end).Tok?
    ensures i < end && s[i] == 0x3E && Scan(enc, InPi(PiNameQuest(tok)), s, i, end) == Tok(tok, i + 1)
  {
    hide Scan, ByteType, TestChar;
    ScanEmpty(enc, InPi(PiNameQuest(tok)), s, end);
    ScanMove(enc, InPi(PiNameQuest(tok)), s, i, end);
  }
}
