/**
  Attribute values: attributeValueTok, appendAttributeValue and storeAttributeValue.

  Section 3.3.3 of XML 1.0 defines a value in two phases: replace references and blanks,
  then, for tokenised types, strip and collapse spaces. `Replace` is the first phase and
  `Tokenised` the second. The source does both at once while it recurses into entities;
  `ValueBuilder` is that code, proved to deliver the two-phase value, to terminate for
  every entity table, and to leave every open flag as it found it.
*/
module AttributeValue {
  import opened Scanner
  import opened Tokenizer
  import opened References
  import Utf

  datatype Error =
    | InvalidToken | BadCharRef | UndefinedEntity | DeclaredInPe
    | RecursiveRef | BinaryRef | ExternalRef | UnexpectedState

  /** `checkDecl` is checkEntityDecl, which depends only on where the value stands. */
  datatype Env = Env(intern: Enc, entities: map<Text, Entity>, checkDecl: bool)

  datatype Value = Val(bytes: Text) | Err(error: Error)

  const SPACE: Byte := 0x20

  // -------------------------------------------------------------- tokenizer

  datatype ValueTok =
    | Nothing
    | Malformed
    | Unexpected
    | DataTo(next: nat)
    | BlankTo(next: nat)
    | CharRefTo(next: nat)
    | EntityRefTo(next: nat)

  /** Where a run of plain characters ends; None at a '<', which is refused wherever it stands. */
  function PlainEnd(enc: Enc, s: Text, i: nat, end: nat): (r: int)
    requires i <= end <= |s|
    ensures r == -1 || i <= r <= end
    decreases end - i
  {
    if i == end then end
    else
      var c := ByteType(enc, s[i]);
      if LeadLen(c) > 0 then PlainEnd(enc, s, if end - i < LeadLen(c) then end else i + LeadLen(c), end)
      else if c == LT then -1
      else if c == AMP || IsSpace(c) then i
      else PlainEnd(enc, s, i + 1, end)
  }

  lemma PlainUnfold(enc: Enc, s: Text, i: nat, end: nat)
    requires i < end <= |s|
    ensures
      var c := ByteType(enc, s[i]);
      PlainEnd(enc, s, i, end) ==
        if LeadLen(c) > 0 then PlainEnd(enc, s, if end - i < LeadLen(c) then end else i + LeadLen(c), end)
        else if c == LT then -1
        else if c == AMP || IsSpace(c) then i
        else PlainEnd(enc, s, i + 1, end)
  {
    hide ByteType;
  }

  lemma PlainNone(enc: Enc, s: Text, end: nat)
    requires end <= |s|
    ensures PlainEnd(enc, s, end, end) == end
  {
  }

  /** attributeValueTok, with the tokens that appendAttributeValue treats alike put together. */
  function ValueTokAt(enc: Enc, s: Text, i: nat, end: nat): (r: ValueTok)
    requires i <= end <= |s|
    ensures !r.Nothing? && !r.Malformed? && !r.Unexpected? ==> i < r.next <= end
    ensures r.Nothing? <==> i == end
  {
    if i == end then Nothing
    else
      var c := ByteType(enc, s[i]);
      if c == AMP then
        match Scan(enc, InRef(RefStart, NoQuote), s, i + 1, end)
        case Tok(tok, next) => if tok == CharRef then CharRefTo(next) else EntityRefTo(next)
        case PartialChar => Unexpected
        case _ => Malformed
      else if c == CR then BlankTo(if i + 1 < end && ByteType(enc, s[i + 1]) == LF then i + 2 else i + 1)
      else if c == LF || c == S then BlankTo(i + 1)
      else
        var p := PlainEnd(enc, s, i, end);
        if p == -1 then Malformed else DataTo(if p > i then p else i + 1)
  }

  // ------------------------------------------------- phase one: replacement

  function Append(bytes: Text, rest: Value): Value
  {
    if rest.Err? then rest else Val(bytes + rest.bytes)
  }

  function NameOf(s: Text, i: nat, next: nat): Text
    requires i < next <= |s|
  {
    if i + 1 <= next - 1 then s[i + 1..next - 1] else []
  }

  /** The replacement of the reference from `i` to `next`; `open` are the entities being expanded. */
  ghost function Referenced(env: Env, open: set<Text>, s: Text, i: nat, next: nat): Value
    requires i < next <= |s|
    decreases Unopened(env.entities, open), 0, 1
  {
    var name := NameOf(s, i, next);
    if Predefined(name) != 0 then Val([Predefined(name)])
    else if name !in env.entities then (if env.checkDecl then Err(UndefinedEntity) else Val([]))
    else if env.checkDecl && !env.entities[name].inside then Err(DeclaredInPe)
    else if name in open then Err(RecursiveRef)
    else match env.entities[name]
      case Unparsed(_) => Err(BinaryRef)
      case External(_) => Err(ExternalRef)
      case Internal(text, _) =>
        OpenOne(env.entities, open, name);
        Replace(env, open + {name}, env.intern, text, 0, |text|)
  }

  /** The value with all references replaced and every blank a space: phase one of section 3.3.3. */
  ghost function Replace(env: Env, open: set<Text>, enc: Enc, s: Text, i: nat, end: nat): Value
    requires i <= end <= |s|
    decreases Unopened(env.entities, open), end - i + 1, 0
  {
    match ValueTokAt(enc, s, i, end)
    case Nothing => Val([])
    case Malformed => Err(InvalidToken)
    case Unexpected => Err(UnexpectedState)
    case DataTo(next) => Append(s[i..next], Replace(env, open, enc, s, next, end))
    case BlankTo(next) => Append([SPACE], Replace(env, open, enc, s, next, end))
    case CharRefTo(next) =>
      var n := if i + 4 <= next then CharRefNumber(s, i, next) else -1;
      if n < 0 then Err(BadCharRef) else Append(Utf8Encode(n), Replace(env, open, enc, s, next, end))
    case EntityRefTo(next) =>
      var r := Referenced(env, open, s, i, next);
      if r.Err? then r else Append(r.bytes, Replace(env, open, enc, s, next, end))
  }

  // ------------------------------------------------- phase two: tokenised types

  /** The maximal runs of non-space bytes. */
  function Words(b: Text): (w: seq<Text>)
  {
    if b == [] then []
    else
      var front, last := Words(b[..|b| - 1]), b[|b| - 1];
      if last == SPACE then front
      else if |b| >= 2 && b[|b| - 2] != SPACE && front != [] then front[..|front| - 1] + [front[|front| - 1] + [last]]
      else front + [[last]]
  }

  function Join(w: seq<Text>): Text
  {
    if w == [] then [] else if |w| == 1 then w[0] else Join(w[..|w| - 1]) + [SPACE] + w[|w| - 1]
  }

  /** No leading, trailing or repeated spaces: phase two of section 3.3.3. */
  function Tokenised(b: Text): Text { Join(Words(b)) }

  // ------------------------------------------------------ both phases at once

  /** What appending one byte does to the pool: a space is dropped after a space or at the start. */
  function Put(isCdata: bool, pool: Text, b: Byte): Text
  {
    if !isCdata && b == SPACE && (pool == [] || pool[|pool| - 1] == SPACE) then pool else pool + [b]
  }

  function PutAll(isCdata: bool, pool: Text, bytes: Text): Text
  {
    if bytes == [] then pool else Put(isCdata, PutAll(isCdata, pool, bytes[..|bytes| - 1]), bytes[|bytes| - 1])
  }

  lemma {:induction false} PutAllConcat(isCdata: bool, pool: Text, a: Text, b: Text)
    ensures PutAll(isCdata, pool, a + b) == PutAll(isCdata, PutAll(isCdata, pool, a), b)
  {
    if b == [] {
      assert a + b == a;
    } else {
      assert (a + b)[..|a + b| - 1] == a + b[..|b| - 1];
      PutAllConcat(isCdata, pool, a, b[..|b| - 1]);
    }
  }

  lemma {:induction false} PutAllPlain(isCdata: bool, pool: Text, bytes: Text)
    requires isCdata || SPACE !in bytes
    ensures PutAll(isCdata, pool, bytes) == pool + bytes
  {
    if bytes == [] {
      assert pool + bytes == pool;
    } else {
      var front := bytes[..|bytes| - 1];
      PutAllPlain(isCdata, pool, front);
      assert pool + bytes == (pool + front) + [bytes[|bytes| - 1]];
    }
  }

  /** storeAttributeValue's last step on a tokenised value. */
  function Chop(pool: Text): Text
  {
    if pool != [] && pool[|pool| - 1] == SPACE then pool[..|pool| - 1] else pool
  }

  lemma {:induction false} WordsShape(b: Text)
    ensures forall k :: 0 <= k < |Words(b)| ==> Words(b)[k] != [] && SPACE !in Words(b)[k]
    ensures b != [] && b[|b| - 1] != SPACE ==> Words(b) != []
  {
    if b != [] { WordsShape(b[..|b| - 1]); }
  }

  lemma JoinSnoc(w: seq<Text>, x: Text)
    ensures Join(w + [x]) == if w == [] then x else Join(w) + [SPACE] + x
  {
    assert (w + [x])[..|w|] == w;
  }

  predicate Owed(b: Text) { b != [] && b[|b| - 1] == SPACE && Words(b) != [] }

  lemma WordsSnoc(front: Text, last: Byte)
    ensures
      var w, w' := Words(front), Words(front + [last]);
      w' == if last == SPACE then w
            else if front != [] && front[|front| - 1] != SPACE && w != [] then w[..|w| - 1] + [w[|w| - 1] + [last]]
            else w + [[last]]
  {
    var b := front + [last];
    assert b[..|b| - 1] == front && b[|b| - 1] == last;
  }

  /** The streaming pool holds the tokenised prefix, and a space when one is owed. */
  lemma {:induction false} PoolIsTokenised(b: Text)
    ensures PutAll(false, [], b) == Tokenised(b) + (if Owed(b) then [SPACE] else [])
    ensures Words(b) != [] ==> Tokenised(b) != [] && Tokenised(b)[|Tokenised(b)| - 1] != SPACE
  {
    if b != [] {
      var front, last := b[..|b| - 1], b[|b| - 1];
      assert b == front + [last];
      PoolIsTokenised(front);
      WordsShape(front);
      WordsSnoc(front, last);
      PoolStep(front, last);
    }
  }

  lemma PoolStep(front: Text, last: Byte)
    requires PutAll(false, [], front) == Tokenised(front) + (if Owed(front) then [SPACE] else [])
    requires Words(front) != [] ==> Tokenised(front) != [] && Tokenised(front)[|Tokenised(front)| - 1] != SPACE
    ensures
      var b := front + [last];
      && PutAll(false, [], b) == Tokenised(b) + (if Owed(b) then [SPACE] else [])
      && (Words(b) != [] ==> Tokenised(b) != [] && Tokenised(b)[|Tokenised(b)| - 1] != SPACE)
  {
    hide Words, Join, PutAll;
    var b := front + [last];
    var w, pool := Words(front), PutAll(false, [], front);
    WordsSnoc(front, last);
    WordsShape(front);
    assert PutAll(false, [], b) == Put(false, pool, last) by { PutSnoc(false, front, last); }
    if w == [] {
      assert Tokenised(front) == [] by { NoWords(); }
    }
    if last != SPACE {
      if front != [] && front[|front| - 1] != SPACE {
        assert w == w[..|w| - 1] + [w[|w| - 1]];
        JoinExtend(w[..|w| - 1], w[|w| - 1], last);
      } else {
        if front == [] { EmptyWords(); }
        JoinSnoc(w, [last]);
      }
    }
  }

  lemma NoWords()
    ensures Join([]) == []
  {
  }

  lemma EmptyWords()
    ensures Words([]) == []
  {
  }

  lemma PutSnoc(isCdata: bool, front: Text, last: Byte)
    ensures PutAll(isCdata, [], front + [last]) == Put(isCdata, PutAll(isCdata, [], front), last)
  {
    assert (front + [last])[..|front|] == front;
  }

  lemma SnocAssoc(x: Text, y: Text, b: Byte)
    ensures x + (y + [b]) == (x + y) + [b]
  {
  }

  lemma JoinExtend(front: seq<Text>, last: Text, b: Byte)
    ensures Join(front + [last + [b]]) == Join(front + [last]) + [b]
  {
    hide Join;
    JoinSnoc(front, last + [b]);
    JoinSnoc(front, last);
    SnocAssoc(Join(front) + [SPACE], last, b);
  }

  /** Collapsing on the fly and chopping once is the declarative phase two. */
  lemma StreamingIsTwoPhase(b: Text)
    ensures Chop(PutAll(false, [], b)) == Tokenised(b)
  {
    PoolIsTokenised(b);
    WordsShape(b);
  }

  // ------------------------------------------------------------ the source's code

  /**
    No run of plain characters hides a space byte, as it could inside a malformed
    multi-byte character; the tokenizer refuses those in the values and literals it accepts.
  */
  ghost predicate Clean(enc: Enc, s: Text, i: nat, end: nat)
    requires i <= end <= |s|
    decreases end - i
  {
    match ValueTokAt(enc, s, i, end)
    case DataTo(next) => SPACE !in s[i..next] && Clean(enc, s, next, end)
    case BlankTo(next) => Clean(enc, s, next, end)
    case CharRefTo(next) => Clean(enc, s, next, end)
    case EntityRefTo(next) => Clean(enc, s, next, end)
    case _ => true
  }

  ghost predicate CleanEntities(env: Env)
  {
    forall name :: name in env.entities && env.entities[name].Internal? ==>
      Clean(env.intern, env.entities[name].text, 0, |env.entities[name].text|)
  }

  lemma SpaceIsBlank(enc: Enc)
    ensures ByteType(enc, SPACE) == S
  {
  }

  /** A character let through has the length that its first byte says, and a plain one no space in it. */
  lemma WalkChar(enc: Enc, s: Text, i: nat)
    requires i < |s| && Utf.Walks(enc, s, i)
    ensures i + CharLen(enc, s[i]) <= |s| && Utf.Walks(enc, s, i + CharLen(enc, s[i]))
    ensures forall k :: i < k < i + CharLen(enc, s[i]) ==> 0x80 <= s[k] < 0xC0
  {
    hide ByteType;
    var n := LeadLen(ByteType(enc, s[i]));
    if n > 0 && i + n <= |s| && !InvalidChar(s, i, n) {
      ValidTrails(s, i, n);
    }
  }

  /** A run of plain characters in well-formed text hides no space. */
  lemma {:induction false} PlainWalks(enc: Enc, s: Text, i: nat)
    requires i <= |s| && Utf.Walks(enc, s, i)
    ensures
      var p := PlainEnd(enc, s, i, |s|);
      p != -1 ==> Utf.Walks(enc, s, p) && SPACE !in s[i..p]
    decreases |s| - i
  {
    hide ByteType, Utf.Walks, PlainEnd, CharLen;
    var p := PlainEnd(enc, s, i, |s|);
    if p > i {
      WalkChar(enc, s, i);
      var n := CharLen(enc, s[i]);
      PlainStep(enc, s, i, |s|);
      PlainWalks(enc, s, i + n);
      assert SPACE !in s[i..i + n] by { assert forall k :: i <= k < i + n ==> s[k] != SPACE; }
      assert s[i..p] == s[i..i + n] + s[i + n..p];
    }
  }

  /** A plain character is passed whole, and is no space. */
  lemma PlainStep(enc: Enc, s: Text, i: nat, end: nat)
    requires i < end <= |s| && PlainEnd(enc, s, i, end) > i && i + CharLen(enc, s[i]) <= end
    ensures PlainEnd(enc, s, i, end) == PlainEnd(enc, s, i + CharLen(enc, s[i]), end) && s[i] != SPACE
  {
    hide ByteType;
    SpaceIsBlank(enc);
  }

  lemma RefCharLen(enc: Enc, p: RefPlace, s: Text, i: nat, end: nat)
    requires i < end <= |s|
    ensures
      var m := RefStep(p, NoQuote, Look(enc, s, i, end));
      && (m.Go? ==> m.n == CharLen(enc, s[i]) && m.st.InRef? && m.st.ctx == NoQuote)
      && (m.Accept? ==> m.an == CharLen(enc, s[i]))
  {
    hide InvalidChar;
  }

  lemma {:induction false} RefWalks(enc: Enc, p: RefPlace, s: Text, i: nat)
    requires i <= |s| && Utf.Walks(enc, s, i) && Scan(enc, InRef(p, NoQuote), s, i, |s|).Tok?
    ensures Utf.Walks(enc, s, Scan(enc, InRef(p, NoQuote), s, i, |s|).next)
    decreases |s| - i
  {
    hide Scan, Look, StepAt, RefStep, ByteType, Utf.Walks, CharLen;
    ScanEmpty(enc, InRef(p, NoQuote), s, i);
    ScanChar(enc, InRef(p, NoQuote), s, i, |s|);
    RefCharLen(enc, p, s, i, |s|);
    WalkChar(enc, s, i);
    var m := RefStep(p, NoQuote, Look(enc, s, i, |s|));
    if m.Go? {
      RefWalks(enc, m.st.ref, s, i + m.n);
    }
  }

  /** Well-formed text is clean. */
  lemma {:induction false} WalksClean(enc: Enc, s: Text, i: nat)
    requires i <= |s| && Utf.Walks(enc, s, i)
    ensures Clean(enc, s, i, |s|)
    decreases |s| - i
  {
    hide Scan, PlainEnd, ByteType, CharLen, Utf.Walks;
    if i < |s| {
      WalkChar(enc, s, i);
      BlankLen(enc, s[i]);
      PlainWalks(enc, s, i);
      var c := ByteType(enc, s[i]);
      if c == CR && i + 1 < |s| && ByteType(enc, s[i + 1]) == LF {
        WalkChar(enc, s, i + 1);
        BlankLen(enc, s[i + 1]);
      }
      if c == AMP && Scan(enc, InRef(RefStart, NoQuote), s, i + 1, |s|).Tok? {
        RefWalks(enc, RefStart, s, i + 1);
      }
      PlainHere(enc, s, i);
      var t := ValueTokAt(enc, s, i, |s|);
      if t.DataTo? || t.BlankTo? || t.CharRefTo? || t.EntityRefTo? {
        WalksClean(enc, s, t.next);
      }
    }
  }

  lemma BlankLen(enc: Enc, b: Byte)
    ensures ByteType(enc, b) in {AMP, CR, LF, S} ==> CharLen(enc, b) == 1
  {
  }

  lemma PlainHere(enc: Enc, s: Text, i: nat)
    requires i < |s|
    ensures ByteType(enc, s[i]) !in {AMP, CR, LF, S} ==> PlainEnd(enc, s, i, |s|) != i
  {
    hide ByteType;
  }

  /** Entities whose replacement text is UTF-8 of XML characters: what storeEntityValue leaves in the table. */
  ghost predicate WellFormedEntities(env: Env)
  {
    forall name :: name in env.entities && env.entities[name].Internal? ==>
      Utf.Walks(env.intern, env.entities[name].text, 0)
  }

  lemma EntitiesClean(env: Env)
    requires WellFormedEntities(env)
    ensures CleanEntities(env)
  {
    hide Clean, Utf.Walks;
    forall name | name in env.entities && env.entities[name].Internal?
      ensures Clean(env.intern, env.entities[name].text, 0, |env.entities[name].text|)
    {
      WalksClean(env.intern, env.entities[name].text, 0);
    }
  }

  lemma EncodedSpaceFree(n: int)
    requires 0 <= n < 0x110000
    ensures Utf8Encode(n) != [] && (n != SPACE ==> SPACE !in Utf8Encode(n)) && (n == SPACE ==> Utf8Encode(n) == [SPACE])
  {
  }

  datatype Status = Fine | Failed(error: Error)

  class ValueBuilder {
    const env: Env
    var open: set<Text>  // entities whose open flag is set
    var pool: Text       // the unfinished string of the pool

    constructor (env: Env, open: set<Text>)
      ensures this.env == env && this.open == open && pool == []
    {
      this.env, this.open, pool := env, open, [];
    }

    /** attributeValueTok */
    method NextTok(enc: Enc, s: Text, start: nat, end: nat) returns (r: ValueTok)
      requires start <= end <= |s|
      ensures r == ValueTokAt(enc, s, start, end)
    {
      hide Scan, ByteType, PlainEnd;
      if start == end {
        return Nothing;
      }
      var c := ByteType(enc, s[start]);
      if c == AMP {
        var ref := ScanRef(enc, s, start + 1, end);
        match ref
        case Tok(tok, next) => return if tok == CharRef then CharRefTo(next) else EntityRefTo(next);
        case PartialChar => return Unexpected;
        case _ => return Malformed;
      } else if c == LF || c == S {
        return BlankTo(start + 1);
      } else if c == CR {
        return BlankTo(if start + 1 < end && ByteType(enc, s[start + 1]) == LF then start + 2 else start + 1);
      }
      PlainUnfold(enc, s, start, end);
      var ptr := PlainRun(enc, s, start, end);
      r := if ptr == -1 then Malformed else DataTo(ptr);
    }

    /** The loop of attributeValueTok over plain characters; -1 at a `<`. */
    method PlainRun(enc: Enc, s: Text, start: nat, end: nat) returns (r: int)
      requires start <= end <= |s|
      ensures r == PlainEnd(enc, s, start, end)
    {
      hide ByteType, PlainEnd;
      var ptr := start;
      while ptr < end
        invariant start <= ptr <= end && PlainEnd(enc, s, start, end) == PlainEnd(enc, s, ptr, end)
      {
        PlainUnfold(enc, s, ptr, end);
        var c := ByteType(enc, s[ptr]);
        if LeadLen(c) > 0 {
          ptr := if end - ptr < LeadLen(c) then end else ptr + LeadLen(c);
        } else if c == LT {
          return -1;
        } else if c == AMP || IsSpace(c) {
          return ptr;
        } else {
          ptr := ptr + 1;
        }
      }
      PlainNone(enc, s, end);
      r := ptr;
    }

    /** poolAppendChar of a space, skipped where a tokenised value has no room for one. */
    method AppendSpace(isCdata: bool)
      modifies this`pool
      ensures pool == PutAll(isCdata, old(pool), [SPACE])
    {
      PutOne(isCdata, pool, SPACE);
      if !isCdata && (|pool| == 0 || pool[|pool| - 1] == SPACE) {
        return;
      }
      pool := pool + [SPACE];
    }

    /** poolAppend, or poolAppendChar in a loop. */
    method AppendBytes(ghost isCdata: bool, bytes: Text)
      modifies this`pool
      ensures isCdata || SPACE !in bytes ==> pool == PutAll(isCdata, old(pool), bytes)
    {
      if isCdata || SPACE !in bytes {
        PutAllPlain(isCdata, pool, bytes);
      }
      pool := pool + bytes;
    }

    /** XML_TOK_CHAR_REF */
    method AppendCharRef(isCdata: bool, s: Text, ptr: nat, next: nat) returns (status: Status)
      requires ptr < next <= |s|
      modifies this`pool
      ensures
        var n := if ptr + 4 <= next then CharRefNumber(s, ptr, next) else -1;
        if n < 0 then status == Failed(BadCharRef)
        else status == Fine && pool == PutAll(isCdata, old(pool), Utf8Encode(n))
    {
      var n := if ptr + 4 <= next then CharRefNumber(s, ptr, next) else -1;
      if n < 0 {
        return Failed(BadCharRef);
      }
      CharRefRange(s, ptr, next);
      EncodedSpaceFree(n);
      if n == SPACE {
        AppendSpace(isCdata);
      } else {
        AppendBytes(isCdata, Utf8Encode(n));
      }
      status := Fine;
    }

    /** XML_TOK_ENTITY_REF */
    method AppendReference(isCdata: bool, s: Text, ptr: nat, next: nat) returns (status: Status)
      requires ptr < next <= |s|
      modifies this
      ensures open == old(open)
      ensures
        match Referenced(env, old(open), s, ptr, next)
        case Err(e) => status == Failed(e)
        case Val(bytes) =>
          status == Fine && (isCdata || CleanEntities(env) ==> pool == PutAll(isCdata, old(pool), bytes))
      decreases Unopened(env.entities, open), 0, 1
    {
      hide Replace, Clean;
      var name := NameOf(s, ptr, next);
      var ch := Predefined(name);
      if ch != 0 {
        AppendBytes(isCdata, [ch]);
        return Fine;
      }
      if name !in env.entities {
        return if env.checkDecl then Failed(UndefinedEntity) else Fine;
      }
      if env.checkDecl && !env.entities[name].inside {
        return Failed(DeclaredInPe);
      }
      if name in open {
        return Failed(RecursiveRef);
      }
      match env.entities[name]
      case Unparsed(_) => status := Failed(BinaryRef);
      case External(_) => status := Failed(ExternalRef);
      case Internal(text, _) =>
        OpenOne(env.entities, open, name);
        ghost var before := open;
        open := open + {name};
        status := AppendAttributeValue(env.intern, isCdata, text, 0, |text|);
        open := open - {name};
        assert open == before;
    }

    /** appendAttributeValue */
    method AppendAttributeValue(enc: Enc, isCdata: bool, s: Text, start: nat, end: nat) returns (status: Status)
      requires start <= end <= |s|
      modifies this
      ensures open == old(open)
      ensures
        match Replace(env, old(open), enc, s, start, end)
        case Err(e) => status == Failed(e)
        case Val(bytes) =>
          && status == Fine
          && (isCdata || (CleanEntities(env) && Clean(enc, s, start, end)) ==>
            pool == PutAll(isCdata, old(pool), bytes))
      decreases Unopened(env.entities, open), end - start + 1, 0
    {
      hide ValueTokAt, CleanEntities, Referenced;
      ghost var fit := isCdata || (CleanEntities(env) && Clean(enc, s, start, end));
      var ptr := start;
      ghost var done: Text := [];
      ghost var whole := Replace(env, open, enc, s, start, end);
      AppendNone(whole);
      while true
        invariant start <= ptr <= end && open == old(open)
        invariant fit ==> pool == PutAll(isCdata, old(pool), done) && (isCdata || Clean(enc, s, ptr, end))
        invariant whole == Append(done, Replace(env, open, enc, s, ptr, end))
        decreases end - ptr
      {
        ghost var pool0 := pool;
        ghost var bytes: Text := [];
        var tok := NextTok(enc, s, ptr, end);
        match tok {
          case Nothing =>
            assert done + [] == done;
            return Fine;
          case Malformed => return Failed(InvalidToken);
          case Unexpected => return Failed(UnexpectedState);
          case DataTo(_) =>
            bytes := s[ptr..tok.next];
            AppendBytes(isCdata, s[ptr..tok.next]);
          case BlankTo(_) =>
            bytes := [SPACE];
            AppendSpace(isCdata);
          case CharRefTo(_) =>
            status := AppendCharRef(isCdata, s, ptr, tok.next);
            if status != Fine { return; }
            bytes := Utf8Encode(CharRefNumber(s, ptr, tok.next));
          case EntityRefTo(_) =>
            status := AppendReference(isCdata, s, ptr, tok.next);
            if status != Fine { return; }
            bytes := Referenced(env, open, s, ptr, tok.next).bytes;
        }
        PutAllConcat(isCdata, old(pool), done, bytes);
        AppendMore(done, bytes, Replace(env, open, enc, s, tok.next, end));
        done := done + bytes;
        ptr := tok.next;
      }
    }

    /** storeAttributeValue; the terminator that follows the value in the pool is left out. */
    method StoreAttributeValue(enc: Enc, isCdata: bool, s: Text, start: nat, end: nat) returns (status: Status)
      requires start <= end <= |s| && pool == []
      modifies this
      ensures open == old(open)
      ensures
        match Replace(env, old(open), enc, s, start, end)
        case Err(e) => status == Failed(e)
        case Val(bytes) =>
          && status == Fine
          && (isCdata ==> pool == bytes)
          && (!isCdata && CleanEntities(env) && Clean(enc, s, start, end) ==> pool == Tokenised(bytes))
    {
      hide Replace, Clean, CleanEntities;
      ghost var r := Replace(env, open, enc, s, start, end);
      status := AppendAttributeValue(enc, isCdata, s, start, end);
      if status != Fine {
        return;
      }
      if isCdata {
        PutAllPlain(true, [], r.bytes);
        assert [] + r.bytes == r.bytes;
      } else {
        StreamingIsTwoPhase(r.bytes);
      }
      if !isCdata && |pool| > 0 && pool[|pool| - 1] == SPACE {
        pool := pool[..|pool| - 1];
      }
    }
  }

  lemma PutOne(isCdata: bool, pool: Text, b: Byte)
    ensures PutAll(isCdata, pool, [b]) == Put(isCdata, pool, b)
  {
    assert [b][..0] == [];
  }

  lemma AppendNone(v: Value)
    ensures Append([], v) == v
  {
    assert v.Val? ==> [] + v.bytes == v.bytes;
  }

  lemma AppendMore(a: Text, b: Text, v: Value)
    ensures Append(a, Append(b, v)) == Append(a + b, v)
  {
    assert v.Val? ==> a + (b + v.bytes) == (a + b) + v.bytes;
  }

  lemma {:induction false} DigitsRange(s: Text, i: nat, semi: nat, radix: nat, acc: nat)
    requires i <= semi <= |s| && acc < 0x110000
    ensures Digits(s, i, semi, radix, acc) < 0x110000
    decreases semi - i
  {
    if i < semi && acc * radix + HexDigit(s[i]) < 0x110000 {
      DigitsRange(s, i + 1, semi, radix, acc * radix + HexDigit(s[i]));
    }
  }

  lemma CharRefRange(s: Text, i: nat, next: nat)
    requires i + 4 <= next <= |s|
    ensures CharRefNumber(s, i, next) < 0x110000
  {
    DigitsRange(s, i + 3, next - 1, 16, 0);
    DigitsRange(s, i + 2, next - 1, 10, 0);
  }
}
