/**
  The scan functions of xmltok_impl.c in their own form: loops that advance `ptr` until
  a token is decided or the input ends. Each is proved to compute what the automaton of
  Scanner computes from its entry state.
*/
module Tokenizer {
  import opened Scanner

  /** What a move leads to. */
  function Follow(enc: Enc, m: Move, s: Text, i: nat, end: nat): Result
    requires i < end <= |s| && Progress(m, i, end)
  {
    match m
    case Go(st, n) => Scan(enc, st, s, i + n, end)
    case Accept(tok, n) => Tok(tok, i + n)
    case Bad(n) => Invalid(i + n)
    case More => Partial
    case MoreChar => PartialChar
  }

  /** One character of a scan. */
  lemma ScanMove(enc: Enc, st: State, s: Text, i: nat, end: nat)
    requires i < end <= |s| && !st.Cdata?
    ensures
      var m := CharStep(st, Look(enc, s, i, end));
      Progress(m, i, end) && Scan(enc, st, s, i, end) == Follow(enc, m, s, i, end)
  {
    hide Scan, CharStep, Look;
    ScanUnfold(enc, st, s, i, end);
  }

  /** One character of a scan, in terms of what the macros test about it. */
  lemma ScanChar(enc: Enc, st: State, s: Text, i: nat, end: nat)
    requires i < end <= |s| && !st.Cdata?
    ensures
      var v := Look(enc, s, i, end);
      && v.c == ByteType(enc, s[i]) && v.b == s[i]
      && v.nmstrt == TestChar(enc, NmstrtChar, s, i, end)
      && v.name == TestChar(enc, NameChar, s, i, end)
      && v.data == TestChar(enc, DataChar, s, i, end)
      && (v.nmstrt.Fits? ==> v.raw == s[i..i + v.nmstrt.n])
      && (v.name.Fits? ==> v.raw == s[i..i + v.name.n])
      && Progress(CharStep(st, v), i, end)
      && Scan(enc, st, s, i, end) == Follow(enc, CharStep(st, v), s, i, end)
  {
    hide Scan, CharStep;
    ScanUnfold(enc, st, s, i, end);
  }

  /** "-" has been read inside a comment; `done` unless the comment goes on. */
  method ScanDash(enc: Enc, s: Text, ptr: nat, end: nat) returns (done: bool, r: Result)
    requires ptr <= end <= |s|
    ensures if done then r == Scan(enc, InComment(Minus), s, ptr, end)
            else ptr < end && Scan(enc, InComment(Minus), s, ptr, end) == Scan(enc, InComment(Body), s, ptr, end)
  {
    hide Scan, TestChar, StepAt, Look;
    ScanEmpty(enc, InComment(Minus), s, end);
    if ptr == end {
      return true, Partial;
    }
    ScanChar(enc, InComment(Minus), s, ptr, end);
    if s[ptr] == MINUS_CHAR {
      ScanEmpty(enc, InComment(MinusMinus), s, end);
      if ptr + 1 == end {
        return true, Partial;
      }
      ScanChar(enc, InComment(MinusMinus), s, ptr + 1, end);
      if s[ptr + 1] != GT_CHAR {
        return true, Invalid(ptr + 1);
      }
      return true, Tok(Comment, ptr + 2);
    }
    ScanChar(enc, InComment(Body), s, ptr, end);
    return false, Partial;
  }

  lemma CommentUnfold(enc: Enc, s: Text, i: nat, end: nat)
    requires i < end <= |s|
    ensures
      var t := TestChar(enc, DataChar, s, i, end);
      Scan(enc, InComment(Body), s, i, end) ==
        if ByteType(enc, s[i]) == MINUS then Scan(enc, InComment(Minus), s, i + 1, end)
        else if t.CutOff? then PartialChar
        else if t.Refused? then Invalid(i)
        else Scan(enc, InComment(Body), s, i + (if t.Fits? then t.n else 1), end)
  {
    hide Scan, TestChar, StepAt, Look, ByteType;
    ScanChar(enc, InComment(Body), s, i, end);
  }

  /** ptr points after "<!-" */
  method ScanComment(enc: Enc, s: Text, start: nat, end: nat) returns (r: Result)
    requires start <= end <= |s|
    ensures r == Scan(enc, InComment(Dash), s, start, end)
  {
    hide Scan, TestChar, StepAt, Look, ByteType;
    ScanEmpty(enc, InComment(Dash), s, end);
    if start == end {
      return Partial;
    }
    ScanChar(enc, InComment(Dash), s, start, end);
    if s[start] != MINUS_CHAR {
      return Invalid(start);
    }
    r := ScanCommentBody(enc, s, start + 1, end);
  }

  /** The loop of scanComment, after "<!--". */
  method ScanCommentBody(enc: Enc, s: Text, start: nat, end: nat) returns (r: Result)
    requires start <= end <= |s|
    ensures r == Scan(enc, InComment(Body), s, start, end)
  {
    hide Scan, TestChar, ByteType;
    var ptr := start;
    while ptr != end
      invariant start <= ptr <= end
      invariant Scan(enc, InComment(Body), s, ptr, end) == Scan(enc, InComment(Body), s, start, end)
    {
      CommentUnfold(enc, s, ptr, end);
      if ByteType(enc, s[ptr]) == MINUS {
        ptr := ptr + 1;
        var done, e := ScanDash(enc, s, ptr, end);
        if done {
          return e;
        }
      } else {
        match TestChar(enc, DataChar, s, ptr, end)
        case Fits(n) => ptr := ptr + n;
        case CutOff => return PartialChar;
        case Refused => return Invalid(ptr);
        case NotCovered => ptr := ptr + 1;
      }
    }
    ScanEmpty(enc, InComment(Body), s, end);
    r := Partial;
  }

  /** ptr points after "<?" */
  method ScanPi(enc: Enc, s: Text, start: nat, end: nat) returns (r: Result)
    requires start <= end <= |s|
    ensures r == Scan(enc, InPi(PiStart), s, start, end)
  {
    hide Scan, TestChar, StepAt, Look, ByteType;
    ScanEmpty(enc, InPi(PiStart), s, end);
    if start == end {
      return Partial;
    }
    ScanChar(enc, InPi(PiStart), s, start, end);
    match TestChar(enc, NmstrtChar, s, start, end)
    case Fits(n) => r := ScanPiName(enc, s, start, start + n, end);
    case CutOff => r := PartialChar;
    case Refused => r := Invalid(start);
    case NotCovered => r := Invalid(start);
  }

  lemma PiNameUnfold(enc: Enc, target: Text, s: Text, i: nat, end: nat)
    requires i < end <= |s| && !IsSpace(ByteType(enc, s[i])) && ByteType(enc, s[i]) != QUEST
    ensures
      var t := TestChar(enc, NameChar, s, i, end);
      Scan(enc, InPi(PiName(target)), s, i, end) ==
        if t.Fits? then Scan(enc, InPi(PiName(target + s[i..i + t.n])), s, i + t.n, end)
        else if t.CutOff? then PartialChar
        else Invalid(i)
  {
    hide Scan, TestChar, StepAt, Look, ByteType;
    ScanChar(enc, InPi(PiName(target)), s, i, end);
  }

  /** The target of a processing instruction, whose first character has been read. */
  method ScanPiName(enc: Enc, s: Text, start: nat, from: nat, end: nat) returns (r: Result)
    requires start < from <= end <= |s|
    ensures r == Scan(enc, InPi(PiName(s[start..from])), s, from, end)
  {
    hide Scan, TestChar, ByteType;
    var ptr := from;
    while ptr != end
      invariant start <= ptr <= end
      invariant Scan(enc, InPi(PiName(s[start..ptr])), s, ptr, end) ==
        Scan(enc, InPi(PiName(s[start..from])), s, from, end)
    {
      var c := ByteType(enc, s[ptr]);
      if IsSpace(c) || c == QUEST {
        r := ScanPiTarget(enc, s, ptr, end, s[start..ptr]);
        return;
      }
      PiNameUnfold(enc, s[start..ptr], s, ptr, end);
      match TestChar(enc, NameChar, s, ptr, end)
      case Fits(n) =>
        assert s[start..ptr + n] == s[start..ptr] + s[ptr..ptr + n];
        ptr := ptr + n;
      case CutOff => return PartialChar;
      case Refused => return Invalid(ptr);
      case NotCovered => return Invalid(ptr);
    }
    ScanEmpty(enc, InPi(PiName(s[start..ptr])), s, end);
    r := Partial;
  }

  /** A blank or "?" after the target of a processing instruction. */
  method ScanPiTarget(enc: Enc, s: Text, ptr: nat, end: nat, target: Text) returns (r: Result)
    requires ptr < end <= |s|
    requires IsSpace(ByteType(enc, s[ptr])) || ByteType(enc, s[ptr]) == QUEST
    ensures r == Scan(enc, InPi(PiName(target)), s, ptr, end)
  {
    hide Scan, TestChar, StepAt, Look, CheckPiTarget, ByteType;
    ScanChar(enc, InPi(PiName(target)), s, ptr, end);
    var check := CheckPiTarget(target);
    if check == BadTarget {
      return Invalid(ptr);
    }
    var tok := if check == XmlTarget then XmlDecl else Pi;
    if IsSpace(ByteType(enc, s[ptr])) {
      r := ScanPiBody(enc, s, ptr + 1, end, tok);
      return;
    }
    ScanEmpty(enc, InPi(PiNameQuest(tok)), s, end);
    if ptr + 1 == end {
      return Partial;
    }
    ScanChar(enc, InPi(PiNameQuest(tok)), s, ptr + 1, end);
    if s[ptr + 1] == GT_CHAR {
      return Tok(tok, ptr + 2);
    }
    return Invalid(ptr + 1);
  }

  /** "?" has been read. */
  lemma PiQuestUnfold(enc: Enc, tok: Token, s: Text, i: nat, end: nat)
    requires i <= end <= |s|
    ensures Scan(enc, InPi(PiQuest(tok)), s, i, end) ==
      if i == end then Partial
      else if s[i] == GT_CHAR then Tok(tok, i + 1)
      else Scan(enc, InPi(PiBody(tok)), s, i, end)
  {
    hide Scan, TestChar, StepAt, Look, ByteType;
    if i == end {
      ScanEmpty(enc, InPi(PiQuest(tok)), s, end);
    } else {
      ScanChar(enc, InPi(PiQuest(tok)), s, i, end);
      ScanChar(enc, InPi(PiBody(tok)), s, i, end);
    }
  }

  /** The inner loop of scanPi, after the target. */
  method ScanPiBody(enc: Enc, s: Text, start: nat, end: nat, tok: Token) returns (r: Result)
    requires start <= end <= |s|
    ensures r == Scan(enc, InPi(PiBody(tok)), s, start, end)
  {
    hide Scan, TestChar, StepAt, Look, ByteType;
    var ptr := start;
    while ptr != end
      invariant start <= ptr <= end
      invariant Scan(enc, InPi(PiBody(tok)), s, ptr, end) == Scan(enc, InPi(PiBody(tok)), s, start, end)
    {
      ScanChar(enc, InPi(PiBody(tok)), s, ptr, end);
      if ByteType(enc, s[ptr]) == QUEST {
        ptr := ptr + 1;
        PiQuestUnfold(enc, tok, s, ptr, end);
        if ptr == end {
          return Partial;
        }
        if s[ptr] == GT_CHAR {
          return Tok(tok, ptr + 1);
        }
      } else {
        match TestChar(enc, DataChar, s, ptr, end)
        case Fits(n) => ptr := ptr + n;
        case CutOff => return PartialChar;
        case Refused => return Invalid(ptr);
        case NotCovered => ptr := ptr + 1;
      }
    }
    ScanEmpty(enc, InPi(PiBody(tok)), s, end);
    r := Partial;
  }

  /** ptr points after "<![" */
  method ScanCdataSection(enc: Enc, s: Text, start: nat, end: nat) returns (r: Result)
    requires start <= end <= |s|
    ensures r == Scan(enc, Cdata, s, start, end)
  {
    hide Scan;
    ScanEmpty(enc, Cdata, s, end);
    if start < end {
      ScanUnfold(enc, Cdata, s, start, end);
    }
    if end - start < 6 {
      return Partial;
    }
    var i, ptr := 0, start;
    while i < 6
      invariant i <= 6 && ptr == start + i
      invariant CdataMatch(s, start, 0) == CdataMatch(s, start, i)
    {
      if s[ptr] != CDATA_LSQB[i] {
        return Invalid(ptr);
      }
      i, ptr := i + 1, ptr + 1;
    }
    r := Tok(CdataOpen, ptr);
  }

  /** Blanks between the name of an end tag and its ">". */
  method ScanEndSpace(enc: Enc, s: Text, start: nat, end: nat) returns (r: Result)
    requires start <= end <= |s|
    ensures r == Scan(enc, InEnd(EndSpace), s, start, end)
  {
    hide Scan, TestChar, StepAt, Look, ByteType;
    var ptr := start;
    while ptr != end
      invariant start <= ptr <= end
      invariant Scan(enc, InEnd(EndSpace), s, ptr, end) == Scan(enc, InEnd(EndSpace), s, start, end)
    {
      ScanChar(enc, InEnd(EndSpace), s, ptr, end);
      var c := ByteType(enc, s[ptr]);
      if c == GT {
        return Tok(EndTag, ptr + 1);
      } else if !IsSpace(c) {
        return Invalid(ptr);
      }
      ptr := ptr + 1;
    }
    ScanEmpty(enc, InEnd(EndSpace), s, end);
    r := Partial;
  }

  /** ptr points after "</" */
  method ScanEndTag(enc: Enc, s: Text, start: nat, end: nat) returns (r: Result)
    requires start <= end <= |s|
    ensures r == Scan(enc, InEnd(EndStart), s, start, end)
  {
    hide Scan, TestChar, StepAt, Look, ByteType;
    ScanEmpty(enc, InEnd(EndStart), s, end);
    if start == end {
      return Partial;
    }
    ScanChar(enc, InEnd(EndStart), s, start, end);
    match TestChar(enc, NmstrtChar, s, start, end)
    case Fits(n) => r := ScanEndName(enc, s, start + n, end);
    case CutOff => r := PartialChar;
    case Refused => r := Invalid(start);
    case NotCovered => r := Invalid(start);
  }

  lemma EndNameUnfold(enc: Enc, s: Text, i: nat, end: nat)
    requires i < end <= |s|
    ensures
      var c, t := ByteType(enc, s[i]), TestChar(enc, NameChar, s, i, end);
      Scan(enc, InEnd(EndName), s, i, end) ==
        if IsSpace(c) then Scan(enc, InEnd(EndSpace), s, i + 1, end)
        else if c == COLON then Scan(enc, InEnd(EndName), s, i + 1, end)
        else if c == GT then Tok(EndTag, i + 1)
        else if t.Fits? then Scan(enc, InEnd(EndName), s, i + t.n, end)
        else if t.CutOff? then PartialChar
        else Invalid(i)
  {
    hide Scan, TestChar, StepAt, Look, ByteType;
    hide LtStep, ExclStep, CommentStep, PiStep, TagStep, AttStep, RefStep;
    ScanChar(enc, InEnd(EndName), s, i, end);
  }

  /** The name in an end tag, whose first character has been read. */
  method ScanEndName(enc: Enc, s: Text, start: nat, end: nat) returns (r: Result)
    requires start <= end <= |s|
    ensures r == Scan(enc, InEnd(EndName), s, start, end)
  {
    hide Scan, TestChar, ByteType;
    var ptr := start;
    while ptr != end
      invariant start <= ptr <= end
      invariant Scan(enc, InEnd(EndName), s, ptr, end) == Scan(enc, InEnd(EndName), s, start, end)
    {
      EndNameUnfold(enc, s, ptr, end);
      var c := ByteType(enc, s[ptr]);
      if IsSpace(c) {
        r := ScanEndSpace(enc, s, ptr + 1, end);
        return;
      } else if c == COLON {
        ptr := ptr + 1;
      } else if c == GT {
        return Tok(EndTag, ptr + 1);
      } else {
        match TestChar(enc, NameChar, s, ptr, end)
        case Fits(n) => ptr := ptr + n;
        case CutOff => return PartialChar;
        case Refused => return Invalid(ptr);
        case NotCovered => return Invalid(ptr);
      }
    }
    ScanEmpty(enc, InEnd(EndName), s, end);
    r := Partial;
  }

  /** What a digit state does: `hex` after "&#x" and one digit, or decimal. */
  lemma DigitUnfold(enc: Enc, hex: bool, s: Text, i: nat, end: nat)
    requires i < end <= |s|
    ensures
      var c, st := ByteType(enc, s[i]), InRef(if hex then CharRefHex else CharRefDec, NoQuote);
      Scan(enc, st, s, i, end) ==
        if c == DIGIT || (hex && c == HEX) then Scan(enc, st, s, i + 1, end)
        else if c == SEMI then Tok(CharRef, i + 1)
        else Invalid(i)
  {
    hide Scan, TestChar, StepAt, Look, ByteType;
    ScanChar(enc, InRef(if hex then CharRefHex else CharRefDec, NoQuote), s, i, end);
  }

  /** ptr points after "&#x" */
  method ScanHexCharRef(enc: Enc, s: Text, start: nat, end: nat) returns (r: Result)
    requires start <= end <= |s|
    ensures r == Scan(enc, InRef(CharRefHex0, NoQuote), s, start, end)
  {
    hide Scan, TestChar, StepAt, Look, ByteType;
    ScanEmpty(enc, InRef(CharRefHex0, NoQuote), s, end);
    if start == end {
      return Partial;
    }
    ScanChar(enc, InRef(CharRefHex0, NoQuote), s, start, end);
    var c := ByteType(enc, s[start]);
    if c != DIGIT && c != HEX {
      return Invalid(start);
    }
    r := ScanHexDigits(enc, s, start + 1, end);
  }

  method ScanHexDigits(enc: Enc, s: Text, start: nat, end: nat) returns (r: Result)
    requires start <= end <= |s|
    ensures r == Scan(enc, InRef(CharRefHex, NoQuote), s, start, end)
  {
    hide Scan, ByteType;
    var ptr := start;
    while ptr != end
      invariant start <= ptr <= end
      invariant Scan(enc, InRef(CharRefHex, NoQuote), s, ptr, end) ==
        Scan(enc, InRef(CharRefHex, NoQuote), s, start, end)
    {
      DigitUnfold(enc, true, s, ptr, end);
      var c := ByteType(enc, s[ptr]);
      if c == SEMI {
        return Tok(CharRef, ptr + 1);
      } else if c != DIGIT && c != HEX {
        return Invalid(ptr);
      }
      ptr := ptr + 1;
    }
    ScanEmpty(enc, InRef(CharRefHex, NoQuote), s, end);
    r := Partial;
  }

  /** ptr points after "&#" */
  method ScanCharRef(enc: Enc, s: Text, start: nat, end: nat) returns (r: Result)
    requires start <= end <= |s|
    ensures r == Scan(enc, InRef(CharRefStart, NoQuote), s, start, end)
  {
    hide Scan, TestChar, StepAt, Look, ByteType;
    ScanEmpty(enc, InRef(CharRefStart, NoQuote), s, end);
    if start == end {
      return Partial;
    }
    ScanChar(enc, InRef(CharRefStart, NoQuote), s, start, end);
    if s[start] == X_CHAR {
      r := ScanHexCharRef(enc, s, start + 1, end);
    } else if ByteType(enc, s[start]) == DIGIT {
      r := ScanDigits(enc, s, start + 1, end);
    } else {
      r := Invalid(start);
    }
  }

  method ScanDigits(enc: Enc, s: Text, start: nat, end: nat) returns (r: Result)
    requires start <= end <= |s|
    ensures r == Scan(enc, InRef(CharRefDec, NoQuote), s, start, end)
  {
    hide Scan, ByteType;
    var ptr := start;
    while ptr != end
      invariant start <= ptr <= end
      invariant Scan(enc, InRef(CharRefDec, NoQuote), s, ptr, end) ==
        Scan(enc, InRef(CharRefDec, NoQuote), s, start, end)
    {
      DigitUnfold(enc, false, s, ptr, end);
      var c := ByteType(enc, s[ptr]);
      if c == SEMI {
        return Tok(CharRef, ptr + 1);
      } else if c != DIGIT {
        return Invalid(ptr);
      }
      ptr := ptr + 1;
    }
    ScanEmpty(enc, InRef(CharRefDec, NoQuote), s, end);
    r := Partial;
  }

  /** ptr points after "&" */
  method ScanRef(enc: Enc, s: Text, start: nat, end: nat) returns (r: Result)
    requires start <= end <= |s|
    ensures r == Scan(enc, InRef(RefStart, NoQuote), s, start, end)
  {
    hide Scan, TestChar, StepAt, Look, ByteType;
    ScanEmpty(enc, InRef(RefStart, NoQuote), s, end);
    if start == end {
      return Partial;
    }
    ScanChar(enc, InRef(RefStart, NoQuote), s, start, end);
    if ByteType(enc, s[start]) == NUM {
      r := ScanCharRef(enc, s, start + 1, end);
      return;
    }
    match TestChar(enc, NmstrtChar, s, start, end)
    case Fits(n) => r := ScanRefName(enc, s, start + n, end);
    case CutOff => r := PartialChar;
    case Refused => r := Invalid(start);
    case NotCovered => r := Invalid(start);
  }

  lemma RefNameUnfold(enc: Enc, s: Text, i: nat, end: nat)
    requires i < end <= |s|
    ensures
      var t := TestChar(enc, NameChar, s, i, end);
      Scan(enc, InRef(RefName, NoQuote), s, i, end) ==
        if ByteType(enc, s[i]) == SEMI then Tok(EntityRef, i + 1)
        else if t.Fits? then Scan(enc, InRef(RefName, NoQuote), s, i + t.n, end)
        else if t.CutOff? then PartialChar
        else Invalid(i)
  {
    hide Scan, TestChar, StepAt, Look, ByteType;
    ScanChar(enc, InRef(RefName, NoQuote), s, i, end);
  }

  method ScanRefName(enc: Enc, s: Text, start: nat, end: nat) returns (r: Result)
    requires start <= end <= |s|
    ensures r == Scan(enc, InRef(RefName, NoQuote), s, start, end)
  {
    hide Scan, TestChar, ByteType;
    var ptr := start;
    while ptr != end
      invariant start <= ptr <= end
      invariant Scan(enc, InRef(RefName, NoQuote), s, ptr, end) == Scan(enc, InRef(RefName, NoQuote), s, start, end)
    {
      RefNameUnfold(enc, s, ptr, end);
      if ByteType(enc, s[ptr]) == SEMI {
        return Tok(EntityRef, ptr + 1);
      }
      match TestChar(enc, NameChar, s, ptr, end)
      case Fits(n) => ptr := ptr + n;
      case CutOff => return PartialChar;
      case Refused => return Invalid(ptr);
      case NotCovered => return Invalid(ptr);
    }
    ScanEmpty(enc, InRef(RefName, NoQuote), s, end);
    r := Partial;
  }

  lemma RefSteps(p: RefPlace, q: ByteClass, v: View)
    ensures
      var m, m' := RefStep(p, NoQuote, v), RefStep(p, Quote(q), v);
      if m.Accept? then m' == Go(InAtt(AttValue(q)), 1) && m.an == 1
      else if m.Go? then m.st.InRef? && m.st.ctx == NoQuote && m' == Go(InRef(m.st.ref, Quote(q)), m.n)
      else m' == m
  {
  }

  /** A reference inside a quoted value is scanned like one outside, and the value goes on. */
  lemma {:induction false} RefInValue(enc: Enc, p: RefPlace, s: Text, i: nat, end: nat, q: ByteClass)
    requires i <= end <= |s|
    ensures
      var plain := Scan(enc, InRef(p, NoQuote), s, i, end);
      Scan(enc, InRef(p, Quote(q)), s, i, end) ==
      (if plain.Tok? then Scan(enc, InAtt(AttValue(q)), s, plain.next, end) else plain)
    decreases end - i
  {
    hide Scan, TestChar, ByteType, Look, StepAt, RefStep;
    ScanEmpty(enc, InRef(p, NoQuote), s, i);
    ScanEmpty(enc, InRef(p, Quote(q)), s, i);
    if i < end {
      ScanChar(enc, InRef(p, NoQuote), s, i, end);
      ScanChar(enc, InRef(p, Quote(q)), s, i, end);
      RefSteps(p, q, Look(enc, s, i, end));
      var m := RefStep(p, NoQuote, Look(enc, s, i, end));
      if m.Go? {
        RefInValue(enc, m.st.ref, s, i + m.n, end, q);
      }
    }
  }

  lemma ValueUnfold(enc: Enc, open: ByteClass, s: Text, i: nat, end: nat)
    requires i < end <= |s|
    ensures
      var c, t := ByteType(enc, s[i]), TestChar(enc, DataChar, s, i, end);
      Scan(enc, InAtt(AttValue(open)), s, i, end) ==
        if c == open then Scan(enc, InAtt(AttEnd), s, i + 1, end)
        else if c == AMP then Scan(enc, InRef(RefStart, Quote(open)), s, i + 1, end)
        else if c == LT || t.Refused? then Invalid(i)
        else if t.CutOff? then PartialChar
        else Scan(enc, InAtt(AttValue(open)), s, i + (if t.Fits? then t.n else 1), end)
  {
    hide Scan, TestChar, StepAt, Look, ByteType;
    hide LtStep, ExclStep, CommentStep, PiStep, EndStep, TagStep, RefStep;
    ScanChar(enc, InAtt(AttValue(open)), s, i, end);
  }

  /** The body of an attribute value, up to its closing quote; `next` is set when found. */
  method ScanValue(enc: Enc, s: Text, start: nat, end: nat, open: ByteClass) returns (found: bool, ptr: nat, r: Result)
    requires start <= end <= |s| && (open == QUOT || open == APOS)
    ensures found ==>
      && start < ptr <= end
      && Scan(enc, InAtt(AttValue(open)), s, start, end) == Scan(enc, InAtt(AttEnd), s, ptr, end)
    ensures !found ==> r == Scan(enc, InAtt(AttValue(open)), s, start, end)
  {
    hide Scan, TestChar, StepAt, Look, ByteType;
    ptr, found, r := start, false, Partial;
    while true
      invariant start <= ptr <= end
      invariant Scan(enc, InAtt(AttValue(open)), s, ptr, end) == Scan(enc, InAtt(AttValue(open)), s, start, end)
      decreases end - ptr
    {
      if ptr == end {
        ScanEmpty(enc, InAtt(AttValue(open)), s, end);
        return false, ptr, Partial;
      }
      ValueUnfold(enc, open, s, ptr, end);
      var t := ByteType(enc, s[ptr]);
      if t == open {
        return true, ptr + 1, Partial;
      } else if t == AMP {
        RefInValue(enc, RefStart, s, ptr + 1, end, open);
        var ref := ScanRef(enc, s, ptr + 1, end);
        if !ref.Tok? {
          return false, ptr, ref;
        }
        ptr := ref.next;
      } else if t == LT {
        return false, ptr, Invalid(ptr);
      } else {
        match TestChar(enc, DataChar, s, ptr, end)
        case Fits(n) => ptr := ptr + n;
        case CutOff => return false, ptr, PartialChar;
        case Refused => return false, ptr, Invalid(ptr);
        case NotCovered => ptr := ptr + 1;
      }
    }
  }

  /** "/" has been read: only ">" may follow. */
  method ScanSol(enc: Enc, s: Text, ptr: nat, end: nat, atts: bool) returns (r: Result)
    requires ptr <= end <= |s|
    ensures r == Scan(enc, InTag(TagSol(atts)), s, ptr, end)
  {
    hide Scan, TestChar, StepAt, Look, ByteType;
    if ptr == end {
      ScanEmpty(enc, InTag(TagSol(atts)), s, end);
      return Partial;
    }
    ScanChar(enc, InTag(TagSol(atts)), s, ptr, end);
    if s[ptr] != GT_CHAR {
      return Invalid(ptr);
    }
    r := Tok(EmptyElement(atts), ptr + 1);
  }

  /** What follows a value: the tag ends, or blanks lead to the next attribute's name. */
  method ScanAfterValue(enc: Enc, s: Text, start: nat, end: nat) returns (another: bool, ptr: nat, r: Result)
    requires start <= end <= |s|
    ensures another ==>
      && start < ptr <= end
      && Scan(enc, InAtt(AttEnd), s, start, end) == Scan(enc, InAtt(AttName(false)), s, ptr, end)
    ensures !another ==> r == Scan(enc, InAtt(AttEnd), s, start, end)
  {
    hide Scan, TestChar, StepAt, Look, ByteType;
    ptr, another, r := start, false, Partial;
    ScanEmpty(enc, InAtt(AttEnd), s, end);
    if ptr == end {
      return;
    }
    ScanChar(enc, InAtt(AttEnd), s, ptr, end);
    var t := ByteType(enc, s[ptr]);
    if t == SOL {
      r := ScanSol(enc, s, ptr + 1, end, true);
      return;
    } else if t == GT {
      return false, ptr, Tok(StartTag(true), ptr + 1);
    } else if !IsSpace(t) {
      return false, ptr, Invalid(ptr);
    }
    another, ptr, r := ScanBetween(enc, s, ptr + 1, end);
  }

  lemma BetweenUnfold(enc: Enc, s: Text, i: nat, end: nat)
    requires i < end <= |s|
    ensures
      var c, t := ByteType(enc, s[i]), TestChar(enc, NmstrtChar, s, i, end);
      Scan(enc, InAtt(AttBetween), s, i, end) ==
        if IsSpace(c) then Scan(enc, InAtt(AttBetween), s, i + 1, end)
        else if c == SOL then Scan(enc, InTag(TagSol(true)), s, i + 1, end)
        else if c == GT then Tok(StartTag(true), i + 1)
        else if t.Fits? then Scan(enc, InAtt(AttName(false)), s, i + t.n, end)
        else if t.CutOff? then PartialChar
        else Invalid(i)
  {
    hide Scan, TestChar, StepAt, Look, ByteType;
    hide LtStep, ExclStep, CommentStep, PiStep, EndStep, TagStep, RefStep;
    ScanChar(enc, InAtt(AttBetween), s, i, end);
  }

  /** Blanks after a value. */
  method ScanBetween(enc: Enc, s: Text, start: nat, end: nat) returns (another: bool, ptr: nat, r: Result)
    requires start <= end <= |s|
    ensures another ==>
      && start < ptr <= end
      && Scan(enc, InAtt(AttBetween), s, start, end) == Scan(enc, InAtt(AttName(false)), s, ptr, end)
    ensures !another ==> r == Scan(enc, InAtt(AttBetween), s, start, end)
  {
    hide Scan, TestChar, ByteType;
    ptr := start;
    while ptr != end
      invariant start <= ptr <= end
      invariant Scan(enc, InAtt(AttBetween), s, ptr, end) == Scan(enc, InAtt(AttBetween), s, start, end)
    {
      BetweenUnfold(enc, s, ptr, end);
      var t := ByteType(enc, s[ptr]);
      if IsSpace(t) {
        ptr := ptr + 1;
      } else if t == GT {
        return false, ptr, Tok(StartTag(true), ptr + 1);
      } else if t == SOL {
        r := ScanSol(enc, s, ptr + 1, end, true);
        return false, ptr, r;
      } else {
        match TestChar(enc, NmstrtChar, s, ptr, end)
        case Fits(n) => return true, ptr + n, Partial;
        case CutOff => return false, ptr, PartialChar;
        case Refused => return false, ptr, Invalid(ptr);
        case NotCovered => return false, ptr, Invalid(ptr);
      }
    }
    ScanEmpty(enc, InAtt(AttBetween), s, end);
    return false, ptr, Partial;
  }

  /** Blanks between an attribute's name and "=". */
  method ScanAttSpace(enc: Enc, s: Text, start: nat, end: nat) returns (found: bool, ptr: nat, r: Result)
    requires start <= end <= |s|
    ensures
      var from := Scan(enc, InAtt(AttSpace), s, start, end);
      if found then start < ptr <= end && from == Scan(enc, InAtt(AttEq), s, ptr, end) else r == from
  {
    hide Scan, TestChar, StepAt, Look, ByteType;
    ptr := start;
    while ptr != end
      invariant start <= ptr <= end
      invariant Scan(enc, InAtt(AttSpace), s, ptr, end) == Scan(enc, InAtt(AttSpace), s, start, end)
    {
      ScanChar(enc, InAtt(AttSpace), s, ptr, end);
      var t := ByteType(enc, s[ptr]);
      if t == EQUALS {
        return true, ptr + 1, Partial;
      } else if !IsSpace(t) {
        return false, ptr, Invalid(ptr);
      }
      ptr := ptr + 1;
    }
    ScanEmpty(enc, InAtt(AttSpace), s, end);
    return false, ptr, Partial;
  }

  /** From "=" to the opening quote. */
  method ScanEquals(enc: Enc, s: Text, start: nat, end: nat) returns (found: bool, ptr: nat, open: ByteClass, r: Result)
    requires start <= end <= |s|
    ensures
      var from := Scan(enc, InAtt(AttEq), s, start, end);
      if found then
        && start < ptr <= end && (open == QUOT || open == APOS)
        && from == Scan(enc, InAtt(AttValue(open)), s, ptr, end)
      else r == from
  {
    hide Scan, TestChar, StepAt, Look, ByteType;
    ptr, open := start, QUOT;
    while ptr != end
      invariant start <= ptr <= end
      invariant Scan(enc, InAtt(AttEq), s, ptr, end) == Scan(enc, InAtt(AttEq), s, start, end)
    {
      ScanChar(enc, InAtt(AttEq), s, ptr, end);
      open := ByteType(enc, s[ptr]);
      if open == QUOT || open == APOS {
        return true, ptr + 1, open, Partial;
      } else if !IsSpace(open) {
        return false, ptr, open, Invalid(ptr);
      }
      ptr := ptr + 1;
    }
    ScanEmpty(enc, InAtt(AttEq), s, end);
    return false, ptr, open, Partial;
  }

  /** The rest of an attribute after its name, up to the next attribute's name. */
  method ScanAttribute(enc: Enc, s: Text, start: nat, end: nat, space: bool)
      returns (another: bool, ptr: nat, r: Result)
    requires start <= end <= |s|
    ensures
      var from := Scan(enc, if space then InAtt(AttSpace) else InAtt(AttEq), s, start, end);
      if another then start < ptr <= end && from == Scan(enc, InAtt(AttName(false)), s, ptr, end) else r == from
  {
    hide Scan;
    var eq := start;
    if space {
      var gotEq, afterEq, es := ScanAttSpace(enc, s, start, end);
      if !gotEq {
        return false, start, es;
      }
      eq := afterEq;
    }
    var found, value, open, e := ScanEquals(enc, s, eq, end);
    if !found {
      return false, start, e;
    }
    var closed, after, ev := ScanValue(enc, s, value, end, open);
    if !closed {
      return false, start, ev;
    }
    another, ptr, r := ScanAfterValue(enc, s, after, end);
  }

  /** The step taken at a character of an attribute name. */
  lemma AttNameUnfold(enc: Enc, hadColon: bool, s: Text, i: nat, end: nat)
    requires i < end <= |s|
    ensures
      var c, t := ByteType(enc, s[i]), TestChar(enc, NameChar, s, i, end);
      Scan(enc, InAtt(AttName(hadColon)), s, i, end) ==
        if c == COLON then (if hadColon then Invalid(i) else Scan(enc, InAtt(AttColon), s, i + 1, end))
        else if IsSpace(c) then Scan(enc, InAtt(AttSpace), s, i + 1, end)
        else if c == EQUALS then Scan(enc, InAtt(AttEq), s, i + 1, end)
        else if t.Fits? then Scan(enc, InAtt(AttName(hadColon)), s, i + t.n, end)
        else if t.CutOff? then PartialChar
        else Invalid(i)
  {
    hide Scan, TestChar, StepAt, Look, ByteType;
    hide LtStep, ExclStep, CommentStep, PiStep, EndStep, TagStep, RefStep;
    ScanChar(enc, InAtt(AttName(hadColon)), s, i, end);
  }

  /** The step taken at a character of an element name. */
  lemma TagNameUnfold(enc: Enc, hadColon: bool, s: Text, i: nat, end: nat)
    requires i < end <= |s|
    ensures
      var c, t := ByteType(enc, s[i]), TestChar(enc, NameChar, s, i, end);
      Scan(enc, InTag(TagName(hadColon)), s, i, end) ==
        if c == COLON then (if hadColon then Invalid(i) else Scan(enc, InTag(TagColon), s, i + 1, end))
        else if IsSpace(c) then Scan(enc, InTag(TagSpace), s, i + 1, end)
        else if c == GT then Tok(StartTag(false), i + 1)
        else if c == SOL then Scan(enc, InTag(TagSol(false)), s, i + 1, end)
        else if t.Fits? then Scan(enc, InTag(TagName(hadColon)), s, i + t.n, end)
        else if t.CutOff? then PartialChar
        else Invalid(i)
  {
    hide Scan, TestChar, StepAt, Look, ByteType;
    hide LtStep, ExclStep, CommentStep, PiStep, EndStep, AttStep, RefStep;
    ScanChar(enc, InTag(TagName(hadColon)), s, i, end);
  }

  /** A colon in an attribute name: the only one, with a name start character after it. */
  method ScanAttColon(enc: Enc, s: Text, ptr: nat, end: nat, hadColon: bool) returns (ok: bool, next: nat, r: Result)
    requires ptr < end <= |s| && ByteType(enc, s[ptr]) == COLON
    ensures
      var from := Scan(enc, InAtt(AttName(hadColon)), s, ptr, end);
      if ok then ptr < next <= end && from == Scan(enc, InAtt(AttName(true)), s, next, end) else r == from
  {
    hide Scan, TestChar, StepAt, Look, ByteType;
    ok, next, r := false, ptr + 1, Partial;
    AttNameUnfold(enc, hadColon, s, ptr, end);
    if hadColon {
      return false, ptr, Invalid(ptr);
    }
    ScanEmpty(enc, InAtt(AttColon), s, end);
    if next == end {
      return;
    }
    ScanChar(enc, InAtt(AttColon), s, next, end);
    match TestChar(enc, NmstrtChar, s, next, end)
    case Fits(n) => ok, next := true, next + n;
    case CutOff => r := PartialChar;
    case Refused => r := Invalid(next);
    case NotCovered => r := Invalid(next);
  }

  /** ptr points after the first character of an attribute name */
  method ScanAtts(enc: Enc, s: Text, start: nat, end: nat) returns (r: Result)
    requires start <= end <= |s|
    ensures r == Scan(enc, InAtt(AttName(false)), s, start, end)
  {
    hide Scan, TestChar, ByteType;
    ghost var whole := Scan(enc, InAtt(AttName(false)), s, start, end);
    var ptr, hadColon := start, false;
    while ptr != end
      invariant start <= ptr <= end
      invariant Scan(enc, InAtt(AttName(hadColon)), s, ptr, end) == whole
    {
      AttNameUnfold(enc, hadColon, s, ptr, end);
      var t := ByteType(enc, s[ptr]);
      if t == COLON {
        var ok, next, e := ScanAttColon(enc, s, ptr, end, hadColon);
        if !ok {
          return e;
        }
        ptr, hadColon := next, true;
      } else if IsSpace(t) || t == EQUALS {
        hadColon := false;
        var another, name, e := ScanAttribute(enc, s, ptr + 1, end, IsSpace(t));
        if !another {
          return e;
        }
        ptr := name;
      } else {
        match TestChar(enc, NameChar, s, ptr, end)
        case Fits(n) => ptr := ptr + n;
        case CutOff => return PartialChar;
        case Refused => return Invalid(ptr);
        case NotCovered => return Invalid(ptr);
      }
    }
    ScanEmpty(enc, InAtt(AttName(hadColon)), s, end);
    r := Partial;
  }

  lemma TagSpaceUnfold(enc: Enc, s: Text, i: nat, end: nat)
    requires i < end <= |s|
    ensures
      var c, t := ByteType(enc, s[i]), TestChar(enc, NmstrtChar, s, i, end);
      Scan(enc, InTag(TagSpace), s, i, end) ==
        if c == GT then Tok(StartTag(false), i + 1)
        else if c == SOL then Scan(enc, InTag(TagSol(false)), s, i + 1, end)
        else if IsSpace(c) then Scan(enc, InTag(TagSpace), s, i + 1, end)
        else if t.Fits? then Scan(enc, InAtt(AttName(false)), s, i + t.n, end)
        else if t.CutOff? then PartialChar
        else Invalid(i)
  {
    hide Scan, TestChar, StepAt, Look, ByteType;
    hide LtStep, ExclStep, CommentStep, PiStep, EndStep, AttStep, RefStep;
    ScanChar(enc, InTag(TagSpace), s, i, end);
  }

  /** Blanks after a tag's name: the tag ends, or its first attribute begins. */
  method ScanTagSpace(enc: Enc, s: Text, start: nat, end: nat) returns (r: Result)
    requires start <= end <= |s|
    ensures r == Scan(enc, InTag(TagSpace), s, start, end)
  {
    hide Scan, TestChar, ByteType;
    ghost var whole := Scan(enc, InTag(TagSpace), s, start, end);
    var ptr := start;
    while ptr != end
      invariant start <= ptr <= end
      invariant Scan(enc, InTag(TagSpace), s, ptr, end) == whole
    {
      TagSpaceUnfold(enc, s, ptr, end);
      var t := ByteType(enc, s[ptr]);
      if t == GT {
        return Tok(StartTag(false), ptr + 1);
      } else if t == SOL {
        r := ScanSol(enc, s, ptr + 1, end, false);
        return;
      } else if IsSpace(t) {
        ptr := ptr + 1;
      } else {
        match TestChar(enc, NmstrtChar, s, ptr, end)
        case Fits(n) => r := ScanAtts(enc, s, ptr + n, end); return;
        case CutOff => return PartialChar;
        case Refused => return Invalid(ptr);
        case NotCovered => return Invalid(ptr);
      }
    }
    ScanEmpty(enc, InTag(TagSpace), s, end);
    r := Partial;
  }

  /** A colon in an element name: the only one, with a name start character after it. */
  method ScanTagColon(enc: Enc, s: Text, ptr: nat, end: nat, hadColon: bool) returns (ok: bool, next: nat, r: Result)
    requires ptr < end <= |s| && ByteType(enc, s[ptr]) == COLON
    ensures
      var from := Scan(enc, InTag(TagName(hadColon)), s, ptr, end);
      if ok then ptr < next <= end && from == Scan(enc, InTag(TagName(true)), s, next, end) else r == from
  {
    hide Scan, TestChar, StepAt, Look, ByteType;
    ok, next, r := false, ptr + 1, Partial;
    TagNameUnfold(enc, hadColon, s, ptr, end);
    if hadColon {
      return false, ptr, Invalid(ptr);
    }
    ScanEmpty(enc, InTag(TagColon), s, end);
    if next == end {
      return;
    }
    ScanChar(enc, InTag(TagColon), s, next, end);
    match TestChar(enc, NmstrtChar, s, next, end)
    case Fits(n) => ok, next := true, next + n;
    case CutOff => r := PartialChar;
    case Refused => r := Invalid(next);
    case NotCovered => r := Invalid(next);
  }

  /** One more character of an element name, or what ends it. */
  method ScanTagName(enc: Enc, s: Text, ptr: nat, end: nat, hadColon: bool)
      returns (done: bool, next: nat, colon: bool, r: Result)
    requires ptr < end <= |s|
    ensures
      var from := Scan(enc, InTag(TagName(hadColon)), s, ptr, end);
      if done then r == from else ptr < next <= end && from == Scan(enc, InTag(TagName(colon)), s, next, end)
  {
    hide Scan, TestChar, ByteType;
    done, next, colon, r := true, ptr, hadColon, Partial;
    TagNameUnfold(enc, hadColon, s, ptr, end);
    var t := ByteType(enc, s[ptr]);
    if t == COLON {
      var ok;
      ok, next, r := ScanTagColon(enc, s, ptr, end, hadColon);
      done, colon := !ok, true;
    } else if IsSpace(t) {
      r := ScanTagSpace(enc, s, ptr + 1, end);
    } else if t == GT {
      r := Tok(StartTag(false), ptr + 1);
    } else if t == SOL {
      r := ScanSol(enc, s, ptr + 1, end, false);
    } else {
      match TestChar(enc, NameChar, s, ptr, end)
      case Fits(n) => done, next := false, ptr + n;
      case CutOff => r := PartialChar;
      case Refused => r := Invalid(ptr);
      case NotCovered => r := Invalid(ptr);
    }
  }

  /** ptr points after the first character of an element name */
  method ScanTag(enc: Enc, s: Text, start: nat, end: nat) returns (r: Result)
    requires start <= end <= |s|
    ensures r == Scan(enc, InTag(TagName(false)), s, start, end)
  {
    hide Scan;
    var ptr, hadColon := start, false;
    while ptr != end
      invariant start <= ptr <= end
      invariant Scan(enc, InTag(TagName(hadColon)), s, ptr, end) == Scan(enc, InTag(TagName(false)), s, start, end)
    {
      var done;
      done, ptr, hadColon, r := ScanTagName(enc, s, ptr, end, hadColon);
      if done {
        return;
      }
    }
    ScanEmpty(enc, InTag(TagName(hadColon)), s, end);
    r := Partial;
  }

  /** ptr points after "<!" */
  method ScanExcl(enc: Enc, s: Text, start: nat, end: nat) returns (r: Result)
    requires start <= end <= |s|
    ensures r == Scan(enc, Excl, s, start, end)
  {
    hide Scan, TestChar, StepAt, Look, ByteType;
    ScanEmpty(enc, Excl, s, end);
    if start == end {
      return Partial;
    }
    ScanChar(enc, Excl, s, start, end);
    var t := ByteType(enc, s[start]);
    if t == MINUS {
      r := ScanComment(enc, s, start + 1, end);
    } else if t == LSQB {
      r := ScanCdataSection(enc, s, start + 1, end);
    } else {
      r := Invalid(start);
    }
  }

  /** ptr points after "<" */
  method ScanLt(enc: Enc, s: Text, start: nat, end: nat) returns (r: Result)
    requires start <= end <= |s|
    ensures r == Scan(enc, Lt, s, start, end)
  {
    hide Scan, TestChar, StepAt, Look, ByteType;
    ScanEmpty(enc, Lt, s, end);
    if start == end {
      return Partial;
    }
    ScanChar(enc, Lt, s, start, end);
    var t := ByteType(enc, s[start]);
    if t == EXCL {
      r := ScanExcl(enc, s, start + 1, end);
    } else if t == QUEST {
      r := ScanPi(enc, s, start + 1, end);
    } else if t == SOL {
      r := ScanEndTag(enc, s, start + 1, end);
    } else {
      match TestChar(enc, NmstrtChar, s, start, end)
      case Fits(n) => r := ScanTag(enc, s, start + n, end);
      case CutOff => r := PartialChar;
      case Refused => r := Invalid(start);
      case NotCovered => r := Invalid(start);
    }
  }

  /** contentTok */
  method NextContentTok(enc: Enc, s: Text, start: nat, end: nat) returns (r: Result)
    requires start <= end <= |s|
    ensures r == ContentTok(enc, s, start, end)
  {
    hide Scan, TestChar, DataTail, ByteType;
    if start == end {
      return NoTok;
    }
    var ptr := start;
    var c := ByteType(enc, s[ptr]);
    if c == LT {
      r := ScanLt(enc, s, ptr + 1, end);
      return;
    } else if c == AMP {
      r := ScanRef(enc, s, ptr + 1, end);
      return;
    } else if c == CR {
      ptr := ptr + 1;
      if ptr == end {
        return TrailingCr;
      }
      if ByteType(enc, s[ptr]) == LF {
        ptr := ptr + 1;
      }
      return Tok(DataNewline, ptr);
    } else if c == LF {
      return Tok(DataNewline, ptr + 1);
    } else if c == RSQB {
      ptr := ptr + 1;
      if ptr == end {
        return TrailingRsqb;
      }
      if s[ptr] == RSQB_CHAR {
        ptr := ptr + 1;
        if ptr == end {
          return TrailingRsqb;
        }
        if s[ptr] == GT_CHAR {
          return Invalid(ptr);
        }
        ptr := ptr - 1;
      }
    } else {
      match TestChar(enc, DataChar, s, ptr, end)
      case Fits(n) => ptr := ptr + n;
      case CutOff => return PartialChar;
      case Refused => return Invalid(ptr);
      case NotCovered => ptr := ptr + 1;
    }
    r := ContentData(enc, s, ptr, end);
  }

  /** The second loop of contentTok. */
  method ContentData(enc: Enc, s: Text, start: nat, end: nat) returns (r: Result)
    requires start <= end <= |s|
    ensures r == DataTail(enc, s, start, end)
  {
    hide TestChar;
    var ptr := start;
    while ptr != end
      invariant start <= ptr <= end
      invariant DataTail(enc, s, ptr, end) == DataTail(enc, s, start, end)
    {
      match TestChar(enc, DataChar, s, ptr, end)
      case Fits(n) => ptr := ptr + n;
      case CutOff => return Tok(DataChars, ptr);
      case Refused => return Tok(DataChars, ptr);
      case NotCovered =>
        var c := ByteType(enc, s[ptr]);
        if c == RSQB {
          if ptr + 1 == end || (s[ptr + 1] == RSQB_CHAR && ptr + 2 == end) {
            return Tok(DataChars, ptr);
          }
          if s[ptr + 1] == RSQB_CHAR && s[ptr + 2] == GT_CHAR {
            return Invalid(ptr + 2);
          }
          ptr := ptr + 1;
        } else if c in {AMP, LT, CR, LF} {
          return Tok(DataChars, ptr);
        } else {
          ptr := ptr + 1;
        }
    }
    r := Tok(DataChars, ptr);
  }

  /** cdataSectionTok */
  method NextCdataTok(enc: Enc, s: Text, start: nat, end: nat) returns (r: Result)
    requires start <= end <= |s|
    ensures r == CdataTok(enc, s, start, end)
  {
    hide TestChar, CdataTail, ByteType;
    if start == end {
      return NoTok;
    }
    var ptr := start;
    var c := ByteType(enc, s[ptr]);
    if c == RSQB {
      ptr := ptr + 1;
      if ptr == end {
        return Partial;
      }
      if s[ptr] == RSQB_CHAR {
        ptr := ptr + 1;
        if ptr == end {
          return Partial;
        }
        if s[ptr] == GT_CHAR {
          return Tok(CdataClose, ptr + 1);
        }
        ptr := ptr - 1;
      }
    } else if c == CR {
      ptr := ptr + 1;
      if ptr == end {
        return Partial;
      }
      if ByteType(enc, s[ptr]) == LF {
        ptr := ptr + 1;
      }
      return Tok(DataNewline, ptr);
    } else if c == LF {
      return Tok(DataNewline, ptr + 1);
    } else {
      match TestChar(enc, DataChar, s, ptr, end)
      case Fits(n) => ptr := ptr + n;
      case CutOff => return PartialChar;
      case Refused => return Invalid(ptr);
      case NotCovered => ptr := ptr + 1;
    }
    ptr := CdataData(enc, s, ptr, end);
    r := Tok(DataChars, ptr);
  }

  /** The second loop of cdataSectionTok. */
  method CdataData(enc: Enc, s: Text, start: nat, end: nat) returns (ptr: nat)
    requires start <= end <= |s|
    ensures ptr == CdataTail(enc, s, start, end)
  {
    hide TestChar, ByteType;
    ptr := start;
    while ptr != end
      invariant start <= ptr <= end
      invariant CdataTail(enc, s, ptr, end) == CdataTail(enc, s, start, end)
    {
      match TestChar(enc, DataChar, s, ptr, end)
      case Fits(n) => ptr := ptr + n;
      case CutOff => return;
      case Refused => return;
      case NotCovered =>
        if ByteType(enc, s[ptr]) in {CR, LF, RSQB} {
          return;
        }
        ptr := ptr + 1;
    }
  }
}
