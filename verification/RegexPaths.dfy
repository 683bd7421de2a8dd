/** Paths through compiled code. `Inside' says what has been matched when control is at a byte of the code, and every
    move the code allows keeps it: so a path from the first byte to the end spells a member of the language. */
module RegexPaths {
  import opened RegexTree
  import opened RegexCode

  /** The size limits the compiler keeps: a literal run and a bitmap each have a one-byte count. */
  predicate Sized(r: Re) {
    match r
    case Exact(ts) => 1 <= |ts| <= 255
    case CharSet(_, bits) => |bits| <= 32
    case Cat(a, b) => Sized(a) && Sized(b)
    case Alt(pre, last) => Sized(pre) && Sized(last)
    case Group(_, _, body) => Sized(body)
    case ZeroOrMore(body, _) => Sized(body)
    case OneOrMore(body, _) => Sized(body)
    case Optional(body, _) => Sized(body)
    case DotLine(body) => Sized(body)
    case _ => true
  }

  /** Control can be at code[pc] after matching text[i..j], for a tree laid out at `base' and entered at i. */
  ghost predicate Inside(g: Input, r: Re, base: nat, pc: int, i: nat, j: nat)
    decreases r, 1
  {
    && base <= pc <= base + Len(r)
    && i <= j <= |g.text|
    && match r
       case Empty => i == j
       case Ignored(_) => i == j
       case Dummy => i == j
       case Exact(_) => InLeaf(g, r, base, pc, i, j)
       case AnyChar => InLeaf(g, r, base, pc, i, j)
       case CharSet(_, _) => InLeaf(g, r, base, pc, i, j)
       case Cat(a, b) => InCat(g, a, b, base, pc, i, j)
       case Alt(pre, last) => InAlt(g, pre, last, base, pc, i, j)
       case Group(reg, _, body) => InGroup(g, reg, body, base, pc, i, j)
       case ZeroOrMore(body, _) =>
         if pc == base || pc == base + 6 + Len(body) then Repeats(g, body, i, j)
           else InBody(g, body, base + 3, pc, i, j)
       case OneOrMore(body, ops) =>
         if pc == base then i == j
         else if pc == base + 3 || pc == base + 9 + Len(body) then Matches(g, r, i, j)
         else InBody(g, body, base + 6, pc, i, j)
       case Optional(body, _) =>
         if pc == base then i == j
         else base + 3 <= pc && (Inside(g, body, base + 3, pc, i, j) || (pc == base + 3 + Len(body) && i == j))
       case DotLine(body) =>
         if pc == base || pc == base + 6 + Len(body) then Repeats(g, body, i, j)
           else InBody(g, body, base + 3, pc, i, j)
  }

  ghost predicate InLeaf(g: Input, r: Re, base: nat, pc: int, i: nat, j: nat) {
    if pc == base then i == j else pc == base + Len(r) && Matches(g, r, i, j)
  }

  ghost predicate InCat(g: Input, a: Re, b: Re, base: nat, pc: int, i: nat, j: nat)
    decreases Cat(a, b), 0
  {
    if pc < base + Len(a) then Inside(g, a, base, pc, i, j) else InSecond(g, a, b, base + Len(a), pc, i, j)
  }

  ghost predicate InSecond(g: Input, a: Re, b: Re, base: nat, pc: int, i: nat, j: nat)
    decreases b, 2
  {
    exists k: nat | i <= k <= j :: Matches(g, a, i, k) && Inside(g, b, base, pc, k, j)
  }

  ghost predicate InAlt(g: Input, pre: Re, last: Re, base: nat, pc: int, i: nat, j: nat)
    decreases Alt(pre, last), 0
  {
    if pc < base + PreLen(pre) then InPre(g, pre, base, pc, i, j)
    else
      || Inside(g, last, base + PreLen(pre), pc, i, j)
      || (pc == base + PreLen(pre) + Len(last) && Matches(g, pre, i, j))
  }

  ghost predicate InGroup(g: Input, reg: nat, body: Re, base: nat, pc: int, i: nat, j: nat)
    decreases body, 2
  {
    var m := base + MemoryLen(reg);
    if pc < m then pc == base && i == j
    else if pc <= m + Len(body) then Inside(g, body, m, pc, i, j)
    else
      && (pc == m + Len(body) + DummyLen(body) || pc == m + Len(body) + DummyLen(body) + MemoryLen(reg))
      && Matches(g, body, i, j)
  }

  /** The body of a loop, entered any number of times before. */
  ghost predicate InBody(g: Input, body: Re, base: nat, pc: int, i: nat, j: nat)
    decreases body, 2
  {
    && base <= pc <= base + Len(body)
    && exists k: nat | i <= k <= j :: Repeats(g, body, i, k) && Inside(g, body, base, pc, k, j)
  }

  /** Leading alternatives, up to and including the jump past the others. */
  ghost predicate InPre(g: Input, l: Re, base: nat, pc: int, i: nat, j: nat)
    decreases l, 2
  {
    && base <= pc
    && i <= j <= |g.text|
    && if l.Alt? then
         var m := base + PreLen(l.pre);
         if pc < m then InPre(g, l.pre, base, pc, i, j)
         else if pc < m + 3 then pc == m && i == j
         else
           && pc <= m + 3 + Len(l.last)
           && (Inside(g, l.last, m + 3, pc, i, j) || (pc == m + 3 + Len(l.last) && Matches(g, l.pre, i, j)))
       else if pc < base + 3 then pc == base && i == j
       else pc <= base + 3 + Len(l) && Inside(g, l, base + 3, pc, i, j)
  }

  lemma InsideCat(g: Input, a: Re, b: Re, base: nat, pc: int, i: nat, j: nat)
    ensures Inside(g, Cat(a, b), base, pc, i, j) <==>
      base <= pc <= base + Len(a) + Len(b) && i <= j <= |g.text| && InCat(g, a, b, base, pc, i, j)
  {
  }

  lemma InsideAlt(g: Input, pre: Re, last: Re, base: nat, pc: int, i: nat, j: nat)
    ensures Inside(g, Alt(pre, last), base, pc, i, j) <==>
      base <= pc <= base + PreLen(pre) + Len(last) && i <= j <= |g.text| && InAlt(g, pre, last, base, pc, i, j)
  {
  }

  lemma InsideGroup(g: Input, reg: nat, inner: nat, body: Re, base: nat, pc: int, i: nat, j: nat)
    ensures Inside(g, Group(reg, inner, body), base, pc, i, j) <==>
      && base <= pc <= base + 2 * MemoryLen(reg) + Len(body) + DummyLen(body) && i <= j <= |g.text|
      && InGroup(g, reg, body, base, pc, i, j)
  {
  }

  lemma InsideBounds(g: Input, r: Re, base: nat, pc: int, i: nat, j: nat)
    requires Inside(g, r, base, pc, i, j)
    ensures base <= pc <= base + Len(r) && i <= j <= |g.text|
  {
  }

  lemma SecondIntro(g: Input, a: Re, b: Re, base: nat, pc: int, i: nat, k: nat, j: nat)
    requires i <= k <= j && Matches(g, a, i, k) && Inside(g, b, base, pc, k, j)
    ensures InSecond(g, a, b, base, pc, i, j)
  {
  }

  lemma SecondElim(g: Input, a: Re, b: Re, base: nat, pc: int, i: nat, j: nat) returns (k: nat)
    requires InSecond(g, a, b, base, pc, i, j)
    ensures i <= k <= j && Matches(g, a, i, k) && Inside(g, b, base, pc, k, j)
  {
    k :| i <= k <= j && Matches(g, a, i, k) && Inside(g, b, base, pc, k, j);
  }

  lemma BodyIntro(g: Input, body: Re, base: nat, pc: int, i: nat, k: nat, j: nat)
    requires i <= k <= j && Repeats(g, body, i, k) && Inside(g, body, base, pc, k, j)
    ensures InBody(g, body, base, pc, i, j)
  {
    InsideBounds(g, body, base, pc, k, j);
  }

  lemma BodyElim(g: Input, body: Re, base: nat, pc: int, i: nat, j: nat) returns (k: nat)
    requires InBody(g, body, base, pc, i, j)
    ensures i <= k <= j && Repeats(g, body, i, k) && Inside(g, body, base, pc, k, j)
  {
    k :| i <= k <= j && Repeats(g, body, i, k) && Inside(g, body, base, pc, k, j);
  }

  /** Every tree can be entered. */
  lemma {:induction false} InsideStart(g: Input, r: Re, base: nat, i: nat)
    requires i <= |g.text|
    ensures Inside(g, r, base, base, i, i)
    decreases r, 1
  {
    match r
    case Cat(a, b) => CatStart(g, a, b, base, i);
    case Alt(pre, last) => PreStart(g, pre, base, i);
    case Group(reg, _, body) => if reg > MAX_REGNUM { InsideStart(g, body, base, i); }
    case _ =>
  }

  lemma {:induction false} CatStart(g: Input, a: Re, b: Re, base: nat, i: nat)
    requires i <= |g.text|
    ensures Inside(g, Cat(a, b), base, base, i, i)
    decreases Cat(a, b), 0
  {
    hide Inside, Matches, Len, InSecond;
    InsideStart(g, a, base, i);
    InsideCat(g, a, b, base, base, i, i);
    if Len(a) == 0 {
      InsideEnd(g, a, base, i, i);
      InsideStart(g, b, base + Len(a), i);
      SecondIntro(g, a, b, base + Len(a), base, i, i, i);
    }
  }

  lemma {:induction false} PreStart(g: Input, l: Re, base: nat, i: nat)
    requires i <= |g.text|
    ensures InPre(g, l, base, base, i, i)
    decreases l, 2
  {
    if l.Alt? { PreStart(g, l.pre, base, i); }
  }

  /** Control that has reached the end of a tree's code has matched a member of its language. */
  lemma {:induction false} InsideEnd(g: Input, r: Re, base: nat, i: nat, j: nat)
    requires Inside(g, r, base, base + Len(r), i, j)
    ensures Matches(g, r, i, j)
    decreases r, 1
  {
    hide Inside, Len, Matches;
    match r
    case Cat(a, b) => {
      LenCat(a, b);
      CatEnd(g, a, b, base, i, j);
    }
    case Alt(pre, last) => {
      LenAlt(pre, last);
      AltEnd(g, pre, last, base, i, j);
    }
    case Group(reg, inner, body) => {
      LenGroup(reg, inner, body);
      GroupEnd(g, reg, inner, body, base, i, j);
      MatchesGroup(g, reg, inner, body, i, j);
    }
    case Optional(body, ops) => {
      OptionalEnd(g, body, ops, base, i, j);
      if i != j { InsideEnd(g, body, base + 3, i, j); }
      MatchesOptional(g, body, ops, i, j);
    }
    case _ => LeafEnd(g, r, base, i, j);
  }

  lemma {:induction false} LenCat(a: Re, b: Re)
    ensures Len(Cat(a, b)) == Len(a) + Len(b)
  {
  }

  lemma {:induction false} LenAlt(pre: Re, last: Re)
    ensures Len(Alt(pre, last)) == PreLen(pre) + Len(last)
  {
    hide PreLen;
  }

  lemma {:induction false} LenGroup(reg: nat, inner: nat, body: Re)
    ensures Len(Group(reg, inner, body)) == 2 * MemoryLen(reg) + Len(body) + DummyLen(body)
  {
  }

  lemma {:induction false} LenOptional(body: Re, ops: seq<Token>)
    ensures Len(Optional(body, ops)) == 3 + Len(body)
  {
  }

  lemma LenAnyChar()
    ensures Len(AnyChar) == 1
  {
  }

  lemma {:induction false} MatchesGroup(g: Input, reg: nat, inner: nat, body: Re, i: nat, j: nat)
    ensures Matches(g, Group(reg, inner, body), i, j) <==> Matches(g, body, i, j)
  {
  }

  lemma {:induction false} MatchesOptional(g: Input, body: Re, ops: seq<Token>, i: nat, j: nat)
    ensures Matches(g, Optional(body, ops), i, j) <==> i <= j <= |g.text| && (i == j || Matches(g, body, i, j))
  {
  }

  lemma {:induction false} OptionalEnd(g: Input, body: Re, ops: seq<Token>, base: nat, i: nat, j: nat)
    requires Inside(g, Optional(body, ops), base, base + Len(Optional(body, ops)), i, j)
    ensures i <= j <= |g.text| && (i != j ==> Inside(g, body, base + 3, base + 3 + Len(body), i, j))
  {
  }

  lemma {:induction false} LeafEnd(g: Input, r: Re, base: nat, i: nat, j: nat)
    requires !r.Cat? && !r.Alt? && !r.Group? && !r.Optional?
    requires Inside(g, r, base, base + Len(r), i, j)
    ensures Matches(g, r, i, j)
  {
    hide InBody, Repeats;
  }

  lemma {:induction false} CatEnd(g: Input, a: Re, b: Re, base: nat, i: nat, j: nat)
    requires Inside(g, Cat(a, b), base, base + Len(a) + Len(b), i, j)
    ensures Matches(g, Cat(a, b), i, j)
    decreases Cat(a, b), 0
  {
    hide Inside, Matches, Len, InSecond;
    InsideCat(g, a, b, base, base + Len(a) + Len(b), i, j);
    var k := SecondElim(g, a, b, base + Len(a), base + Len(a) + Len(b), i, j);
    InsideEnd(g, b, base + Len(a), k, j);
    MatchesCat(g, a, b, i, k, j);
  }

  lemma {:induction false} MatchesAlt(g: Input, pre: Re, last: Re, i: nat, j: nat)
    ensures Matches(g, Alt(pre, last), i, j) <==> Matches(g, pre, i, j) || Matches(g, last, i, j)
  {
  }

  lemma {:induction false} AltEnd(g: Input, pre: Re, last: Re, base: nat, i: nat, j: nat)
    requires Inside(g, Alt(pre, last), base, base + PreLen(pre) + Len(last), i, j)
    ensures Matches(g, Alt(pre, last), i, j)
    decreases Alt(pre, last), 0
  {
    hide Inside, Matches, Len, PreLen;
    InsideAlt(g, pre, last, base, base + PreLen(pre) + Len(last), i, j);
    MatchesAlt(g, pre, last, i, j);
    if !Matches(g, pre, i, j) { InsideEnd(g, last, base + PreLen(pre), i, j); }
  }

  lemma {:induction false} GroupEnd(g: Input, reg: nat, inner: nat, body: Re, base: nat, i: nat, j: nat)
    requires Inside(g, Group(reg, inner, body), base, base + 2 * MemoryLen(reg) + Len(body) + DummyLen(body), i, j)
    ensures Matches(g, body, i, j)
    decreases body, 2
  {
    hide Inside, Matches, Len;
    InsideGroup(g, reg, inner, body, base, base + 2 * MemoryLen(reg) + Len(body) + DummyLen(body), i, j);
    if MemoryLen(reg) + DummyLen(body) == 0 { InsideEnd(g, body, base, i, j); }
  }

  lemma {:induction false} PreEnd(g: Input, l: Re, base: nat, i: nat, j: nat)
    requires InPre(g, l, base, base + PreLen(l) - 3, i, j)
    ensures Matches(g, l, i, j)
    decreases l, 2
  {
    hide Inside, Matches, Len, InPre, PreLen;
    if l.Alt? {
      PreLenOfAlt(l.pre, l.last);
      PreLenBound(l.pre);
      InPreAlt(g, l.pre, l.last, base, base + PreLen(l) - 3, i, j);
      MatchesAlt(g, l.pre, l.last, i, j);
      var m := base + PreLen(l.pre);
      if !Matches(g, l.pre, i, j) { InsideEnd(g, l.last, m + 3, i, j); }
    } else {
      InPreBranch(g, l, base, base + PreLen(l) - 3, i, j);
      if InPre(g, l, base, base + PreLen(l) - 3, i, j) { InsideEnd(g, l, base + 3, i, j); }
    }
  }

  // ---------- Moves ----------

  /** One move of control: the opcode at pc, with d characters of the text already used, allows pc2 and d2 next. */
  ghost predicate Move(g: Input, code: seq<Byte>, pc: int, d: nat, pc2: int, d2: nat) {
    && Next(code, pc, pc2)
    && d <= d2 <= |g.text|
    && var op := code[pc];
       if op == EXACTN then pc2 <= |code| && d2 == d + (pc2 - pc - 2) && g.text[d..d2] == code[pc + 2..pc2]
       else if op == ANYCHAR then d2 == d + 1 && DotAccepts(g.syn, g.text[d])
       else if op == CHARSET || op == CHARSET_NOT then
         d2 == d + 1 && SetAccepts(op == CHARSET_NOT, BitmapAt(code, pc), g.text[d])
       else d2 == d
  }

  lemma LaidExact(code: seq<Byte>, base: nat, ts: seq<Token>)
    requires Laid(code, base, Exact(ts)) && 1 <= |ts| <= 255
    ensures code[base] == EXACTN && Get(code, base + 1) == |ts| && base + 2 + |ts| <= |code|
    ensures forall k :: 0 <= k < |ts| ==> Get(code, base + 2 + k) == CharOf(ts[k])
  {
    var c := Code(Exact(ts));
    assert c == [EXACTN, |ts|] + Chars(ts);
    assert c[0] == code[base + 0] && c[1] == code[base + 1];
    forall k | 0 <= k < |ts| ensures Get(code, base + 2 + k) == CharOf(ts[k]) {
      assert c[2 + k] == code[base + (2 + k)];
    }
  }

  lemma LaidSet(code: seq<Byte>, base: nat, negated: bool, bits: seq<Byte>)
    requires Laid(code, base, CharSet(negated, bits)) && |bits| <= 32
    ensures base + 2 + |bits| <= |code|
    ensures code[base] == (if negated then CHARSET_NOT else CHARSET) && Get(code, base + 1) == |bits|
    ensures BitmapAt(code, base) == bits
  {
    var c := Code(CharSet(negated, bits));
    assert c == [if negated then CHARSET_NOT else CHARSET, |bits|] + bits;
    assert c[0] == code[base + 0] && c[1] == code[base + 1];
    forall k | 0 <= k < |bits| ensures code[base + 2..base + 2 + |bits|][k] == bits[k] {
      assert c[2 + k] == code[base + (2 + k)];
    }
    assert code[base + 2..base + 2 + |bits|] == bits;
  }

  lemma LaidByte(code: seq<Byte>, base: nat, r: Re)
    requires Laid(code, base, r) && (r.AnyChar? || r.Dummy?)
    ensures base < |code| && code[base] == if r.AnyChar? then ANYCHAR else PUSH_DUMMY_FAILURE
  {
    assert Code(r)[0] == code[base + 0];
  }

  lemma MemoryBytes(code: seq<Byte>, base: nat, op: Byte, reg: nat, inner: nat)
    requires At(code, base, MemoryCode(op, reg, inner)) && reg <= MAX_REGNUM
    ensures base + 3 <= |code| && code[base] == op && code[base + 1] == reg && code[base + 2] == inner % 256
  {
    var c := MemoryCode(op, reg, inner);
    assert c[0] == code[base + 0] && c[1] == code[base + 1] && c[2] == code[base + 2];
  }

  lemma JumpByte(code: seq<Byte>, k: nat, op: Byte, offset: int)
    requires JumpAt(code, k, op, offset) && 0 <= k + 3 + offset <= |code| < MAX_OFFSET_CODE
    ensures code[k] == op && Target(code, k) == k + 3 + offset
  {
    JumpTarget(code, k, op, offset);
    assert JumpCode(op, offset)[0] == code[k + 0];
  }

  // ---------- Every move stays inside ----------

  lemma {:induction false} MoveInside(g: Input, code: seq<Byte>, r: Re, base: nat, pc: int, i: nat, d: nat, pc2: int,
          d2: nat)
    requires Laid(code, base, r) && Sized(r) && |code| < MAX_OFFSET_CODE
    requires Inside(g, r, base, pc, i, d) && pc < base + Len(r) && Move(g, code, pc, d, pc2, d2)
    ensures Inside(g, r, base, pc2, i, d2)
    decreases r, 1
  {
    match r
    case Dummy => LaidByte(code, base, r);
    case AnyChar => LaidByte(code, base, r);
    case Exact(ts) => MoveExact(g, code, ts, base, i, d, pc2, d2);
    case CharSet(negated, bits) => LaidSet(code, base, negated, bits);
    case Cat(a, b) => MoveCat(g, code, a, b, base, pc, i, d, pc2, d2);
    case Alt(pre, last) => MoveAlt(g, code, pre, last, base, pc, i, d, pc2, d2);
    case Group(reg, inner, body) => MoveGroup(g, code, reg, inner, body, base, pc, i, d, pc2, d2);
    case ZeroOrMore(body, ops) => MoveZeroOrMore(g, code, body, ops, base, pc, i, d, pc2, d2);
    case OneOrMore(body, ops) => MoveOneOrMore(g, code, body, ops, base, pc, i, d, pc2, d2);
    case Optional(body, ops) => MoveOptional(g, code, body, ops, base, pc, i, d, pc2, d2);
    case DotLine(body) => MoveDotLine(g, code, body, base, pc, i, d, pc2, d2);
    case _ =>
  }

  lemma MoveExact(g: Input, code: seq<Byte>, ts: seq<Token>, base: nat, i: nat, d: nat, pc2: int, d2: nat)
    requires Laid(code, base, Exact(ts)) && 1 <= |ts| <= 255
    requires i == d && Move(g, code, base, d, pc2, d2)
    ensures Inside(g, Exact(ts), base, pc2, i, d2)
  {
    LaidExact(code, base, ts);
    forall k | 0 <= k < |ts| ensures g.text[d + k] == CharOf(ts[k]) {
      assert g.text[d..d2][k] == code[base + 2..pc2][k];
      assert Get(code, base + 2 + k) == CharOf(ts[k]);
    }
    assert Matches(g, Exact(ts), i, d2);
  }

  lemma {:induction false} MoveCat(g: Input, code: seq<Byte>, a: Re, b: Re, base: nat, pc: int, i: nat, d: nat,
          pc2: int, d2: nat)
    requires Laid(code, base, Cat(a, b)) && Sized(a) && Sized(b) && |code| < MAX_OFFSET_CODE
    requires Inside(g, Cat(a, b), base, pc, i, d) && pc < base + Len(a) + Len(b) && Move(g, code, pc, d, pc2, d2)
    ensures Inside(g, Cat(a, b), base, pc2, i, d2)
    decreases Cat(a, b), 0
  {
    var mid := base + Len(a);
    hide Inside, Matches, Len, InSecond, Laid, Move, Sized;
    LaidCat(code, base, a, b);
    InsideCat(g, a, b, base, pc, i, d);
    InsideCat(g, a, b, base, pc2, i, d2);
    if pc < mid {
      MoveInside(g, code, a, base, pc, i, d, pc2, d2);
      InsideBounds(g, a, base, pc2, i, d2);
      if pc2 == mid {
        InsideEnd(g, a, base, i, d2);
        InsideStart(g, b, mid, d2);
        SecondIntro(g, a, b, mid, pc2, i, d2, d2);
      }
    } else {
      var k := SecondElim(g, a, b, mid, pc, i, d);
      MoveInside(g, code, b, mid, pc, k, d, pc2, d2);
      InsideBounds(g, b, mid, pc2, k, d2);
      SecondIntro(g, a, b, mid, pc2, i, k, d2);
    }
  }

  /** Along a jump or a fork no text is used. */
  lemma JumpMove(g: Input, code: seq<Byte>, pc: int, d: nat, pc2: int, d2: nat, op: Byte, offset: int)
    requires pc >= 0 && JumpAt(code, pc, op, offset) && 0 <= pc + 3 + offset <= |code| < MAX_OFFSET_CODE
    requires IsPlainJump(op) || IsFork(op)
    requires Move(g, code, pc, d, pc2, d2)
    ensures d2 == d <= |g.text|
    ensures pc2 == pc + 3 + offset || (IsFork(op) && pc2 == pc + 3) || (op == JUMP && pc2 == pc + offset)
  {
    JumpByte(code, pc, op, offset);
  }

  lemma {:induction false} MoveBody(g: Input, code: seq<Byte>, body: Re, base: nat, pc: int, i: nat, d: nat, pc2: int,
          d2: nat)
    requires Laid(code, base, body) && Sized(body) && |code| < MAX_OFFSET_CODE
    requires InBody(g, body, base, pc, i, d) && pc < base + Len(body) && Move(g, code, pc, d, pc2, d2)
    ensures InBody(g, body, base, pc2, i, d2) && i <= d2 <= |g.text| && base <= pc2 <= base + Len(body)
    decreases body, 2
  {
    hide Inside, Matches, Repeats, Len, InBody, Laid;
    var k := BodyElim(g, body, base, pc, i, d);
    MoveInside(g, code, body, base, pc, k, d, pc2, d2);
    InsideBounds(g, body, base, pc2, k, d2);
    BodyIntro(g, body, base, pc2, i, k, d2);
  }

  lemma BodyBounds(g: Input, body: Re, base: nat, pc: int, i: nat, j: nat)
    requires InBody(g, body, base, pc, i, j)
    ensures base <= pc <= base + Len(body)
  {
  }

  lemma BodyStart(g: Input, body: Re, base: nat, i: nat, d: nat)
    requires Repeats(g, body, i, d)
    ensures InBody(g, body, base, base, i, d)
  {
    hide Inside, Matches, InBody;
    InsideStart(g, body, base, d);
    BodyIntro(g, body, base, base, i, d, d);
  }

  lemma BodyEnd(g: Input, body: Re, base: nat, i: nat, d: nat)
    requires InBody(g, body, base, base + Len(body), i, d)
    ensures Repeats(g, body, i, d)
  {
    hide Inside, Matches, InBody, Len;
    var k := BodyElim(g, body, base, base + Len(body), i, d);
    InsideEnd(g, body, base, k, d);
    RepeatsSnoc(g, body, i, k, d);
  }

  lemma {:induction false} MoveZeroOrMore(g: Input, code: seq<Byte>, body: Re, ops: seq<Token>, base: nat, pc: int,
          i: nat, d: nat, pc2: int, d2: nat)
    requires Laid(code, base, ZeroOrMore(body, ops)) && Sized(body) && |code| < MAX_OFFSET_CODE
    requires Inside(g, ZeroOrMore(body, ops), base, pc, i, d) && pc < base + 6 + Len(body)
    requires Move(g, code, pc, d, pc2, d2)
    ensures Inside(g, ZeroOrMore(body, ops), base, pc2, i, d2)
    decreases body, 3
  {
    InsideZeroOrMore(g, body, ops, base, pc, i, d);
    InsideZeroOrMore(g, body, ops, base, pc2, i, d2);
    hide Inside, Matches, Repeats, Len, InBody, Laid, Move, JumpAt;
    LaidZeroOrMore(code, base, body, ops);
    var back := base + 3 + Len(body);
    if pc == base {
      JumpMove(g, code, pc, d, pc2, d2, ON_FAILURE_JUMP, Len(body) + 3);
      BodyStart(g, body, base + 3, i, d);
    } else if pc < back {
      MoveBody(g, code, body, base + 3, pc, i, d, pc2, d2);
    } else {
      BodyBounds(g, body, base + 3, pc, i, d);
      BodyEnd(g, body, base + 3, i, d);
      JumpMove(g, code, pc, d, pc2, d2, MAYBE_POP_JUMP, -(Len(body) + 6));
    }
  }

  lemma InsideZeroOrMore(g: Input, body: Re, ops: seq<Token>, base: nat, pc: int, i: nat, j: nat)
    ensures Inside(g, ZeroOrMore(body, ops), base, pc, i, j) <==>
      && base <= pc <= base + 6 + Len(body) && i <= j <= |g.text|
      && if pc == base || pc == base + 6 + Len(body) then Repeats(g, body, i, j)
         else InBody(g, body, base + 3, pc, i, j)
  {
  }

  lemma {:induction false} MoveOneOrMore(g: Input, code: seq<Byte>, body: Re, ops: seq<Token>, base: nat, pc: int,
          i: nat, d: nat, pc2: int, d2: nat)
    requires Laid(code, base, OneOrMore(body, ops)) && Sized(body) && |code| < MAX_OFFSET_CODE
    requires Inside(g, OneOrMore(body, ops), base, pc, i, d) && pc < base + 9 + Len(body)
    requires Move(g, code, pc, d, pc2, d2)
    ensures Inside(g, OneOrMore(body, ops), base, pc2, i, d2)
    decreases body, 3
  {
    InsideOneOrMore(g, body, ops, base, pc, i, d);
    InsideOneOrMore(g, body, ops, base, pc2, i, d2);
    hide Inside, Matches, Repeats, Len, InBody, Laid, Move, JumpAt;
    LaidOneOrMore(code, base, body, ops);
    var back := base + 6 + Len(body);
    if pc == base {
      JumpMove(g, code, pc, d, pc2, d2, DUMMY_FAILURE_JUMP, 3);
      RepeatsNone(g, body, i);
      BodyStart(g, body, base + 6, i, d);
    } else if pc == base + 3 {
      JumpMove(g, code, pc, d, pc2, d2, ON_FAILURE_JUMP, Len(body) + 3);
      var k := OneOrMoreSplit(g, body, ops, i, d);
      RepeatsSnoc(g, body, i, k, d);
      BodyStart(g, body, base + 6, i, d);
    } else if pc < back {
      MoveBody(g, code, body, base + 6, pc, i, d, pc2, d2);
    } else {
      BodyBounds(g, body, base + 6, pc, i, d);
      var k := BodyElim(g, body, base + 6, back, i, d);
      InsideEnd(g, body, base + 6, k, d);
      InsideBounds(g, body, base + 6, back, k, d);
      MatchesOneOrMore(g, body, ops, i, k, d);
      JumpMove(g, code, pc, d, pc2, d2, MAYBE_POP_JUMP, -(Len(body) + 6));
    }
  }

  lemma RepeatsNone(g: Input, body: Re, i: nat)
    requires i <= |g.text|
    ensures Repeats(g, body, i, i)
  {
  }

  lemma InsideOneOrMore(g: Input, body: Re, ops: seq<Token>, base: nat, pc: int, i: nat, j: nat)
    ensures Inside(g, OneOrMore(body, ops), base, pc, i, j) <==>
      && base <= pc <= base + 9 + Len(body) && i <= j <= |g.text|
      && if pc == base then i == j
         else if pc == base + 3 || pc == base + 9 + Len(body) then Matches(g, OneOrMore(body, ops), i, j)
         else InBody(g, body, base + 6, pc, i, j)
  {
  }

  lemma {:induction false} MoveDotLine(g: Input, code: seq<Byte>, body: Re, base: nat, pc: int, i: nat, d: nat,
          pc2: int, d2: nat)
    requires Laid(code, base, DotLine(body)) && Sized(body) && |code| < MAX_OFFSET_CODE
    requires Inside(g, DotLine(body), base, pc, i, d) && pc < base + 6 + Len(body)
    requires Move(g, code, pc, d, pc2, d2)
    ensures Inside(g, DotLine(body), base, pc2, i, d2)
    decreases body, 3
  {
    InsideDotLine(g, body, base, pc, i, d);
    InsideDotLine(g, body, base, pc2, i, d2);
    hide Inside, Matches, Repeats, Len, InBody, Laid, Move, JumpAt;
    LaidDotLine(code, base, body);
    if pc == base {
      JumpMove(g, code, pc, d, pc2, d2, ON_FAILURE_KEEP_STRING_JUMP, Len(body) + 3);
      BodyStart(g, body, base + 3, i, d);
    } else if pc < base + 3 + Len(body) {
      MoveBody(g, code, body, base + 3, pc, i, d, pc2, d2);
    } else {
      BodyBounds(g, body, base + 3, pc, i, d);
      BodyEnd(g, body, base + 3, i, d);
      JumpMove(g, code, pc, d, pc2, d2, JUMP, -(Len(body) + 3));
      BodyStart(g, body, base + 3, i, d);
    }
  }

  lemma InsideDotLine(g: Input, body: Re, base: nat, pc: int, i: nat, j: nat)
    ensures Inside(g, DotLine(body), base, pc, i, j) <==>
      && base <= pc <= base + 6 + Len(body) && i <= j <= |g.text|
      && if pc == base || pc == base + 6 + Len(body) then Repeats(g, body, i, j)
         else InBody(g, body, base + 3, pc, i, j)
  {
  }

  lemma {:induction false} MoveOptional(g: Input, code: seq<Byte>, body: Re, ops: seq<Token>, base: nat, pc: int,
          i: nat, d: nat, pc2: int, d2: nat)
    requires Laid(code, base, Optional(body, ops)) && Sized(body) && |code| < MAX_OFFSET_CODE
    requires Inside(g, Optional(body, ops), base, pc, i, d) && pc < base + 3 + Len(body)
    requires Move(g, code, pc, d, pc2, d2)
    ensures Inside(g, Optional(body, ops), base, pc2, i, d2)
    decreases body, 3
  {
    InsideOptional(g, body, ops, base, pc, i, d);
    InsideOptional(g, body, ops, base, pc2, i, d2);
    hide Inside, Matches, Len, Laid, Move, JumpAt;
    LaidOptional(code, base, body, ops);
    if pc == base {
      JumpMove(g, code, pc, d, pc2, d2, ON_FAILURE_JUMP, Len(body));
      InsideStart(g, body, base + 3, d);
    } else {
      MoveInside(g, code, body, base + 3, pc, i, d, pc2, d2);
      InsideBounds(g, body, base + 3, pc2, i, d2);
    }
  }

  lemma InsideOptional(g: Input, body: Re, ops: seq<Token>, base: nat, pc: int, i: nat, j: nat)
    ensures Inside(g, Optional(body, ops), base, pc, i, j) <==>
      && base <= pc <= base + 3 + Len(body) && i <= j <= |g.text|
      && if pc == base then i == j
         else base + 3 <= pc && (Inside(g, body, base + 3, pc, i, j) || (pc == base + 3 + Len(body) && i == j))
  {
  }

  lemma {:induction false} MoveGroup(g: Input, code: seq<Byte>, reg: nat, inner: nat, body: Re, base: nat, pc: int,
          i: nat, d: nat, pc2: int, d2: nat)
    requires Laid(code, base, Group(reg, inner, body)) && Sized(body) && |code| < MAX_OFFSET_CODE
    requires Inside(g, Group(reg, inner, body), base, pc, i, d)
    requires pc < base + 2 * MemoryLen(reg) + Len(body) + DummyLen(body)
    requires Move(g, code, pc, d, pc2, d2)
    ensures Inside(g, Group(reg, inner, body), base, pc2, i, d2)
    decreases body, 3
  {
    InsideGroup(g, reg, inner, body, base, pc, i, d);
    InsideGroup(g, reg, inner, body, base, pc2, i, d2);
    hide Inside, Matches, Len, Laid, MemoryCode;
    LaidGroup(code, base, reg, inner, body);
    var m := base + MemoryLen(reg);
    var stop := m + Len(body) + DummyLen(body);
    if pc < m {
      MemoryBytes(code, base, START_MEMORY, reg, inner);
      InsideStart(g, body, m, d);
    } else if pc < m + Len(body) {
      MoveInside(g, code, body, m, pc, i, d, pc2, d2);
      InsideBounds(g, body, m, pc2, i, d2);
    } else {
      if pc == m + Len(body) { InsideEnd(g, body, m, i, d); }
      if pc < stop {
        assert [PUSH_DUMMY_FAILURE][0] == code[pc + 0];
      } else {
        MemoryBytes(code, stop, STOP_MEMORY, reg, inner);
      }
    }
  }

  lemma {:induction false} MoveAlt(g: Input, code: seq<Byte>, pre: Re, last: Re, base: nat, pc: int, i: nat, d: nat,
          pc2: int, d2: nat)
    requires Laid(code, base, Alt(pre, last)) && Sized(pre) && Sized(last) && |code| < MAX_OFFSET_CODE
    requires Inside(g, Alt(pre, last), base, pc, i, d) && pc < base + PreLen(pre) + Len(last)
    requires Move(g, code, pc, d, pc2, d2)
    ensures Inside(g, Alt(pre, last), base, pc2, i, d2)
    decreases Alt(pre, last), 0
  {
    hide Inside, InPre, Matches, Len, PreLen, Laid, Move, JumpAt, Sized;
    LaidAlt(code, base, pre, last);
    InsideAlt(g, pre, last, base, pc, i, d);
    InsideAlt(g, pre, last, base, pc2, i, d2);
    var mid := base + PreLen(pre);
    PreLenBound(pre);
    if pc < mid {
      PreBounds(g, pre, base, pc, i, d);
      if pc < mid - 3 {
        MovePre(g, code, pre, base, pc, i, d, pc2, d2);
        if InPre(g, pre, base, pc2, i, d2) {
          PreBounds(g, pre, base, pc2, i, d2);
        } else {
          InsideStart(g, last, mid, d2);
        }
      } else {
        PreEnd(g, pre, base, i, d);
        JumpMove(g, code, pc, d, pc2, d2, JUMP_PAST_ALT, Len(last));
      }
    } else {
      MoveInside(g, code, last, mid, pc, i, d, pc2, d2);
      InsideBounds(g, last, mid, pc2, i, d2);
    }
  }

  lemma {:induction false} PreLenOfAlt(pre: Re, last: Re)
    ensures PreLen(Alt(pre, last)) == PreLen(pre) + 6 + Len(last)
  {
  }

  lemma {:induction false} PreLenBound(l: Re)
    ensures PreLen(l) >= 6
  {
  }

  lemma {:induction false} PreBounds(g: Input, l: Re, base: nat, pc: int, i: nat, j: nat)
    requires InPre(g, l, base, pc, i, j)
    ensures base <= pc <= base + PreLen(l) - 3 && i <= j <= |g.text|
    decreases l
  {
    if l.Alt? && pc < base + PreLen(l.pre) { PreBounds(g, l.pre, base, pc, i, j); }
  }

  lemma {:induction false} InPreAlt(g: Input, pre: Re, last: Re, base: nat, pc: int, i: nat, j: nat)
    ensures InPre(g, Alt(pre, last), base, pc, i, j) <==>
      && base <= pc && i <= j <= |g.text|
      && var m := base + PreLen(pre);
         if pc < m then InPre(g, pre, base, pc, i, j)
         else if pc < m + 3 then pc == m && i == j
         else
           && pc <= m + 3 + Len(last)
           && (Inside(g, last, m + 3, pc, i, j) || (pc == m + 3 + Len(last) && Matches(g, pre, i, j)))
  {
    hide Inside, Matches, Len;
  }

  lemma {:induction false} InPreBranch(g: Input, l: Re, base: nat, pc: int, i: nat, j: nat)
    requires !l.Alt?
    ensures PreLen(l) == 6 + Len(l)
    ensures InPre(g, l, base, pc, i, j) <==>
      && base <= pc && i <= j <= |g.text|
      && if pc < base + 3 then pc == base && i == j
         else pc <= base + 3 + Len(l) && Inside(g, l, base + 3, pc, i, j)
  {
    hide Inside, Matches, Len;
  }

  /** A move among leading alternatives stays there, or starts the alternative that follows them. */
  lemma {:induction false} MovePre(g: Input, code: seq<Byte>, l: Re, base: nat, pc: int, i: nat, d: nat, pc2: int,
          d2: nat)
    requires At(code, base, PreCode(l)) && base + PreLen(l) <= |code| < MAX_OFFSET_CODE && Sized(l)
    requires InPre(g, l, base, pc, i, d) && pc < base + PreLen(l) - 3
    requires Move(g, code, pc, d, pc2, d2)
    ensures InPre(g, l, base, pc2, i, d2) || (pc2 == base + PreLen(l) && i == d2 <= |g.text|)
    decreases l, 2
  {
    hide Inside, InPre, Matches, Len, PreLen, Laid, Move, JumpAt, PreCode;
    if l.Alt? {
      PreLenOfAlt(l.pre, l.last);
      MovePreAlt(g, code, l.pre, l.last, base, pc, i, d, pc2, d2);
    } else {
      PreOfBranch(code, base, l);
      InPreBranch(g, l, base, pc, i, d);
      InPreBranch(g, l, base, pc2, i, d2);
      if pc == base {
        JumpMove(g, code, pc, d, pc2, d2, ON_FAILURE_JUMP, Len(l) + 3);
        InsideStart(g, l, base + 3, d);
      } else {
        MoveInside(g, code, l, base + 3, pc, i, d, pc2, d2);
        InsideBounds(g, l, base + 3, pc2, i, d2);
      }
    }
  }

  lemma {:induction false} MovePreAlt(g: Input, code: seq<Byte>, pre: Re, last: Re, base: nat, pc: int, i: nat, d: nat,
          pc2: int, d2: nat)
    requires At(code, base, PreCode(Alt(pre, last))) && Sized(pre) && Sized(last)
    requires base + PreLen(pre) + 6 + Len(last) <= |code| < MAX_OFFSET_CODE
    requires InPre(g, Alt(pre, last), base, pc, i, d) && pc < base + PreLen(pre) + 3 + Len(last)
    requires Move(g, code, pc, d, pc2, d2)
    ensures InPre(g, Alt(pre, last), base, pc2, i, d2)
         || (pc2 == base + PreLen(pre) + 6 + Len(last) && i == d2 <= |g.text|)
    decreases Alt(pre, last), 1
  {
    hide Inside, InPre, Matches, Len, PreLen, Laid, Move, JumpAt, PreCode;
    PreOfAlt(code, base, pre, last);
    InPreAlt(g, pre, last, base, pc, i, d);
    InPreAlt(g, pre, last, base, pc2, i, d2);
    var m := base + PreLen(pre);
    PreLenBound(pre);
    if pc < m {
      PreBounds(g, pre, base, pc, i, d);
      if pc < m - 3 {
        MovePre(g, code, pre, base, pc, i, d, pc2, d2);
        if InPre(g, pre, base, pc2, i, d2) { PreBounds(g, pre, base, pc2, i, d2); }
      } else {
        PreEnd(g, pre, base, i, d);
        JumpMove(g, code, pc, d, pc2, d2, JUMP_PAST_ALT, Len(last) + 3);
      }
    } else if pc == m {
      JumpMove(g, code, pc, d, pc2, d2, ON_FAILURE_JUMP, Len(last) + 3);
      InsideStart(g, last, m + 3, d);
    } else {
      MoveInside(g, code, last, m + 3, pc, i, d, pc2, d2);
      InsideBounds(g, last, m + 3, pc2, i, d2);
    }
  }
}
