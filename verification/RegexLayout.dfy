/** Where the opcodes of compiled code are, how many failure points are certain to be on the stack at each of them,
    and that control only ever goes from one of them to another. */
module RegexLayout {
  import opened RegexTree
  import opened RegexCode
  import opened RegexPaths

  /** -1 when no opcode of `r', laid out at `base', starts at pc and pc is not its end; otherwise the number of loops
      whose body contains pc, its closing jump included. Each such loop has a failure point of its own on the stack. */
  function Depth(r: Re, base: nat, pc: int): int
    decreases r, 1
  {
    if pc < base || pc > base + Len(r) then -1
    else match r
      case Cat(a, b) => if pc < base + Len(a) then Depth(a, base, pc) else Depth(b, base + Len(a), pc)
      case Alt(pre, last) => if pc < base + PreLen(pre) then PreDepth(pre, base, pc)
        else Depth(last, base + PreLen(pre), pc)
      case Group(reg, _, body) => GroupDepth(reg, body, base, pc)
      case ZeroOrMore(body, _) => if pc == base || pc == base + 6 + Len(body) then 0 else BodyDepth(body, base + 3, pc)
      case OneOrMore(body, _) =>
        if pc == base || pc == base + 3 || pc == base + 9 + Len(body) then 0 else BodyDepth(body, base + 6, pc)
      case Optional(body, _) => if pc == base then 0 else Depth(body, base + 3, pc)
      case DotLine(body) => if pc == base || pc == base + 6 + Len(body) then 0 else BodyDepth(body, base + 3, pc)
      case _ => if pc == base || pc == base + Len(r) then 0 else -1
  }

  function BodyDepth(body: Re, base: nat, pc: int): int
    decreases body, 2
  {
    var n := Depth(body, base, pc);
    if n < 0 then -1 else n + 1
  }

  function GroupDepth(reg: nat, body: Re, base: nat, pc: int): int
    decreases body, 2
  {
    var m := base + MemoryLen(reg);
    var stop := m + Len(body) + DummyLen(body);
    if pc < m then (if pc == base then 0 else -1)
    else if pc <= m + Len(body) then Depth(body, m, pc)
    else if pc == stop || pc == stop + MemoryLen(reg) then 0 else -1
  }

  function PreDepth(l: Re, base: nat, pc: int): int
    decreases l, 2
  {
    if pc < base then -1
    else if l.Alt? then
      var m := base + PreLen(l.pre);
      if pc < m then PreDepth(l.pre, base, pc)
      else if pc < m + 3 then (if pc == m then 0 else -1)
      else Depth(l.last, m + 3, pc)
    else if pc < base + 3 then (if pc == base then 0 else -1)
    else Depth(l, base + 3, pc)
  }

  lemma DepthCat(a: Re, b: Re, base: nat, pc: int)
    requires base <= pc <= base + Len(a) + Len(b)
    ensures Depth(Cat(a, b), base, pc) == if pc < base + Len(a) then Depth(a, base, pc) else Depth(b, base + Len(a), pc)
  {
  }

  lemma {:induction false} DepthAlt(pre: Re, last: Re, base: nat, pc: int)
    requires base <= pc <= base + PreLen(pre) + Len(last)
    ensures Depth(Alt(pre, last), base, pc) ==
      if pc < base + PreLen(pre) then PreDepth(pre, base, pc) else Depth(last, base + PreLen(pre), pc)
  {
  }

  lemma {:induction false} PreDepthAlt(pre: Re, last: Re, base: nat, pc: int)
    requires base <= pc
    ensures PreDepth(Alt(pre, last), base, pc) ==
      var m := base + PreLen(pre);
      if pc < m then PreDepth(pre, base, pc)
      else if pc < m + 3 then (if pc == m then 0 else -1)
      else Depth(last, m + 3, pc)
  {
    hide Depth, Len;
  }

  lemma {:induction false} PreDepthBranch(l: Re, base: nat, pc: int)
    requires base <= pc && !l.Alt?
    ensures PreLen(l) == 6 + Len(l)
    ensures PreDepth(l, base, pc) == if pc < base + 3 then (if pc == base then 0 else -1) else Depth(l, base + 3, pc)
  {
  }

  lemma DepthGroup(reg: nat, inner: nat, body: Re, base: nat, pc: int)
    requires base <= pc <= base + 2 * MemoryLen(reg) + Len(body) + DummyLen(body)
    ensures Depth(Group(reg, inner, body), base, pc) == GroupDepth(reg, body, base, pc)
  {
  }

  lemma DepthZeroOrMore(body: Re, ops: seq<Token>, base: nat, pc: int)
    requires base <= pc <= base + 6 + Len(body)
    ensures Depth(ZeroOrMore(body, ops), base, pc) ==
      if pc == base || pc == base + 6 + Len(body) then 0 else BodyDepth(body, base + 3, pc)
  {
  }

  lemma DepthOneOrMore(body: Re, ops: seq<Token>, base: nat, pc: int)
    requires base <= pc <= base + 9 + Len(body)
    ensures Depth(OneOrMore(body, ops), base, pc) ==
      if pc == base || pc == base + 3 || pc == base + 9 + Len(body) then 0 else BodyDepth(body, base + 6, pc)
  {
  }

  lemma DepthOptional(body: Re, ops: seq<Token>, base: nat, pc: int)
    requires base <= pc <= base + 3 + Len(body)
    ensures Depth(Optional(body, ops), base, pc) == if pc == base then 0 else Depth(body, base + 3, pc)
  {
  }

  lemma DepthDotLine(body: Re, base: nat, pc: int)
    requires base <= pc <= base + 6 + Len(body)
    ensures Depth(DotLine(body), base, pc) ==
      if pc == base || pc == base + 6 + Len(body) then 0 else BodyDepth(body, base + 3, pc)
  {
  }

  lemma DepthBounds(r: Re, base: nat, pc: int)
    requires Depth(r, base, pc) >= 0
    ensures base <= pc <= base + Len(r)
  {
  }

  lemma {:induction false} PreDepthBounds(l: Re, base: nat, pc: int)
    requires PreDepth(l, base, pc) >= 0
    ensures base <= pc <= base + PreLen(l) - 3
    decreases l
  {
    if l.Alt? && pc < base + PreLen(l.pre) { PreDepthBounds(l.pre, base, pc); }
  }

  /** Both ends of a tree's code are boundaries inside none of its loops. */
  lemma {:induction false} DepthEnds(r: Re, base: nat)
    ensures Depth(r, base, base) == 0 && Depth(r, base, base + Len(r)) == 0
    decreases r, 1
  {
    hide Depth, Len;
    match r
    case Cat(a, b) => {
      LenCat(a, b);
      CatEnds(a, b, base);
    }
    case Alt(pre, last) => {
      LenAlt(pre, last);
      AltEnds(pre, last, base);
    }
    case Group(reg, inner, body) => {
      LenGroup(reg, inner, body);
      GroupEnds(reg, inner, body, base);
    }
    case Optional(body, ops) => {
      LenOptional(body, ops);
      DepthOptional(body, ops, base, base);
      DepthOptional(body, ops, base, base + 3 + Len(body));
      DepthEnds(body, base + 3);
    }
    case _ => LeafEnds(r, base);
  }

  lemma {:induction false} LeafEnds(r: Re, base: nat)
    requires !r.Cat? && !r.Alt? && !r.Group? && !r.Optional?
    ensures Depth(r, base, base) == 0 && Depth(r, base, base + Len(r)) == 0
  {
  }

  lemma {:induction false} CatEnds(a: Re, b: Re, base: nat)
    ensures Depth(Cat(a, b), base, base) == 0 && Depth(Cat(a, b), base, base + Len(a) + Len(b)) == 0
    decreases Cat(a, b), 0
  {
    hide Depth, Len;
    DepthEnds(a, base);
    DepthEnds(b, base + Len(a));
    DepthCat(a, b, base, base);
    DepthCat(a, b, base, base + Len(a) + Len(b));
  }

  lemma {:induction false} AltEnds(pre: Re, last: Re, base: nat)
    ensures Depth(Alt(pre, last), base, base) == 0 && Depth(Alt(pre, last), base, base + PreLen(pre) + Len(last)) == 0
    decreases Alt(pre, last), 0
  {
    hide Depth, Len, PreDepth, PreLen;
    PreDepthEnds(pre, base);
    DepthEnds(last, base + PreLen(pre));
    DepthAlt(pre, last, base, base);
    DepthAlt(pre, last, base, base + PreLen(pre) + Len(last));
  }

  lemma {:induction false} GroupEnds(reg: nat, inner: nat, body: Re, base: nat)
    ensures Depth(Group(reg, inner, body), base, base) == 0
    ensures Depth(Group(reg, inner, body), base, base + 2 * MemoryLen(reg) + Len(body) + DummyLen(body)) == 0
    decreases body, 2
  {
    hide Depth, Len;
    DepthEnds(body, base + MemoryLen(reg));
    DepthGroup(reg, inner, body, base, base);
    DepthGroup(reg, inner, body, base, base + 2 * MemoryLen(reg) + Len(body) + DummyLen(body));
  }

  lemma {:induction false} PreDepthEnds(l: Re, base: nat)
    ensures PreLen(l) >= 6
    ensures PreDepth(l, base, base) == 0 && PreDepth(l, base, base + PreLen(l) - 3) == 0
    decreases l, 2
  {
    hide Depth, Len, PreDepth, PreLen;
    if l.Alt? {
      PreLenOfAlt(l.pre, l.last);
      PreDepthEnds(l.pre, base);
      DepthEnds(l.last, base + PreLen(l.pre) + 3);
      PreDepthAlt(l.pre, l.last, base, base);
      PreDepthAlt(l.pre, l.last, base, base + PreLen(l) - 3);
    } else {
      DepthEnds(l, base + 3);
      PreDepthBranch(l, base, base);
      PreDepthBranch(l, base, base + PreLen(l) - 3);
    }
  }

  // ---------- Control goes from opcode to opcode ----------

  /** What a move does at least to the number of failure points: a fork pushes one unless the branch taken is the one
      it would come back to, and the jump that closes a loop may take one off. */
  function Gain(code: seq<Byte>, pc: int, pc2: int): int {
    var op := Get(code, pc);
    if IsFork(op) then (if pc2 == Target(code, pc) then 0 else 1)
    else if op == DUMMY_FAILURE_JUMP then 1
    else if op == MAYBE_POP_JUMP then -1
    else 0
  }

  /** Every move from an opcode leads to an opcode, or to the end, inside [0, used]; the certain failure points
      suffice for what is taken off. */
  lemma {:induction false} NextBoundary(code: seq<Byte>, r: Re, base: nat, pc: int, pc2: int)
    requires Laid(code, base, r) && Sized(r) && |code| < MAX_OFFSET_CODE
    requires Depth(r, base, pc) >= 0 && pc < base + Len(r) && Next(code, pc, pc2)
    ensures 0 <= Depth(r, base, pc2) <= Depth(r, base, pc) + Gain(code, pc, pc2)
    decreases r, 1
  {
    match r
    case Dummy => LaidByte(code, base, r);
    case AnyChar => LaidByte(code, base, r);
    case Exact(ts) => LaidExact(code, base, ts);
    case CharSet(negated, bits) => LaidSet(code, base, negated, bits);
    case Cat(a, b) => NextCat(code, a, b, base, pc, pc2);
    case Alt(pre, last) => NextAlt(code, pre, last, base, pc, pc2);
    case Group(reg, inner, body) => NextGroup(code, reg, inner, body, base, pc, pc2);
    case ZeroOrMore(body, ops) => NextZeroOrMore(code, body, ops, base, pc, pc2);
    case OneOrMore(body, ops) => NextOneOrMore(code, body, ops, base, pc, pc2);
    case Optional(body, ops) => NextOptional(code, body, ops, base, pc, pc2);
    case DotLine(body) => NextDotLine(code, body, base, pc, pc2);
    case _ =>
  }

  lemma {:induction false} NextCat(code: seq<Byte>, a: Re, b: Re, base: nat, pc: int, pc2: int)
    requires Laid(code, base, Cat(a, b)) && Sized(a) && Sized(b) && |code| < MAX_OFFSET_CODE
    requires Depth(Cat(a, b), base, pc) >= 0 && base <= pc < base + Len(a) + Len(b) && Next(code, pc, pc2)
    ensures 0 <= Depth(Cat(a, b), base, pc2) <= Depth(Cat(a, b), base, pc) + Gain(code, pc, pc2)
    decreases Cat(a, b), 0
  {
    hide Depth, Len, Laid, Next, Gain, Sized;
    LaidCat(code, base, a, b);
    DepthCat(a, b, base, pc);
    var mid := base + Len(a);
    if pc < mid {
      NextBoundary(code, a, base, pc, pc2);
      DepthBounds(a, base, pc2);
      DepthEnds(a, base);
      DepthEnds(b, mid);
    } else {
      NextBoundary(code, b, mid, pc, pc2);
      DepthBounds(b, mid, pc2);
    }
    DepthCat(a, b, base, pc2);
  }

  lemma NextJump(code: seq<Byte>, pc: int, pc2: int, op: Byte, offset: int)
    requires pc >= 0 && JumpAt(code, pc, op, offset) && 0 <= pc + 3 + offset <= |code| < MAX_OFFSET_CODE
    requires IsPlainJump(op) || IsFork(op)
    requires Next(code, pc, pc2)
    ensures pc2 == pc + 3 + offset || (IsFork(op) && pc2 == pc + 3) || (op == JUMP && pc2 == pc + offset)
    ensures Gain(code, pc, pc2) ==
      if IsFork(op) then (if pc2 == pc + 3 + offset then 0 else 1)
      else if op == DUMMY_FAILURE_JUMP then 1 else if op == MAYBE_POP_JUMP then -1 else 0
  {
    JumpByte(code, pc, op, offset);
  }

  lemma {:induction false} NextBody(code: seq<Byte>, body: Re, base: nat, pc: int, pc2: int)
    requires Laid(code, base, body) && Sized(body) && |code| < MAX_OFFSET_CODE
    requires BodyDepth(body, base, pc) >= 0 && pc < base + Len(body) && Next(code, pc, pc2)
    ensures 0 <= BodyDepth(body, base, pc2) <= BodyDepth(body, base, pc) + Gain(code, pc, pc2)
    ensures base <= pc2 <= base + Len(body)
    decreases body, 2
  {
    hide Depth, Len, Laid, Next, Gain, Sized;
    NextBoundary(code, body, base, pc, pc2);
    DepthBounds(body, base, pc2);
  }

  /** Both ends of a loop body lie inside that loop alone. */
  lemma BodyEnds(body: Re, base: nat, pc: int)
    ensures BodyDepth(body, base, base) == 1 && BodyDepth(body, base, base + Len(body)) == 1
    ensures BodyDepth(body, base, pc) >= 0 ==> BodyDepth(body, base, pc) >= 1 && base <= pc <= base + Len(body)
  {
    hide Depth, Len;
    DepthEnds(body, base);
    if Depth(body, base, pc) >= 0 { DepthBounds(body, base, pc); }
  }

  lemma {:induction false} NextZeroOrMore(code: seq<Byte>, body: Re, ops: seq<Token>, base: nat, pc: int, pc2: int)
    requires Laid(code, base, ZeroOrMore(body, ops)) && Sized(body) && |code| < MAX_OFFSET_CODE
    requires Depth(ZeroOrMore(body, ops), base, pc) >= 0 && base <= pc < base + 6 + Len(body) && Next(code, pc, pc2)
    ensures 0 <= Depth(ZeroOrMore(body, ops), base, pc2) <= Depth(ZeroOrMore(body, ops), base, pc) + Gain(code, pc, pc2)
    decreases body, 3
  {
    hide Depth, BodyDepth, Len, Laid, Next, Gain, Sized, JumpAt;
    LaidZeroOrMore(code, base, body, ops);
    DepthZeroOrMore(body, ops, base, pc);
    BodyEnds(body, base + 3, pc);
    if pc == base {
      NextJump(code, pc, pc2, ON_FAILURE_JUMP, Len(body) + 3);
    } else if pc < base + 3 + Len(body) {
      NextBody(code, body, base + 3, pc, pc2);
    } else {
      NextJump(code, pc, pc2, MAYBE_POP_JUMP, -(Len(body) + 6));
    }
    DepthZeroOrMore(body, ops, base, pc2);
  }

  lemma {:induction false} NextOneOrMore(code: seq<Byte>, body: Re, ops: seq<Token>, base: nat, pc: int, pc2: int)
    requires Laid(code, base, OneOrMore(body, ops)) && Sized(body) && |code| < MAX_OFFSET_CODE
    requires Depth(OneOrMore(body, ops), base, pc) >= 0 && base <= pc < base + 9 + Len(body) && Next(code, pc, pc2)
    ensures 0 <= Depth(OneOrMore(body, ops), base, pc2) <= Depth(OneOrMore(body, ops), base, pc) + Gain(code, pc, pc2)
    decreases body, 3
  {
    hide Depth, BodyDepth, Len, Laid, Next, Gain, Sized, JumpAt;
    LaidOneOrMore(code, base, body, ops);
    DepthOneOrMore(body, ops, base, pc);
    BodyEnds(body, base + 6, pc);
    if pc == base {
      NextJump(code, pc, pc2, DUMMY_FAILURE_JUMP, 3);
    } else if pc == base + 3 {
      NextJump(code, pc, pc2, ON_FAILURE_JUMP, Len(body) + 3);
    } else if pc < base + 6 + Len(body) {
      NextBody(code, body, base + 6, pc, pc2);
    } else {
      NextJump(code, pc, pc2, MAYBE_POP_JUMP, -(Len(body) + 6));
    }
    DepthOneOrMore(body, ops, base, pc2);
  }

  lemma {:induction false} NextDotLine(code: seq<Byte>, body: Re, base: nat, pc: int, pc2: int)
    requires Laid(code, base, DotLine(body)) && Sized(body) && |code| < MAX_OFFSET_CODE
    requires Depth(DotLine(body), base, pc) >= 0 && base <= pc < base + 6 + Len(body) && Next(code, pc, pc2)
    ensures 0 <= Depth(DotLine(body), base, pc2) <= Depth(DotLine(body), base, pc) + Gain(code, pc, pc2)
    decreases body, 3
  {
    hide Depth, BodyDepth, Len, Laid, Next, Gain, Sized, JumpAt;
    LaidDotLine(code, base, body);
    DepthDotLine(body, base, pc);
    BodyEnds(body, base + 3, pc);
    if pc == base {
      NextJump(code, pc, pc2, ON_FAILURE_KEEP_STRING_JUMP, Len(body) + 3);
    } else if pc < base + 3 + Len(body) {
      NextBody(code, body, base + 3, pc, pc2);
    } else {
      NextJump(code, pc, pc2, JUMP, -(Len(body) + 3));
    }
    DepthDotLine(body, base, pc2);
  }

  lemma {:induction false} NextOptional(code: seq<Byte>, body: Re, ops: seq<Token>, base: nat, pc: int, pc2: int)
    requires Laid(code, base, Optional(body, ops)) && Sized(body) && |code| < MAX_OFFSET_CODE
    requires Depth(Optional(body, ops), base, pc) >= 0 && base <= pc < base + 3 + Len(body) && Next(code, pc, pc2)
    ensures 0 <= Depth(Optional(body, ops), base, pc2) <= Depth(Optional(body, ops), base, pc) + Gain(code, pc, pc2)
    decreases body, 3
  {
    hide Depth, Len, Laid, Next, Gain, Sized, JumpAt;
    LaidOptional(code, base, body, ops);
    DepthOptional(body, ops, base, pc);
    DepthEnds(body, base + 3);
    if pc == base {
      NextJump(code, pc, pc2, ON_FAILURE_JUMP, Len(body));
    } else {
      DepthBounds(body, base + 3, pc);
      NextBoundary(code, body, base + 3, pc, pc2);
      DepthBounds(body, base + 3, pc2);
    }
    DepthOptional(body, ops, base, pc2);
  }

  lemma {:induction false} NextGroup(code: seq<Byte>, reg: nat, inner: nat, body: Re, base: nat, pc: int, pc2: int)
    requires Laid(code, base, Group(reg, inner, body)) && Sized(body) && |code| < MAX_OFFSET_CODE
    requires Depth(Group(reg, inner, body), base, pc) >= 0
    requires base <= pc < base + 2 * MemoryLen(reg) + Len(body) + DummyLen(body) && Next(code, pc, pc2)
    ensures 0 <= Depth(Group(reg, inner, body), base, pc2) <= Depth(Group(reg, inner, body), base, pc) + Gain(code, pc,
            pc2)
    decreases body, 3
  {
    hide Depth, Len, Laid, Sized, MemoryCode;
    LaidGroup(code, base, reg, inner, body);
    DepthGroup(reg, inner, body, base, pc);
    var m := base + MemoryLen(reg);
    var stop := m + Len(body) + DummyLen(body);
    DepthEnds(body, m);
    if pc < m {
      MemoryBytes(code, base, START_MEMORY, reg, inner);
    } else if pc < m + Len(body) {
      NextBoundary(code, body, m, pc, pc2);
      DepthBounds(body, m, pc2);
    } else if pc < stop {
      assert [PUSH_DUMMY_FAILURE][0] == code[pc + 0];
    } else {
      MemoryBytes(code, stop, STOP_MEMORY, reg, inner);
    }
    DepthGroup(reg, inner, body, base, pc2);
  }

  lemma {:induction false} NextAlt(code: seq<Byte>, pre: Re, last: Re, base: nat, pc: int, pc2: int)
    requires Laid(code, base, Alt(pre, last)) && Sized(pre) && Sized(last) && |code| < MAX_OFFSET_CODE
    requires Depth(Alt(pre, last), base, pc) >= 0 && base <= pc < base + PreLen(pre) + Len(last) && Next(code, pc, pc2)
    ensures 0 <= Depth(Alt(pre, last), base, pc2) <= Depth(Alt(pre, last), base, pc) + Gain(code, pc, pc2)
    decreases Alt(pre, last), 0
  {
    hide Depth, PreDepth, Len, PreLen, Laid, Next, Gain, Sized, JumpAt, PreCode;
    LaidAlt(code, base, pre, last);
    DepthAlt(pre, last, base, pc);
    var mid := base + PreLen(pre);
    PreDepthEnds(pre, base);
    DepthEnds(last, mid);
    if pc < mid {
      PreDepthBounds(pre, base, pc);
      if pc < mid - 3 {
        NextPre(code, pre, base, pc, pc2);
      } else {
        NextJump(code, pc, pc2, JUMP_PAST_ALT, Len(last));
      }
    } else {
      NextBoundary(code, last, mid, pc, pc2);
      DepthBounds(last, mid, pc2);
    }
    DepthAlt(pre, last, base, pc2);
  }

  lemma {:induction false} NextPre(code: seq<Byte>, l: Re, base: nat, pc: int, pc2: int)
    requires At(code, base, PreCode(l)) && base + PreLen(l) <= |code| < MAX_OFFSET_CODE && Sized(l)
    requires PreDepth(l, base, pc) >= 0 && base <= pc < base + PreLen(l) - 3 && Next(code, pc, pc2)
    ensures base <= pc2 <= base + PreLen(l) - 3 || pc2 == base + PreLen(l)
    ensures pc2 != base + PreLen(l) ==> 0 <= PreDepth(l, base, pc2) <= PreDepth(l, base, pc) + Gain(code, pc, pc2)
    ensures pc2 == base + PreLen(l) ==> 0 <= PreDepth(l, base, pc) + Gain(code, pc, pc2)
    decreases l, 2
  {
    hide Depth, PreDepth, Len, PreLen, Laid, Next, Gain, JumpAt, PreCode;
    if l.Alt? {
      PreLenOfAlt(l.pre, l.last);
      NextPreAlt(code, l.pre, l.last, base, pc, pc2);
    } else {
      PreOfBranch(code, base, l);
      PreDepthBranch(l, base, pc);
      DepthEnds(l, base + 3);
      if pc == base {
        NextJump(code, pc, pc2, ON_FAILURE_JUMP, Len(l) + 3);
      } else {
        NextBoundary(code, l, base + 3, pc, pc2);
        DepthBounds(l, base + 3, pc2);
      }
      if base <= pc2 { PreDepthBranch(l, base, pc2); }
    }
  }

  lemma {:induction false} NextPreAlt(code: seq<Byte>, pre: Re, last: Re, base: nat, pc: int, pc2: int)
    requires At(code, base, PreCode(Alt(pre, last))) && Sized(pre) && Sized(last)
    requires base + PreLen(pre) + 6 + Len(last) <= |code| < MAX_OFFSET_CODE
    requires PreDepth(Alt(pre, last), base, pc) >= 0 && base <= pc < base + PreLen(pre) + 3 + Len(last)
             && Next(code, pc, pc2)
    ensures base <= pc2 <= base + PreLen(pre) + 3 + Len(last) || pc2 == base + PreLen(pre) + 6 + Len(last)
    ensures pc2 != base + PreLen(pre) + 6 + Len(last) ==>
      0 <= PreDepth(Alt(pre, last), base, pc2) <= PreDepth(Alt(pre, last), base, pc) + Gain(code, pc, pc2)
    ensures pc2 == base + PreLen(pre) + 6 + Len(last) ==> 0 <= PreDepth(Alt(pre, last), base, pc) + Gain(code, pc, pc2)
    decreases Alt(pre, last), 1
  {
    hide Depth, PreDepth, Len, PreLen, Laid, Next, Gain, Sized, JumpAt, PreCode;
    PreOfAlt(code, base, pre, last);
    PreDepthAlt(pre, last, base, pc);
    var m := base + PreLen(pre);
    PreDepthEnds(pre, base);
    DepthEnds(last, m + 3);
    if pc < m {
      PreDepthBounds(pre, base, pc);
      if pc < m - 3 {
        NextPre(code, pre, base, pc, pc2);
      } else {
        NextJump(code, pc, pc2, JUMP_PAST_ALT, Len(last) + 3);
      }
    } else if pc == m {
      NextJump(code, pc, pc2, ON_FAILURE_JUMP, Len(last) + 3);
    } else {
      NextBoundary(code, last, m + 3, pc, pc2);
      DepthBounds(last, m + 3, pc2);
    }
    if base <= pc2 { PreDepthAlt(pre, last, base, pc2); }
  }

  // ---------- What is at an opcode ----------

  /** Group numbers run from 1, and a group and the groups inside it are at most nsub. */
  predicate RegsWithin(r: Re, nsub: nat) {
    match r
    case Cat(a, b) => RegsWithin(a, nsub) && RegsWithin(b, nsub)
    case Alt(pre, last) => RegsWithin(pre, nsub) && RegsWithin(last, nsub)
    case Group(reg, inner, body) => 1 <= reg && reg + inner <= nsub && RegsWithin(body, nsub)
    case ZeroOrMore(body, _) => RegsWithin(body, nsub)
    case OneOrMore(body, _) => RegsWithin(body, nsub)
    case Optional(body, _) => RegsWithin(body, nsub)
    case DotLine(body) => RegsWithin(body, nsub)
    case _ => true
  }

  /** The `.*\n' loop is only wrapped around `.' itself. */
  predicate PlainDotLines(r: Re) {
    match r
    case Cat(a, b) => PlainDotLines(a) && PlainDotLines(b)
    case Alt(pre, last) => PlainDotLines(pre) && PlainDotLines(last)
    case Group(_, _, body) => PlainDotLines(body)
    case ZeroOrMore(body, _) => PlainDotLines(body)
    case OneOrMore(body, _) => PlainDotLines(body)
    case Optional(body, _) => PlainDotLines(body)
    case DotLine(body) => body.AnyChar?
    case _ => true
  }

  function OpLen(code: seq<Byte>, pc: int): nat {
    var op := Get(code, pc);
    if op == EXACTN || op == CHARSET || op == CHARSET_NOT then 2 + Get(code, pc + 1)
    else if op == START_MEMORY || op == STOP_MEMORY || IsFork(op) || IsPlainJump(op) then 3
    else 1
  }

  /** The maybe_pop_jump at pc leads back to the on_failure_jump that leads to just after it. */
  predicate LoopEnd(code: seq<Byte>, pc: nat) {
    var head := Target(code, pc);
    0 <= head < pc && Get(code, head) == ON_FAILURE_JUMP && Target(code, head) == pc + 3
  }

  predicate OpcodeOk(code: seq<Byte>, pc: int, nsub: nat) {
    && 0 <= pc && pc + OpLen(code, pc) <= |code|
    && var op := code[pc];
       || (op == EXACTN && 1 <= Get(code, pc + 1))
       || op == ANYCHAR
       || ((op == CHARSET || op == CHARSET_NOT) && Get(code, pc + 1) <= 32)
       || ((op == START_MEMORY || op == STOP_MEMORY)
           && 1 <= Get(code, pc + 1) && Get(code, pc + 1) + Get(code, pc + 2) <= nsub)
       || (IsFork(op) && Offset(code, pc) >= 0)
       || op == JUMP
       || (op == JUMP_PAST_ALT && Offset(code, pc) >= 0)
       || (op == MAYBE_POP_JUMP && LoopEnd(code, pc))
       || (op == DUMMY_FAILURE_JUMP && Offset(code, pc) == 3)
       || op == PUSH_DUMMY_FAILURE
  }

  /** The shape of the code emitted for `.*\n' up to the newline. */
  predicate DotLineOk(code: seq<Byte>, pc: int) {
    && (Get(code, pc) == ON_FAILURE_KEEP_STRING_JUMP ==>
          && Get(code, pc + 3) == ANYCHAR && Get(code, pc + 4) == JUMP
          && Target(code, pc) == pc + 7 && Target(code, pc + 4) == pc + 3)
    && (Get(code, pc) == JUMP ==> Get(code, Target(code, pc)) == ANYCHAR)
  }

  /** At every boundary but the end there is a whole, well-formed opcode, and no other opcode starts inside it. */
  lemma {:induction false} Opcode(code: seq<Byte>, r: Re, base: nat, pc: int, nsub: nat, k: int)
    requires Laid(code, base, r) && Sized(r) && RegsWithin(r, nsub) && |code| < MAX_OFFSET_CODE
    requires Depth(r, base, pc) >= 0 && pc < base + Len(r)
    ensures OpcodeOk(code, pc, nsub) && pc + OpLen(code, pc) <= base + Len(r)
    ensures PlainDotLines(r) ==> DotLineOk(code, pc)
    ensures pc < k < pc + OpLen(code, pc) ==> Depth(r, base, k) < 0
    decreases r, 1
  {
    match r
    case Dummy => LaidByte(code, base, r);
    case AnyChar => LaidByte(code, base, r);
    case Exact(ts) => LaidExact(code, base, ts);
    case CharSet(negated, bits) => LaidSet(code, base, negated, bits);
    case Cat(a, b) => OpcodeCat(code, a, b, base, pc, nsub, k);
    case Alt(pre, last) => OpcodeAlt(code, pre, last, base, pc, nsub, k);
    case Group(reg, inner, body) => OpcodeGroup(code, reg, inner, body, base, pc, nsub, k);
    case ZeroOrMore(body, ops) => OpcodeZeroOrMore(code, body, ops, base, pc, nsub, k);
    case OneOrMore(body, ops) => OpcodeOneOrMore(code, body, ops, base, pc, nsub, k);
    case Optional(body, ops) => OpcodeOptional(code, body, ops, base, pc, nsub, k);
    case DotLine(body) => OpcodeDotLine(code, body, base, pc, nsub, k);
    case _ =>
  }

  lemma JumpOpcode(code: seq<Byte>, pc: int, op: Byte, offset: int, nsub: nat)
    requires pc >= 0 && JumpAt(code, pc, op, offset) && (IsPlainJump(op) || IsFork(op)) && op != POP_FAILURE_JUMP
    requires op == DUMMY_FAILURE_JUMP ==> offset == 3 && pc + 6 <= |code| < MAX_OFFSET_CODE
    requires op == MAYBE_POP_JUMP ==> LoopEnd(code, pc)
    requires IsFork(op) || op == JUMP_PAST_ALT ==> offset >= 0 && pc + 3 + offset <= |code| < MAX_OFFSET_CODE
    ensures OpcodeOk(code, pc, nsub) && OpLen(code, pc) == 3 && code[pc] == op
    ensures op != ON_FAILURE_KEEP_STRING_JUMP && op != JUMP ==> DotLineOk(code, pc)
  {
    if op == DUMMY_FAILURE_JUMP || IsFork(op) || op == JUMP_PAST_ALT { JumpByte(code, pc, op, offset); }
    assert JumpCode(op, offset)[0] == code[pc + 0];
  }

  lemma LoopJumps(code: seq<Byte>, head: nat, n: nat)
    requires JumpAt(code, head, ON_FAILURE_JUMP, n + 3) && JumpAt(code, head + 3 + n, MAYBE_POP_JUMP, -(n + 6))
    requires head + 6 + n <= |code| < MAX_OFFSET_CODE
    ensures LoopEnd(code, head + 3 + n)
  {
    hide JumpAt, Target;
    JumpByte(code, head, ON_FAILURE_JUMP, n + 3);
    JumpByte(code, head + 3 + n, MAYBE_POP_JUMP, -(n + 6));
  }

  lemma {:induction false} OpcodeCat(code: seq<Byte>, a: Re, b: Re, base: nat, pc: int, nsub: nat, k: int)
    requires Laid(code, base, Cat(a, b)) && Sized(a) && Sized(b) && |code| < MAX_OFFSET_CODE
    requires RegsWithin(a, nsub) && RegsWithin(b, nsub)
    requires Depth(Cat(a, b), base, pc) >= 0 && base <= pc < base + Len(a) + Len(b)
    ensures OpcodeOk(code, pc, nsub) && pc + OpLen(code, pc) <= base + Len(a) + Len(b)
    ensures PlainDotLines(a) && PlainDotLines(b) ==> DotLineOk(code, pc)
    ensures pc < k < pc + OpLen(code, pc) ==> Depth(Cat(a, b), base, k) < 0
    decreases Cat(a, b), 0
  {
    hide Depth, Len, Laid, Sized, RegsWithin, OpcodeOk, DotLineOk, OpLen, PlainDotLines;
    LaidCat(code, base, a, b);
    DepthCat(a, b, base, pc);
    if pc < base + Len(a) {
      Opcode(code, a, base, pc, nsub, k);
    } else {
      Opcode(code, b, base + Len(a), pc, nsub, k);
    }
    if base <= k <= base + Len(a) + Len(b) { DepthCat(a, b, base, k); }
  }

  lemma {:induction false} OpcodeBody(code: seq<Byte>, body: Re, base: nat, pc: int, nsub: nat, k: int)
    requires Laid(code, base, body) && Sized(body) && RegsWithin(body, nsub) && |code| < MAX_OFFSET_CODE
    requires BodyDepth(body, base, pc) >= 0 && pc < base + Len(body)
    ensures OpcodeOk(code, pc, nsub) && base <= pc && pc + OpLen(code, pc) <= base + Len(body)
    ensures PlainDotLines(body) ==> DotLineOk(code, pc)
    ensures pc < k < pc + OpLen(code, pc) ==> BodyDepth(body, base, k) < 0
    decreases body, 2
  {
    hide Depth, Len, Laid, Sized, RegsWithin, OpcodeOk, DotLineOk, OpLen, PlainDotLines;
    DepthBounds(body, base, pc);
    Opcode(code, body, base, pc, nsub, k);
  }

  /** The loops around a body, from the address `head' of their on_failure_jump. */
  lemma {:induction false} OpcodeZeroOrMore(code: seq<Byte>, body: Re, ops: seq<Token>, base: nat, pc: int, nsub: nat,
          k: int)
    requires Laid(code, base, ZeroOrMore(body, ops)) && Sized(body) && RegsWithin(body, nsub)
             && |code| < MAX_OFFSET_CODE
    requires Depth(ZeroOrMore(body, ops), base, pc) >= 0 && base <= pc < base + 6 + Len(body)
    ensures OpcodeOk(code, pc, nsub) && pc + OpLen(code, pc) <= base + 6 + Len(body)
    ensures PlainDotLines(body) ==> DotLineOk(code, pc)
    ensures pc < k < pc + OpLen(code, pc) ==> Depth(ZeroOrMore(body, ops), base, k) < 0
    decreases body, 3
  {
    hide Depth, BodyDepth, Len, Laid, Sized, RegsWithin, JumpAt, LoopEnd, PlainDotLines, OpcodeOk, OpLen, DotLineOk;
    LaidZeroOrMore(code, base, body, ops);
    DepthZeroOrMore(body, ops, base, pc);
    BodyEnds(body, base + 3, pc);
    BodyEnds(body, base + 3, k);
    if pc == base {
      JumpOpcode(code, pc, ON_FAILURE_JUMP, Len(body) + 3, nsub);
    } else if pc < base + 3 + Len(body) {
      OpcodeBody(code, body, base + 3, pc, nsub, k);
    } else {
      LoopJumps(code, base, Len(body));
      JumpOpcode(code, pc, MAYBE_POP_JUMP, -(Len(body) + 6), nsub);
    }
    if base <= k <= base + 6 + Len(body) { DepthZeroOrMore(body, ops, base, k); }
  }

  lemma {:induction false} OpcodeOneOrMore(code: seq<Byte>, body: Re, ops: seq<Token>, base: nat, pc: int, nsub: nat,
          k: int)
    requires Laid(code, base, OneOrMore(body, ops)) && Sized(body) && RegsWithin(body, nsub) && |code| < MAX_OFFSET_CODE
    requires Depth(OneOrMore(body, ops), base, pc) >= 0 && base <= pc < base + 9 + Len(body)
    ensures OpcodeOk(code, pc, nsub) && pc + OpLen(code, pc) <= base + 9 + Len(body)
    ensures PlainDotLines(body) ==> DotLineOk(code, pc)
    ensures pc < k < pc + OpLen(code, pc) ==> Depth(OneOrMore(body, ops), base, k) < 0
    decreases body, 3
  {
    hide Depth, BodyDepth, Len, Laid, Sized, RegsWithin, JumpAt, LoopEnd, PlainDotLines, OpcodeOk, OpLen, DotLineOk;
    LaidOneOrMore(code, base, body, ops);
    DepthOneOrMore(body, ops, base, pc);
    BodyEnds(body, base + 6, pc);
    BodyEnds(body, base + 6, k);
    if pc == base {
      JumpOpcode(code, pc, DUMMY_FAILURE_JUMP, 3, nsub);
    } else if pc == base + 3 {
      JumpOpcode(code, pc, ON_FAILURE_JUMP, Len(body) + 3, nsub);
    } else if pc < base + 6 + Len(body) {
      OpcodeBody(code, body, base + 6, pc, nsub, k);
    } else {
      LoopJumps(code, base + 3, Len(body));
      JumpOpcode(code, pc, MAYBE_POP_JUMP, -(Len(body) + 6), nsub);
    }
    if base <= k <= base + 9 + Len(body) { DepthOneOrMore(body, ops, base, k); }
  }

  lemma {:induction false} OpcodeDotLine(code: seq<Byte>, body: Re, base: nat, pc: int, nsub: nat, k: int)
    requires Laid(code, base, DotLine(body)) && Sized(body) && RegsWithin(body, nsub) && |code| < MAX_OFFSET_CODE
    requires Depth(DotLine(body), base, pc) >= 0 && base <= pc < base + 6 + Len(body)
    ensures OpcodeOk(code, pc, nsub) && pc + OpLen(code, pc) <= base + 6 + Len(body)
    ensures body.AnyChar? ==> DotLineOk(code, pc)
    ensures pc < k < pc + OpLen(code, pc) ==> Depth(DotLine(body), base, k) < 0
    decreases body, 3
  {
    hide Depth, BodyDepth, Len, Laid, Sized, RegsWithin, JumpAt, OpcodeOk, OpLen;
    LaidDotLine(code, base, body);
    DepthDotLine(body, base, pc);
    BodyEnds(body, base + 3, pc);
    BodyEnds(body, base + 3, k);
    if pc == base {
      JumpOpcode(code, pc, ON_FAILURE_KEEP_STRING_JUMP, Len(body) + 3, nsub);
      JumpByte(code, pc, ON_FAILURE_KEEP_STRING_JUMP, Len(body) + 3);
      if body.AnyChar? {
        LaidByte(code, base + 3, body);
        LenAnyChar();
        JumpByte(code, base + 4, JUMP, -(Len(body) + 3));
      }
    } else if pc < base + 3 + Len(body) {
      OpcodeBody(code, body, base + 3, pc, nsub, k);
      if body.AnyChar? { LaidByte(code, base + 3, body); LenAnyChar(); }
    } else {
      JumpOpcode(code, pc, JUMP, -(Len(body) + 3), nsub);
      JumpByte(code, pc, JUMP, -(Len(body) + 3));
      if body.AnyChar? { LaidByte(code, base + 3, body); }
    }
    if base <= k <= base + 6 + Len(body) { DepthDotLine(body, base, k); }
  }

  lemma {:induction false} OpcodeOptional(code: seq<Byte>, body: Re, ops: seq<Token>, base: nat, pc: int, nsub: nat,
          k: int)
    requires Laid(code, base, Optional(body, ops)) && Sized(body) && RegsWithin(body, nsub) && |code| < MAX_OFFSET_CODE
    requires Depth(Optional(body, ops), base, pc) >= 0 && base <= pc < base + 3 + Len(body)
    ensures OpcodeOk(code, pc, nsub) && pc + OpLen(code, pc) <= base + 3 + Len(body)
    ensures PlainDotLines(body) ==> DotLineOk(code, pc)
    ensures pc < k < pc + OpLen(code, pc) ==> Depth(Optional(body, ops), base, k) < 0
    decreases body, 3
  {
    hide Depth, Len, Laid, Sized, RegsWithin, JumpAt, PlainDotLines, OpcodeOk, OpLen, DotLineOk;
    LaidOptional(code, base, body, ops);
    DepthOptional(body, ops, base, pc);
    if Depth(body, base + 3, k) >= 0 { DepthBounds(body, base + 3, k); }
    if pc == base {
      JumpOpcode(code, pc, ON_FAILURE_JUMP, Len(body), nsub);
    } else {
      DepthBounds(body, base + 3, pc);
      Opcode(code, body, base + 3, pc, nsub, k);
    }
    if base <= k <= base + 3 + Len(body) { DepthOptional(body, ops, base, k); }
  }

  lemma {:induction false} OpcodeGroup(code: seq<Byte>, reg: nat, inner: nat, body: Re, base: nat, pc: int, nsub: nat,
          k: int)
    requires Laid(code, base, Group(reg, inner, body)) && Sized(body) && RegsWithin(body, nsub)
             && |code| < MAX_OFFSET_CODE
    requires 1 <= reg && reg + inner <= nsub
    requires Depth(Group(reg, inner, body), base, pc) >= 0
    requires base <= pc < base + 2 * MemoryLen(reg) + Len(body) + DummyLen(body)
    ensures OpcodeOk(code, pc, nsub) && pc + OpLen(code, pc) <= base + 2 * MemoryLen(reg) + Len(body) + DummyLen(body)
    ensures PlainDotLines(body) ==> DotLineOk(code, pc)
    ensures pc < k < pc + OpLen(code, pc) ==> Depth(Group(reg, inner, body), base, k) < 0
    decreases body, 3
  {
    hide Depth, Len, Laid, Sized, RegsWithin, PlainDotLines, MemoryCode;
    LaidGroup(code, base, reg, inner, body);
    DepthGroup(reg, inner, body, base, pc);
    var m := base + MemoryLen(reg);
    var stop := m + Len(body) + DummyLen(body);
    if pc < m {
      MemoryBytes(code, base, START_MEMORY, reg, inner);
    } else if pc < m + Len(body) {
      Opcode(code, body, m, pc, nsub, k);
    } else if pc < stop {
      assert [PUSH_DUMMY_FAILURE][0] == code[pc + 0];
    } else {
      MemoryBytes(code, stop, STOP_MEMORY, reg, inner);
    }
    if base <= k <= stop + MemoryLen(reg) { DepthGroup(reg, inner, body, base, k); }
  }

  lemma {:induction false} OpcodeAlt(code: seq<Byte>, pre: Re, last: Re, base: nat, pc: int, nsub: nat, k: int)
    requires Laid(code, base, Alt(pre, last)) && Sized(pre) && Sized(last) && |code| < MAX_OFFSET_CODE
    requires RegsWithin(pre, nsub) && RegsWithin(last, nsub)
    requires Depth(Alt(pre, last), base, pc) >= 0 && base <= pc < base + PreLen(pre) + Len(last)
    ensures OpcodeOk(code, pc, nsub) && pc + OpLen(code, pc) <= base + PreLen(pre) + Len(last)
    ensures PlainDotLines(pre) && PlainDotLines(last) ==> DotLineOk(code, pc)
    ensures pc < k < pc + OpLen(code, pc) ==> Depth(Alt(pre, last), base, k) < 0
    decreases Alt(pre, last), 0
  {
    hide Depth, PreDepth, Len, PreLen, Laid, Sized, RegsWithin, JumpAt, PreCode, PlainDotLines, OpcodeOk, OpLen,
         DotLineOk;
    LaidAlt(code, base, pre, last);
    DepthAlt(pre, last, base, pc);
    var mid := base + PreLen(pre);
    if PreDepth(pre, base, k) >= 0 { PreDepthBounds(pre, base, k); }
    if pc < mid {
      PreDepthBounds(pre, base, pc);
      if pc < mid - 3 {
        OpcodePre(code, pre, base, pc, nsub, k);
      } else {
        JumpOpcode(code, pc, JUMP_PAST_ALT, Len(last), nsub);
      }
    } else {
      Opcode(code, last, mid, pc, nsub, k);
    }
    if base <= k <= mid + Len(last) { DepthAlt(pre, last, base, k); }
  }

  lemma {:induction false} OpcodePre(code: seq<Byte>, l: Re, base: nat, pc: int, nsub: nat, k: int)
    requires At(code, base, PreCode(l)) && base + PreLen(l) <= |code| < MAX_OFFSET_CODE
    requires Sized(l) && RegsWithin(l, nsub)
    requires PreDepth(l, base, pc) >= 0 && base <= pc < base + PreLen(l) - 3
    ensures OpcodeOk(code, pc, nsub) && pc + OpLen(code, pc) <= base + PreLen(l) - 3
    ensures PlainDotLines(l) ==> DotLineOk(code, pc)
    ensures pc < k < pc + OpLen(code, pc) ==> PreDepth(l, base, k) < 0
    decreases l, 2
  {
    hide Depth, PreDepth, Len, Laid, JumpAt, PreCode, OpcodeOk, OpLen, DotLineOk;
    if l.Alt? {
      OpcodePreAlt(code, l.pre, l.last, base, pc, nsub, k);
    } else {
      hide PreLen, Sized, RegsWithin, PlainDotLines;
      PreOfBranch(code, base, l);
      PreDepthBranch(l, base, pc);
      if Depth(l, base + 3, k) >= 0 { DepthBounds(l, base + 3, k); }
      if pc == base {
        JumpOpcode(code, pc, ON_FAILURE_JUMP, Len(l) + 3, nsub);
      } else {
        Opcode(code, l, base + 3, pc, nsub, k);
      }
      if base <= k { PreDepthBranch(l, base, k); }
    }
  }

  lemma {:induction false} OpcodePreAlt(code: seq<Byte>, pre: Re, last: Re, base: nat, pc: int, nsub: nat, k: int)
    requires At(code, base, PreCode(Alt(pre, last))) && Sized(pre) && Sized(last)
    requires RegsWithin(pre, nsub) && RegsWithin(last, nsub)
    requires base + PreLen(pre) + 6 + Len(last) <= |code| < MAX_OFFSET_CODE
    requires PreDepth(Alt(pre, last), base, pc) >= 0 && base <= pc < base + PreLen(pre) + 3 + Len(last)
    ensures OpcodeOk(code, pc, nsub) && pc + OpLen(code, pc) <= base + PreLen(pre) + 3 + Len(last)
    ensures PlainDotLines(pre) && PlainDotLines(last) ==> DotLineOk(code, pc)
    ensures pc < k < pc + OpLen(code, pc) ==> PreDepth(Alt(pre, last), base, k) < 0
    decreases Alt(pre, last), 1
  {
    hide Depth, PreDepth, Len, PreLen, Laid, Sized, RegsWithin, JumpAt, PreCode, PlainDotLines, OpcodeOk, OpLen,
         DotLineOk;
    PreOfAlt(code, base, pre, last);
    PreDepthAlt(pre, last, base, pc);
    var m := base + PreLen(pre);
    if PreDepth(pre, base, k) >= 0 { PreDepthBounds(pre, base, k); }
    if Depth(last, m + 3, k) >= 0 { DepthBounds(last, m + 3, k); }
    if pc < m {
      PreDepthBounds(pre, base, pc);
      if pc < m - 3 {
        OpcodePre(code, pre, base, pc, nsub, k);
      } else {
        JumpOpcode(code, pc, JUMP_PAST_ALT, Len(last) + 3, nsub);
      }
    } else if pc == m {
      JumpOpcode(code, pc, ON_FAILURE_JUMP, Len(last) + 3, nsub);
    } else {
      Opcode(code, last, m + 3, pc, nsub, k);
    }
    if base <= k { PreDepthAlt(pre, last, base, k); }
  }
}
