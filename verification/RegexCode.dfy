/** The byte code regex_compile emits for a tree, and what it means for the code to be laid out at an offset. */
module RegexCode {
  import opened RegexTree

  const NO_OP: Byte := 0
  const SUCCEED: Byte := 1
  const EXACTN: Byte := 2
  const ANYCHAR: Byte := 3
  const CHARSET: Byte := 4
  const CHARSET_NOT: Byte := 5
  const START_MEMORY: Byte := 6
  const STOP_MEMORY: Byte := 7
  const JUMP: Byte := 13
  const JUMP_PAST_ALT: Byte := 14
  const ON_FAILURE_JUMP: Byte := 15
  const ON_FAILURE_KEEP_STRING_JUMP: Byte := 16
  const POP_FAILURE_JUMP: Byte := 17
  const MAYBE_POP_JUMP: Byte := 18
  const DUMMY_FAILURE_JUMP: Byte := 19
  const PUSH_DUMMY_FAILURE: Byte := 20

  const MAX_REGNUM := 255
  const MAX_OFFSET_CODE := 32768

  // ---------- Two-byte numbers ----------

  function Low(n: int): Byte { n % 256 }

  function High(n: int): Byte { (n / 256) % 256 }

  function Extract(low: Byte, high: Byte): int {
    low + 256 * (if high < 128 then high else high - 256)
  }

  /** EXTRACT_NUMBER inverts STORE_NUMBER exactly on the 16-bit signed range. */
  lemma ExtractStore(n: int)
    ensures Extract(Low(n), High(n)) == n <==> -32768 <= n < 32768
  {
    var q := n / 256;
    assert n == 256 * q + Low(n);
    if -128 <= q < 128 {
      assert q % 256 == if q < 0 then q + 256 else q;
    }
  }

  // ---------- Reading the code ----------

  function Get(code: seq<Byte>, k: int): Byte {
    if 0 <= k < |code| then code[k] else NO_OP
  }

  function Offset(code: seq<Byte>, k: int): int {
    Extract(Get(code, k + 1), Get(code, k + 2))
  }

  /** Where the three-byte jump at k leads: offsets count from just after the jump. */
  function Target(code: seq<Byte>, k: int): int {
    k + 3 + Offset(code, k)
  }

  function JumpCode(op: Byte, offset: int): seq<Byte> {
    [op, Low(offset), High(offset)]
  }

  predicate JumpAt(code: seq<Byte>, k: nat, op: Byte, offset: int) {
    At(code, k, JumpCode(op, offset))
  }

  /** Three bytes overwritten by a jump. */
  function Overwritten(code: seq<Byte>, loc: nat, jump: seq<Byte>): seq<Byte>
    requires loc + 3 <= |code|
  {
    code[..loc] + jump + code[loc + 3..]
  }

  /** A gap opened for a jump. */
  function Inserted(s: seq<Byte>, loc: nat, jump: seq<Byte>): seq<Byte>
    requires loc <= |s|
  {
    s[..loc] + jump + s[loc..]
  }

  /** The bytes `c' are found in `code' at offset `base'. */
  predicate At(code: seq<Byte>, base: nat, c: seq<Byte>) {
    base + |c| <= |code| && forall k :: 0 <= k < |c| ==> c[k] == code[base + k]
  }

  lemma JumpTarget(code: seq<Byte>, k: nat, op: Byte, offset: int)
    requires JumpAt(code, k, op, offset) && 0 <= k + 3 + offset <= |code| < MAX_OFFSET_CODE
    ensures Target(code, k) == k + 3 + offset
  {
    ExtractStore(offset);
    assert JumpCode(op, offset)[1] == code[k + 1] && JumpCode(op, offset)[2] == code[k + 2];
  }

  // ---------- Layout ----------

  function MemoryLen(reg: nat): nat { if reg <= MAX_REGNUM then 3 else 0 }

  function DummyLen(body: Re): nat { if body.Alt? then 1 else 0 }

  function Len(r: Re): nat
    decreases r, 0
  {
    match r
    case Empty => 0
    case Exact(ts) => 2 + |ts|
    case AnyChar => 1
    case CharSet(_, bits) => 2 + |bits|
    case Dummy => 1
    case Ignored(_) => 0
    case Cat(a, b) => Len(a) + Len(b)
    case Alt(pre, last) => PreLen(pre) + Len(last)
    case Group(reg, _, body) => 2 * MemoryLen(reg) + Len(body) + DummyLen(body)
    case ZeroOrMore(body, _) => 6 + Len(body)
    case OneOrMore(body, _) => 9 + Len(body)
    case Optional(body, _) => 3 + Len(body)
    case DotLine(body) => 6 + Len(body)
  }

  /** Length of `l' as alternatives that are not the last: each has a jump before it and a jump after it. */
  function PreLen(l: Re): nat
    decreases l, 1
  {
    if l.Alt? then PreLen(l.pre) + 6 + Len(l.last) else 6 + Len(l)
  }

  function MemoryCode(op: Byte, reg: nat, inner: nat): (c: seq<Byte>)
    ensures |c| == MemoryLen(reg)
  {
    if reg <= MAX_REGNUM then [op, reg, inner % 256] else []
  }

  function Chars(ts: seq<Token>): (s: seq<Byte>)
    ensures |s| == |ts|
    ensures forall k :: 0 <= k < |ts| ==> s[k] == CharOf(ts[k])
  {
    seq(|ts|, k requires 0 <= k < |ts| => CharOf(ts[k]))
  }

  /** The bytes emitted for `r'. */
  function Code(r: Re): (c: seq<Byte>)
    ensures |c| == Len(r)
    decreases r, 0
  {
    match r
    case Empty => []
    case Ignored(_) => []
    case Dummy => [PUSH_DUMMY_FAILURE]
    case Exact(ts) => [EXACTN, |ts| % 256] + Chars(ts)
    case AnyChar => [ANYCHAR]
    case CharSet(negated, bits) => [if negated then CHARSET_NOT else CHARSET, |bits| % 256] + bits
    case Cat(a, b) => Code(a) + Code(b)
    case Alt(pre, last) => PreCode(pre) + JumpCode(JUMP_PAST_ALT, Len(last)) + Code(last)
    case Group(reg, inner, body) =>
      MemoryCode(START_MEMORY, reg, inner) + GroupBody(body) + MemoryCode(STOP_MEMORY, reg, inner)
    case ZeroOrMore(body, _) => LoopCode(ON_FAILURE_JUMP, body, MAYBE_POP_JUMP, -(Len(body) + 6))
    case OneOrMore(body, _) =>
      JumpCode(DUMMY_FAILURE_JUMP, 3) + LoopCode(ON_FAILURE_JUMP, body, MAYBE_POP_JUMP, -(Len(body) + 6))
    case Optional(body, _) => JumpCode(ON_FAILURE_JUMP, Len(body)) + Code(body)
    case DotLine(body) => LoopCode(ON_FAILURE_KEEP_STRING_JUMP, body, JUMP, -(Len(body) + 3))
  }

  /** Both kinds of loop: a jump to the end, the body, and a jump back. */
  function LoopCode(first: Byte, body: Re, last: Byte, back: int): (c: seq<Byte>)
    ensures |c| == Len(body) + 6
    decreases body, 1
  {
    JumpCode(first, Len(body) + 3) + Code(body) + JumpCode(last, back)
  }

  function GroupBody(body: Re): (c: seq<Byte>)
    ensures |c| == Len(body) + DummyLen(body)
    decreases body, 1
  {
    if body.Alt? then Code(body) + [PUSH_DUMMY_FAILURE] else Code(body)
  }

  /** `l' as leading alternatives, without the last jump past the other alternatives: that one is filled in when
      its destination is known. The jump after each earlier alternative leads to the jump after the next. */
  function PreCode(l: Re): (c: seq<Byte>)
    ensures |c| == PreLen(l) - 3
    decreases l, 1
  {
    if l.Alt? then
      PreCode(l.pre) + JumpCode(JUMP_PAST_ALT, Len(l.last) + 3) + JumpCode(ON_FAILURE_JUMP,
        Len(l.last) + 3) + Code(l.last)
    else
      JumpCode(ON_FAILURE_JUMP, Len(l) + 3) + Code(l)
  }

  predicate Laid(code: seq<Byte>, base: nat, r: Re) {
    At(code, base, Code(r))
  }

  /** A whole compiled pattern. */
  predicate Program(code: seq<Byte>, r: Re, syn: Syntax) {
    code == Code(r) + if syn.noBacktrack then [SUCCEED] else []
  }

  lemma AtSplit(code: seq<Byte>, base: nat, c: seq<Byte>, d: seq<Byte>)
    ensures At(code, base, c + d) <==> At(code, base, c) && At(code, base + |c|, d)
  {
    if At(code, base, c + d) {
      forall k | 0 <= k < |c| ensures c[k] == code[base + k] { assert (c + d)[k] == code[base + k]; }
      forall k | 0 <= k < |d| ensures d[k] == code[base + |c| + k] { assert (c + d)[|c| + k] == code[base + |c| + k]; }
    }
  }

  lemma AtBound(code: seq<Byte>, base: nat, c: seq<Byte>)
    ensures At(code, base, c) ==> base + |c| <= |code|
  {
  }

  lemma AtSplit3(code: seq<Byte>, base: nat, x: seq<Byte>, y: seq<Byte>, z: seq<Byte>)
    ensures At(code, base, x + y + z) <==>
      At(code, base, x) && At(code, base + |x|, y) && At(code, base + |x| + |y|, z)
  {
    AtSplit(code, base, x + y, z);
    AtSplit(code, base, x, y);
  }

  lemma CodeOfCat(a: Re, b: Re)
    ensures Code(Cat(a, b)) == Code(a) + Code(b)
  {
  }

  lemma LaidCat(code: seq<Byte>, base: nat, a: Re, b: Re)
    ensures Laid(code, base, Cat(a, b)) <==> Laid(code, base, a) && Laid(code, base + Len(a), b)
    ensures Laid(code, base, Cat(a, b)) ==> base + Len(a) + Len(b) <= |code|
  {
    hide Code, Len, At;
    CodeOfCat(a, b);
    AtSplit(code, base, Code(a), Code(b));
    AtBound(code, base, Code(a) + Code(b));
  }

  lemma AtLoop(code: seq<Byte>, base: nat, first: Byte, body: Re, last: Byte, back: int)
    ensures At(code, base, LoopCode(first, body, last, back)) <==>
      && JumpAt(code, base, first, Len(body) + 3)
      && Laid(code, base + 3, body)
      && JumpAt(code, base + 3 + Len(body), last, back)
  {
    hide Code, Len, At, Low, High;
    AtSplit3(code, base, JumpCode(first, Len(body) + 3), Code(body), JumpCode(last, back));
  }

  lemma {:induction false} CodeOfZeroOrMore(body: Re, ops: seq<Token>)
    ensures Code(ZeroOrMore(body, ops)) == LoopCode(ON_FAILURE_JUMP, body, MAYBE_POP_JUMP, -(Len(body) + 6))
  {
    hide LoopCode, Low, High;
  }

  lemma {:induction false} CodeOfOneOrMore(body: Re, ops: seq<Token>)
    ensures Code(OneOrMore(body, ops)) ==
      JumpCode(DUMMY_FAILURE_JUMP, 3) + LoopCode(ON_FAILURE_JUMP, body, MAYBE_POP_JUMP, -(Len(body) + 6))
  {
    hide LoopCode, Low, High;
  }

  lemma {:induction false} CodeOfDotLine(body: Re)
    ensures Code(DotLine(body)) == LoopCode(ON_FAILURE_KEEP_STRING_JUMP, body, JUMP, -(Len(body) + 3))
  {
    hide LoopCode, Low, High;
  }

  lemma {:induction false} CodeOfOptional(body: Re, ops: seq<Token>)
    ensures Code(Optional(body, ops)) == JumpCode(ON_FAILURE_JUMP, Len(body)) + Code(body)
  {
    hide Low, High;
  }

  lemma LaidZeroOrMore(code: seq<Byte>, base: nat, body: Re, ops: seq<Token>)
    ensures Laid(code, base, ZeroOrMore(body, ops)) <==>
      && JumpAt(code, base, ON_FAILURE_JUMP, Len(body) + 3)
      && Laid(code, base + 3, body)
      && JumpAt(code, base + 3 + Len(body), MAYBE_POP_JUMP, -(Len(body) + 6))
    ensures Laid(code, base, ZeroOrMore(body, ops)) ==> base + 6 + Len(body) <= |code|
  {
    hide Code, Len, At, LoopCode, Low, High;
    CodeOfZeroOrMore(body, ops);
    AtLoop(code, base, ON_FAILURE_JUMP, body, MAYBE_POP_JUMP, -(Len(body) + 6));
    AtBound(code, base, Code(ZeroOrMore(body, ops)));
  }

  lemma LaidOneOrMore(code: seq<Byte>, base: nat, body: Re, ops: seq<Token>)
    ensures Laid(code, base, OneOrMore(body, ops)) <==>
      && JumpAt(code, base, DUMMY_FAILURE_JUMP, 3)
      && JumpAt(code, base + 3, ON_FAILURE_JUMP, Len(body) + 3)
      && Laid(code, base + 6, body)
      && JumpAt(code, base + 6 + Len(body), MAYBE_POP_JUMP, -(Len(body) + 6))
    ensures Laid(code, base, OneOrMore(body, ops)) ==> base + 9 + Len(body) <= |code|
  {
    hide Code, Len, At, LoopCode, Low, High;
    CodeOfOneOrMore(body, ops);
    AtSplit(code, base, JumpCode(DUMMY_FAILURE_JUMP, 3), LoopCode(ON_FAILURE_JUMP, body, MAYBE_POP_JUMP,
      -(Len(body) + 6)));
    AtLoop(code, base + 3, ON_FAILURE_JUMP, body, MAYBE_POP_JUMP, -(Len(body) + 6));
    AtBound(code, base, Code(OneOrMore(body, ops)));
  }

  lemma LaidOptional(code: seq<Byte>, base: nat, body: Re, ops: seq<Token>)
    ensures Laid(code, base, Optional(body, ops)) <==>
      && JumpAt(code, base, ON_FAILURE_JUMP, Len(body))
      && Laid(code, base + 3, body)
    ensures Laid(code, base, Optional(body, ops)) ==> base + 3 + Len(body) <= |code|
  {
    hide Code, Len, At, Low, High;
    CodeOfOptional(body, ops);
    AtSplit(code, base, JumpCode(ON_FAILURE_JUMP, Len(body)), Code(body));
    AtBound(code, base, Code(Optional(body, ops)));
  }

  lemma LaidDotLine(code: seq<Byte>, base: nat, body: Re)
    ensures Laid(code, base, DotLine(body)) <==>
      && JumpAt(code, base, ON_FAILURE_KEEP_STRING_JUMP, Len(body) + 3)
      && Laid(code, base + 3, body)
      && JumpAt(code, base + 3 + Len(body), JUMP, -(Len(body) + 3))
    ensures Laid(code, base, DotLine(body)) ==> base + 6 + Len(body) <= |code|
  {
    hide Code, Len, At, LoopCode, Low, High;
    CodeOfDotLine(body);
    AtLoop(code, base, ON_FAILURE_KEEP_STRING_JUMP, body, JUMP, -(Len(body) + 3));
    AtBound(code, base, Code(DotLine(body)));
  }

  lemma CodeOfGroup(reg: nat, inner: nat, body: Re)
    ensures Code(Group(reg, inner, body)) ==
      MemoryCode(START_MEMORY, reg, inner) + GroupBody(body) + MemoryCode(STOP_MEMORY, reg, inner)
    ensures GroupBody(body) == if body.Alt? then Code(body) + [PUSH_DUMMY_FAILURE] else Code(body)
  {
  }

  lemma LaidGroup(code: seq<Byte>, base: nat, reg: nat, inner: nat, body: Re)
    ensures Laid(code, base, Group(reg, inner, body)) <==>
      && At(code, base, MemoryCode(START_MEMORY, reg, inner))
      && Laid(code, base + MemoryLen(reg), body)
      && (body.Alt? ==> At(code, base + MemoryLen(reg) + Len(body), [PUSH_DUMMY_FAILURE]))
      && At(code, base + MemoryLen(reg) + Len(body) + DummyLen(body), MemoryCode(STOP_MEMORY, reg, inner))
  {
    hide Code, Len, At, GroupBody, MemoryCode;
    CodeOfGroup(reg, inner, body);
    AtSplit3(code, base, MemoryCode(START_MEMORY, reg, inner), GroupBody(body), MemoryCode(STOP_MEMORY, reg, inner));
    AtSplit(code, base + MemoryLen(reg), Code(body), [PUSH_DUMMY_FAILURE]);
  }

  /** `l' laid out as leading alternatives, its last jump leading `offset' bytes on. */
  predicate LaidPre(code: seq<Byte>, base: nat, l: Re, offset: nat) {
    At(code, base, PreCode(l)) && JumpAt(code, base + PreLen(l) - 3, JUMP_PAST_ALT, offset)
  }

  lemma CodeOfAlt(pre: Re, last: Re)
    ensures Code(Alt(pre, last)) == PreCode(pre) + JumpCode(JUMP_PAST_ALT, Len(last)) + Code(last)
  {
  }

  lemma PreCodeOfAlt(pre: Re, last: Re)
    ensures PreCode(Alt(pre, last)) ==
      PreCode(pre) + JumpCode(JUMP_PAST_ALT, Len(last) + 3) + JumpCode(ON_FAILURE_JUMP, Len(last) + 3) + Code(last)
  {
    hide JumpCode, Len, PreLen, Code;
  }

  lemma LaidAlt(code: seq<Byte>, base: nat, pre: Re, last: Re)
    ensures Laid(code, base, Alt(pre, last)) <==>
      LaidPre(code, base, pre, Len(last)) && Laid(code, base + PreLen(pre), last)
    ensures Laid(code, base, Alt(pre, last)) ==> base + PreLen(pre) + Len(last) <= |code|
  {
    hide Code, Len, At, PreCode, PreLen, Low, High;
    CodeOfAlt(pre, last);
    AtSplit3(code, base, PreCode(pre), JumpCode(JUMP_PAST_ALT, Len(last)), Code(last));
    AtBound(code, base, Code(Alt(pre, last)));
  }

  lemma PreOfAlt(code: seq<Byte>, base: nat, pre: Re, last: Re)
    ensures At(code, base, PreCode(Alt(pre, last))) <==>
      && LaidPre(code, base, pre, Len(last) + 3)
      && JumpAt(code, base + PreLen(pre), ON_FAILURE_JUMP, Len(last) + 3)
      && Laid(code, base + PreLen(pre) + 3, last)
  {
    hide Code, Len, At, PreCode, PreLen, Low, High;
    PreCodeOfAlt(pre, last);
    var x, y := JumpCode(JUMP_PAST_ALT, Len(last) + 3), JumpCode(ON_FAILURE_JUMP, Len(last) + 3);
    AtSplit3(code, base, PreCode(pre) + x, y, Code(last));
    AtSplit(code, base, PreCode(pre), x);
  }

  lemma CodeOfBranch(l: Re)
    requires !l.Alt?
    ensures PreCode(l) == JumpCode(ON_FAILURE_JUMP, Len(l) + 3) + Code(l)
  {
  }

  lemma PreOfBranch(code: seq<Byte>, base: nat, l: Re)
    requires !l.Alt?
    ensures At(code, base, PreCode(l)) <==>
      JumpAt(code, base, ON_FAILURE_JUMP, Len(l) + 3) && Laid(code, base + 3, l)
  {
    hide Code, Len, At, PreCode, PreLen, Low, High;
    CodeOfBranch(l);
    AtSplit(code, base, JumpCode(ON_FAILURE_JUMP, Len(l) + 3), Code(l));
  }

  // ---------- Successors ----------

  predicate IsPlainJump(op: Byte) {
    op == JUMP || op == JUMP_PAST_ALT || op == POP_FAILURE_JUMP || op == MAYBE_POP_JUMP || op == DUMMY_FAILURE_JUMP
  }

  predicate IsFork(op: Byte) {
    op == ON_FAILURE_JUMP || op == ON_FAILURE_KEEP_STRING_JUMP
  }

  /** The bitmap stored after a charset opcode. */
  function BitmapAt(code: seq<Byte>, pc: nat): seq<Byte>
    requires pc < |code|
  {
    var n := Get(code, pc + 1);
    if pc + 2 + n <= |code| then code[pc + 2..pc + 2 + n] else []
  }

  /** The addresses control can go to from the opcode at pc, in the original code. The loop emitted for `.*\n' jumps
      back past its on_failure_keep_string_jump; it may as well go through it, since that does not use the text. */
  predicate Next(code: seq<Byte>, pc: int, pc2: int) {
    && 0 <= pc < |code|
    && var op := code[pc];
       if op == EXACTN || op == CHARSET || op == CHARSET_NOT then pc2 == pc + 2 + Get(code, pc + 1)
       else if op == START_MEMORY || op == STOP_MEMORY then pc2 == pc + 3
       else if IsFork(op) then pc2 == pc + 3 || pc2 == Target(code, pc)
       else if op == JUMP then
         pc2 == Target(code, pc) || (pc2 == Target(code, pc) - 3 && Get(code, pc2) == ON_FAILURE_KEEP_STRING_JUMP)
       else if IsPlainJump(op) then pc2 == Target(code, pc)
       else (op == ANYCHAR || op == PUSH_DUMMY_FAILURE || op == NO_OP) && pc2 == pc + 1
  }
}
