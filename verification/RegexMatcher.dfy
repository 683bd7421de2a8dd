/** re_match_2_internal as it runs: it overwrites each maybe_pop_jump it reaches with its decision, so later rounds, and
    later calls on the same compiled pattern, run on changed code. They all return what the original code would. */
module RegexMatcher {
  import opened Wrappers
  import opened RegexTree
  import opened RegexCode
  import opened RegexPaths
  import opened RegexLayout
  import opened RegexMachine
  import opened RegexSoundness

  /** What the maybe_pop_jump at k becomes. */
  function Decision(code: seq<Byte>, k: nat): Byte {
    if Pops(code, k) then POP_FAILURE_JUMP else JUMP
  }

  predicate ByteDecided(c0: seq<Byte>, r: Re, k: nat, b: Byte)
    requires k < |c0|
  {
    b == c0[k] || (c0[k] == MAYBE_POP_JUMP && Depth(r, 0, k) >= 0 && b == Decision(c0, k))
  }

  /** `c' is the code c0 of `r' with some of its maybe_pop_jumps decided. */
  predicate Decided(c0: seq<Byte>, c: seq<Byte>, r: Re) {
    |c| == |c0| && forall k :: 0 <= k < |c0| ==> ByteDecided(c0, r, k, c[k])
  }

  ghost predicate Boundary(r: Re, p: int) {
    0 <= p <= Len(r) && Depth(r, 0, p) >= 0
  }

  ghost predicate PlacesOk(r: Re, stack: seq<FailPoint>) {
    forall k :: 0 <= k < |stack| && stack[k].place.Some? ==> Boundary(r, stack[k].place.value)
  }

  /** Every test for an opcode the decisions do not involve comes out the same. */
  lemma SameTest(c0: seq<Byte>, c: seq<Byte>, r: Re, k: int, op: Byte)
    requires Decided(c0, c, r) && op != MAYBE_POP_JUMP && op != POP_FAILURE_JUMP && op != JUMP
    ensures Get(c, k) == op <==> Get(c0, k) == op
    ensures IsBackJump(Get(c, k)) <==> IsBackJump(Get(c0, k))
  {
    hide Pops, Depth;
    if 0 <= k < |c0| { assert ByteDecided(c0, r, k, c[k]); }
  }

  /** The bytes after an opcode are never overwritten. */
  lemma SameOperand(job: Job, r: Re, nsub: nat, c: seq<Byte>, q: int, k: int)
    requires Compiled(job, r, nsub) && Decided(job.code, c, r)
    requires Boundary(r, q) && q < Len(r) && q < k < q + OpLen(job.code, q)
    ensures Get(c, k) == Get(job.code, k) && k < Len(r)
  {
    hide Pops, Depth, Len, OpLen, Sized, RegsWithin, Program, PlainDotLines;
    LaidProgram(job, r, nsub);
    Opcode(job.code, r, 0, q, nsub, k);
    assert ByteDecided(job.code, r, k, c[k]);
  }

  lemma OpLens(code: seq<Byte>, q: int)
    ensures var op := Get(code, q);
            && (op == EXACTN || op == CHARSET || op == CHARSET_NOT ==> OpLen(code, q) == 2 + Get(code, q + 1))
            && (op == START_MEMORY || op == STOP_MEMORY || IsFork(op) || IsPlainJump(op) ==> OpLen(code, q) == 3)
  {
  }

  lemma SameTarget(job: Job, r: Re, nsub: nat, c: seq<Byte>, q: int)
    requires Compiled(job, r, nsub) && Decided(job.code, c, r)
    requires Boundary(r, q) && q < Len(r)
    requires var op := Get(job.code, q); op == START_MEMORY || op == STOP_MEMORY || IsFork(op) || IsPlainJump(op)
    ensures Get(c, q + 1) == Get(job.code, q + 1) && Get(c, q + 2) == Get(job.code, q + 2)
    ensures Target(c, q) == Target(job.code, q) && Offset(c, q) == Offset(job.code, q)
  {
    hide Compiled, Decided, Depth, Len, OpLen;
    OpLens(job.code, q);
    SameOperand(job, r, nsub, c, q, q + 1);
    SameOperand(job, r, nsub, c, q, q + 2);
  }

  /** Control that is at the end of the tree's code finds a succeed or nothing there. */
  lemma EndOp(job: Job, r: Re, nsub: nat, p: int)
    requires Compiled(job, r, nsub) && Boundary(r, p)
    ensures p <= |job.code|
    ensures p == Len(r) ==> Get(job.code, p) == SUCCEED || Get(job.code, p) == NO_OP
    ensures p == Len(r) && p < |job.code| ==> job.code[p] == SUCCEED
  {
    hide Depth, Len;
    LaidProgram(job, r, nsub);
  }

  lemma {:induction false} SameFail(job: Job, r: Re, nsub: nat, c: seq<Byte>, s: State)
    requires Compiled(job, r, nsub) && Decided(job.code, c, r) && PlacesOk(r, s.stack)
    ensures Fail(job.(code := c), s) == Fail(job, s)
    decreases |s.stack|
  {
    hide Compiled, Boundary, SavedRegs, RestoredRegs, Decided;
    if s.stack != [] {
      var rest := s.stack[..|s.stack| - 1];
      var pt := s.stack[|s.stack| - 1];
      var popped := s.(stack := rest, d := if pt.str.Some? then pt.str.value else s.d,
                       low := pt.low, high := pt.high, info := RestoredRegs(s.info, pt), done := false);
      if pt.place.None? {
        SameFail(job, r, nsub, c, popped);
      } else {
        var p := pt.place.value;
        SameBackJump(job, r, nsub, c, p);
        SameFail(job, r, nsub, c, popped.(p := p));
      }
    }
  }

  lemma SameBackJump(job: Job, r: Re, nsub: nat, c: seq<Byte>, p: nat)
    requires Compiled(job, r, nsub) && Decided(job.code, c, r) && Boundary(r, p)
    ensures |c| == |job.code|
    ensures p < |c| ==>
      (IsBackJump(c[p]) && Get(c, Target(c, p)) == ON_FAILURE_JUMP <==>
       IsBackJump(job.code[p]) && Get(job.code, Target(job.code, p)) == ON_FAILURE_JUMP)
  {
    hide Compiled, Depth, Len, Target, ByteDecided;
    if p < |c| {
      SameTest(job.code, c, r, p, ON_FAILURE_JUMP);
      EndOp(job, r, nsub, p);
      if IsBackJump(job.code[p]) {
        SameTarget(job, r, nsub, c, p);
        SameTest(job.code, c, r, Target(c, p), ON_FAILURE_JUMP);
      }
    }
  }

  // ---------- The decision itself ----------

  /** What is skipped after a loop is skipped from one boundary to the next. */
  lemma {:induction false} SameSkip(job: Job, r: Re, nsub: nat, c: seq<Byte>, p2: nat)
    requires Compiled(job, r, nsub) && Decided(job.code, c, r) && Boundary(r, p2)
    ensures SkipGroups(c, p2) == SkipGroups(job.code, p2) && Boundary(r, SkipGroups(job.code, p2))
    decreases |job.code| - p2
  {
    hide Compiled, Boundary, Decided, Next;
    assert |c| == |job.code| by { SameLength(job.code, c, r); }
    if p2 + 2 < |job.code| {
      assert c[p2] == Get(c, p2) && job.code[p2] == Get(job.code, p2);
      SameTest(job.code, c, r, p2, START_MEMORY);
      SameTest(job.code, c, r, p2, STOP_MEMORY);
      SameTest(job.code, c, r, p2, DUMMY_FAILURE_JUMP);
      if job.code[p2] == STOP_MEMORY || job.code[p2] == START_MEMORY {
        AfterGroupOp(job, r, nsub, p2);
        SameSkip(job, r, nsub, c, p2 + 3);
      } else if p2 + 6 < |job.code| && job.code[p2] == DUMMY_FAILURE_JUMP {
        AfterPlus(job, r, nsub, p2);
        SameSkip(job, r, nsub, c, p2 + 6);
      }
    }
  }

  lemma SameLength(c0: seq<Byte>, c: seq<Byte>, r: Re)
    requires Decided(c0, c, r)
    ensures |c| == |c0|
  {
  }

  lemma BoundaryMove(job: Job, r: Re, nsub: nat, p: int, p2: int)
    requires Compiled(job, r, nsub) && Boundary(r, p) && p < Len(r) && Next(job.code, p, p2)
    ensures Boundary(r, p2)
  {
    hide Depth, Len, Next, Program, Sized, RegsWithin, PlainDotLines, Laid;
    LaidProgram(job, r, nsub);
    NextBoundary(job.code, r, 0, p, p2);
    DepthBounds(r, 0, p2);
  }

  lemma AfterGroupOp(job: Job, r: Re, nsub: nat, p: nat)
    requires Compiled(job, r, nsub) && Boundary(r, p) && p < |job.code|
    requires job.code[p] == STOP_MEMORY || job.code[p] == START_MEMORY
    ensures Boundary(r, p + 3)
  {
    hide Compiled, Boundary;
    EndOp(job, r, nsub, p);
    assert p < Len(r) by { hide Len, Depth; InCode(job, r, nsub, p); }
    BoundaryMove(job, r, nsub, p, p + 3);
  }

  lemma InCode(job: Job, r: Re, nsub: nat, p: nat)
    requires Compiled(job, r, nsub) && Boundary(r, p) && p < |job.code| && job.code[p] != SUCCEED
    ensures p < Len(r)
  {
    hide Compiled, Len, Depth;
    EndOp(job, r, nsub, p);
  }

  lemma AfterPlus(job: Job, r: Re, nsub: nat, p: nat)
    requires Compiled(job, r, nsub) && Boundary(r, p) && p < |job.code| && job.code[p] == DUMMY_FAILURE_JUMP
    ensures Boundary(r, p + 6)
  {
    hide Compiled, Boundary;
    InCode(job, r, nsub, p);
    PlusTarget(job, r, nsub, p);
    BoundaryMove(job, r, nsub, p, p + 6);
  }

  lemma PlusTarget(job: Job, r: Re, nsub: nat, p: nat)
    requires Compiled(job, r, nsub) && Boundary(r, p) && p < Len(r) && p < |job.code|
    requires job.code[p] == DUMMY_FAILURE_JUMP
    ensures Target(job.code, p) == p + 6
  {
    hide Depth, Len, OpLen, Program, Sized, RegsWithin, PlainDotLines, Laid;
    LaidProgram(job, r, nsub);
    Opcode(job.code, r, 0, p, nsub, 0);
  }

  /** The literal or charset at a boundary reads the same. */
  lemma SameItem(job: Job, r: Re, nsub: nat, c: seq<Byte>, q: int, k: int)
    requires Compiled(job, r, nsub) && Decided(job.code, c, r) && Boundary(r, q)
    requires var op := Get(job.code, q); op == EXACTN || op == CHARSET || op == CHARSET_NOT
    requires q < k < q + 2 + Get(job.code, q + 1)
    ensures Get(c, k) == Get(job.code, k)
  {
    hide Compiled, Decided, Depth, Len, OpLen;
    EndOp(job, r, nsub, q);
    OpLens(job.code, q);
    SameOperand(job, r, nsub, c, q, k);
  }

  lemma ItemCount(job: Job, r: Re, nsub: nat, c: seq<Byte>, q: int)
    requires Compiled(job, r, nsub) && Decided(job.code, c, r) && Boundary(r, q)
    requires var op := Get(job.code, q); op == EXACTN || op == CHARSET || op == CHARSET_NOT
    ensures Get(c, q + 1) == Get(job.code, q + 1)
    ensures Get(job.code, q) == EXACTN ==> Get(job.code, q + 1) >= 1
  {
    hide Compiled, Decided, Depth, Len, OpLen, OpcodeOk;
    SameItem(job, r, nsub, c, q, q + 1);
    EndOp(job, r, nsub, q);
    if Get(job.code, q) == EXACTN { ExactCount(job, r, nsub, q); }
  }

  lemma ExactCount(job: Job, r: Re, nsub: nat, q: int)
    requires Compiled(job, r, nsub) && Boundary(r, q) && q < Len(r) && Get(job.code, q) == EXACTN
    ensures Get(job.code, q + 1) >= 1
  {
    hide Depth, Len, OpLen, Program, Sized, RegsWithin, PlainDotLines, Laid;
    LaidProgram(job, r, nsub);
    Opcode(job.code, r, 0, q, nsub, 0);
  }

  lemma SameTests(c0: seq<Byte>, c: seq<Byte>, r: Re, k: int)
    requires Decided(c0, c, r)
    ensures Get(c, k) == EXACTN <==> Get(c0, k) == EXACTN
    ensures Get(c, k) == CHARSET <==> Get(c0, k) == CHARSET
    ensures Get(c, k) == CHARSET_NOT <==> Get(c0, k) == CHARSET_NOT
  {
    hide Decided;
    SameTest(c0, c, r, k, EXACTN);
    SameTest(c0, c, r, k, CHARSET);
    SameTest(c0, c, r, k, CHARSET_NOT);
  }

  lemma SameChar(job: Job, r: Re, nsub: nat, c: seq<Byte>, p1: int, ch: Byte)
    requires Compiled(job, r, nsub) && Decided(job.code, c, r) && Boundary(r, p1 + 3)
    ensures CannotMatchChar(c, p1, ch) == CannotMatchChar(job.code, p1, ch)
  {
    hide Compiled, Decided, Boundary, Get, Bit;
    SameTests(job.code, c, r, p1 + 3);
    var body := Get(job.code, p1 + 3);
    if body == EXACTN || body == CHARSET || body == CHARSET_NOT {
      ItemCount(job, r, nsub, c, p1 + 3);
      if body == EXACTN { SameItem(job, r, nsub, c, p1 + 3, p1 + 5); }
      else if ch < (Get(job.code, p1 + 4) * 8) % 256 {
        InWidth(ch, Get(job.code, p1 + 4));
        SameItem(job, r, nsub, c, p1 + 3, p1 + 5 + ch / 8);
      }
    }
  }

  lemma InWidth(ch: Byte, n: Byte)
    requires ch < (n * 8) % 256
    ensures ch / 8 < n
  {
  }

  lemma SameSet(job: Job, r: Re, nsub: nat, c: seq<Byte>, p1: int, p2: int)
    requires Compiled(job, r, nsub) && Decided(job.code, c, r) && Boundary(r, p1 + 3) && Boundary(r, p2)
    requires Get(job.code, p2) == CHARSET
    ensures CannotMatchSet(c, p1, p2) == CannotMatchSet(job.code, p1, p2)
  {
    hide Compiled, Decided, Boundary, Get, Bit, ByteExcluded, ByteDisjoint;
    SameTests(job.code, c, r, p1 + 3);
    ItemCount(job, r, nsub, c, p2);
    var body := Get(job.code, p1 + 3);
    var width: int := Get(job.code, p2 + 1);
    if body == EXACTN || body == CHARSET || body == CHARSET_NOT {
      ItemCount(job, r, nsub, c, p1 + 3);
      var width1: int := Get(job.code, p1 + 4);
      if body == EXACTN {
        if width * 8 > width1 { SameItem(job, r, nsub, c, p2, p2 + 2 + width1 / 8); }
      } else {
        forall k: nat | k < width
          ensures body == CHARSET_NOT ==> ByteExcluded(c, p1, p2, k) == ByteExcluded(job.code, p1, p2, k)
          ensures k < width1 ==> ByteDisjoint(c, p1, p2, k) == ByteDisjoint(job.code, p1, p2, k)
        {
          SameByte(job, r, nsub, c, p1, p2, k);
        }
      }
    }
  }

  lemma SameByte(job: Job, r: Re, nsub: nat, c: seq<Byte>, p1: int, p2: int, k: nat)
    requires Compiled(job, r, nsub) && Decided(job.code, c, r) && Boundary(r, p1 + 3) && Boundary(r, p2)
    requires Get(job.code, p2) == CHARSET && k < Get(job.code, p2 + 1)
    requires var body := Get(job.code, p1 + 3); body == CHARSET || body == CHARSET_NOT
    ensures ByteExcluded(c, p1, p2, k) == ByteExcluded(job.code, p1, p2, k)
    ensures k < Get(job.code, p1 + 4) ==> ByteDisjoint(c, p1, p2, k) == ByteDisjoint(job.code, p1, p2, k)
  {
    hide Compiled, Decided, Boundary, Get, Bit;
    SameItem(job, r, nsub, c, p2, p2 + 2 + k);
    ItemCount(job, r, nsub, c, p1 + 3);
    if k < Get(job.code, p1 + 4) { SameItem(job, r, nsub, c, p1 + 3, p1 + 5 + k); }
  }

  /** The loop a maybe_pop_jump ends: its head, its body and what follows it start at boundaries. */
  lemma LoopBoundaries(job: Job, r: Re, nsub: nat, pc: nat)
    requires Compiled(job, r, nsub) && Boundary(r, pc) && pc < Len(r) && Get(job.code, pc) == MAYBE_POP_JUMP
    ensures var head := Target(job.code, pc);
            Boundary(r, head) && Boundary(r, head + 3) && Boundary(r, pc + 3)
  {
    hide Compiled, Depth, Len, OpLen, OpcodeOk, Target, Get;
    LoopFact(job, r, nsub, pc);
    var head := Target(job.code, pc);
    NextAfterJump(job.code, pc, head);
    BoundaryMove(job, r, nsub, pc, head);
    assert head < Len(r);
    NextAfterFork(job.code, head);
    BoundaryMove(job, r, nsub, head, head + 3);
    BoundaryMove(job, r, nsub, head, pc + 3);
  }

  lemma LoopFact(job: Job, r: Re, nsub: nat, pc: nat)
    requires Compiled(job, r, nsub) && Boundary(r, pc) && pc < Len(r) && Get(job.code, pc) == MAYBE_POP_JUMP
    ensures LoopEnd(job.code, pc) && pc < |job.code|
  {
    hide Depth, Len, OpLen, Program, Sized, RegsWithin, PlainDotLines, Laid;
    LaidProgram(job, r, nsub);
    Opcode(job.code, r, 0, pc, nsub, 0);
  }

  lemma NextAfterJump(code: seq<Byte>, pc: nat, to: int)
    requires pc < |code| && Get(code, pc) == MAYBE_POP_JUMP && to == Target(code, pc)
    ensures Next(code, pc, to)
  {
  }

  lemma NextAfterFork(code: seq<Byte>, pc: int)
    requires Get(code, pc) == ON_FAILURE_JUMP
    ensures Next(code, pc, pc + 3) && Next(code, pc, Target(code, pc))
  {
  }

  /** The decision is the same whichever of the jumps have been overwritten. */
  lemma SamePops(job: Job, r: Re, nsub: nat, c: seq<Byte>, pc: nat)
    requires Compiled(job, r, nsub) && Decided(job.code, c, r)
    requires Boundary(r, pc) && pc < Len(r) && Get(job.code, pc) == MAYBE_POP_JUMP
    ensures Pops(c, pc) == Pops(job.code, pc)
  {
    hide Compiled, Decided, Depth, Len, Target, Get, CannotMatchChar, CannotMatchSet;
    LoopBoundaries(job, r, nsub, pc);
    SameTarget(job, r, nsub, c, pc);
    SameSkip(job, r, nsub, c, pc + 3);
    SameLength(job.code, c, r);
    var p2, p1 := SkipGroups(job.code, pc + 3), Target(job.code, pc);
    SameTests(job.code, c, r, p2);
    if Get(job.code, p2) == EXACTN {
      ItemCount(job, r, nsub, c, p2);
      SameItem(job, r, nsub, c, p2, p2 + 2);
      SameChar(job, r, nsub, c, p1, Get(job.code, p2 + 2));
    } else if Get(job.code, p2) == CHARSET {
      SameSet(job, r, nsub, c, p1, p2);
    }
  }

  // ---------- One round ----------

  /** The same call on code with decisions made. */
  function OnCode(job: Job, c: seq<Byte>): Job { job.(code := c) }

  /** The code after the opcode at p has been looked at: a maybe_pop_jump is overwritten before it is obeyed. */
  function Decide(c: seq<Byte>, p: nat): seq<Byte> {
    if p < |c| && c[p] == MAYBE_POP_JUMP then c[p := Decision(c, p)] else c
  }

  lemma DecideDecides(job: Job, r: Re, nsub: nat, c: seq<Byte>, p: nat)
    requires Compiled(job, r, nsub) && Decided(job.code, c, r) && Boundary(r, p)
    ensures Decided(job.code, Decide(c, p), r)
    ensures p < |job.code| && job.code[p] == MAYBE_POP_JUMP ==> Decide(c, p)[p] == Decision(job.code, p)
  {
    hide Compiled, Pops, Depth, Len;
    if p < |job.code| {
      assert ByteDecided(job.code, r, p, c[p]);
      if job.code[p] == MAYBE_POP_JUMP {
        InCode(job, r, nsub, p);
        SamePops(job, r, nsub, c, p);
      }
    }
  }

  lemma PlacesOfInv(job: Job, r: Re, nsub: nat, s: State)
    requires Compiled(job, r, nsub) && Inv(job, r, nsub, s)
    ensures PlacesOk(r, s.stack) && Boundary(r, s.p)
  {
    hide Compiled, Depth, Len, Inside, RegsOk;
    var n := |s.stack|;
    if !StackOk(job, r, nsub, s.stack) {
      forall k | 0 <= k < n && s.stack[k].place.Some? ensures Boundary(r, s.stack[k].place.value) {
        if k < n - 1 { assert PointOk(job, r, nsub, s.stack[..n - 1][k], k); }
        else { KeptPlace(job, r, nsub, s.stack[k].place.value - 7); }
      }
    } else {
      forall k | 0 <= k < n && s.stack[k].place.Some? ensures Boundary(r, s.stack[k].place.value) {
        assert PointOk(job, r, nsub, s.stack[k], k);
      }
    }
  }

  lemma KeptPlace(job: Job, r: Re, nsub: nat, q: int)
    requires Compiled(job, r, nsub) && q >= 0 && Depth(r, 0, q) >= 0
    requires Get(job.code, q) == ON_FAILURE_KEEP_STRING_JUMP && Target(job.code, q) == q + 7
    ensures Boundary(r, q + 7)
  {
    hide Compiled, Depth, Len, Target;
    DepthBounds(r, 0, q);
    EndOp(job, r, nsub, q);
    BoundaryMove(job, r, nsub, q, q + 7);
  }

  lemma {:induction false} SameCompare(g: Input, c0: seq<Byte>, c: seq<Byte>, q: int, d: nat, n: nat)
    requires forall k :: q <= k < q + n ==> Get(c, k) == Get(c0, k)
    ensures Compare(g, c, q, d, n) == Compare(g, c0, q, d, n)
    decreases n
  {
    if n != 0 { SameCompare(g, c0, c, q + 1, d + 1, n - 1); }
  }

  lemma SameExact(job: Job, r: Re, nsub: nat, c: seq<Byte>, s: State)
    requires Compiled(job, r, nsub) && Decided(job.code, c, r) && Boundary(r, s.p) && PlacesOk(r, s.stack)
    requires Get(job.code, s.p) == EXACTN
    ensures StepExact(OnCode(job, c), s) == StepExact(job, s)
  {
    hide Compiled, Decided, Boundary, Get, Compare, Fail, SetRegsMatched;
    ItemCount(job, r, nsub, c, s.p);
    var n := Get(job.code, s.p + 1);
    forall k | s.p + 2 <= k < s.p + 2 + n ensures Get(c, k) == Get(job.code, k) { SameItem(job, r, nsub, c, s.p, k); }
    SameCompare(job.g, job.code, c, s.p + 2, s.d, n);
    var (ok, d) := Compare(job.g, job.code, s.p + 2, s.d, n);
    SameFail(job, r, nsub, c, s.(d := d));
  }

  lemma SameBitmap(job: Job, r: Re, nsub: nat, c: seq<Byte>, p: nat)
    requires Compiled(job, r, nsub) && Decided(job.code, c, r) && Boundary(r, p) && p < |job.code|
    requires job.code[p] == CHARSET || job.code[p] == CHARSET_NOT
    ensures BitmapAt(c, p) == BitmapAt(job.code, p) && Get(c, p + 1) == Get(job.code, p + 1)
  {
    hide Compiled, Decided, Boundary;
    SameLength(job.code, c, r);
    ItemCount(job, r, nsub, c, p);
    var n := Get(job.code, p + 1);
    if p + 2 + n <= |c| {
      forall k | p + 2 <= k < p + 2 + n ensures c[k] == job.code[k] {
        SameItem(job, r, nsub, c, p, k);
      }
    }
  }

  lemma SameStepSet(job: Job, r: Re, nsub: nat, c: seq<Byte>, s: State)
    requires Compiled(job, r, nsub) && Decided(job.code, c, r) && Boundary(r, s.p) && PlacesOk(r, s.stack)
    requires s.p < |job.code| == |c|
    requires job.code[s.p] == CHARSET || job.code[s.p] == CHARSET_NOT
    ensures StepSet(OnCode(job, c), s) == StepSet(job, s)
  {
    hide Compiled, Decided, Boundary, BitmapAt, Fail, SetRegsMatched, SetAccepts, ByteDecided;
    SameBitmap(job, r, nsub, c, s.p);
    SameTests(job.code, c, r, s.p);
    SameFail(job, r, nsub, c, s);
  }

  lemma SameMemory(job: Job, r: Re, nsub: nat, c: seq<Byte>, p: nat)
    requires Compiled(job, r, nsub) && Decided(job.code, c, r) && Boundary(r, p) && p < |job.code|
    requires job.code[p] == START_MEMORY || job.code[p] == STOP_MEMORY
    ensures Get(c, p + 1) == Get(job.code, p + 1) && Get(c, p + 2) == Get(job.code, p + 2)
  {
    hide Compiled, Decided, Boundary, Target, Offset;
    InCode(job, r, nsub, p);
    SameTarget(job, r, nsub, c, p);
  }

  lemma SameLoopHead(job: Job, r: Re, nsub: nat, c: seq<Byte>, pc: nat)
    requires Compiled(job, r, nsub) && Decided(job.code, c, r) && Boundary(r, pc) && pc < |job.code|
    requires job.code[pc] == STOP_MEMORY
    ensures LoopHead(c, pc) == LoopHead(job.code, pc)
    ensures LoopHead(job.code, pc).Some? ==>
      var head := LoopHead(job.code, pc).value;
      Boundary(r, head) && head < Len(r) && Get(job.code, head) == ON_FAILURE_JUMP
  {
    hide Compiled, Decided, Len, Depth, Target, Offset, Get;
    SameMemory(job, r, nsub, c, pc);
    AfterGroupOp(job, r, nsub, pc);
    SameTest(job.code, c, r, pc + 3, DUMMY_FAILURE_JUMP);
    var op := Get(job.code, pc + 3);
    EndOp(job, r, nsub, pc + 3);
    if IsBackJump(op) || op == DUMMY_FAILURE_JUMP {
      SameTarget(job, r, nsub, c, pc + 3);
      var p1 := Target(job.code, pc + 3);
      SameTest(job.code, c, r, p1, ON_FAILURE_JUMP);
      if Get(job.code, p1) == ON_FAILURE_JUMP && p1 >= 0 {
        JumpLands(job, r, nsub, pc + 3);
        EndOp(job, r, nsub, p1);
        NextAfterFork(job.code, p1);
        BoundaryMove(job, r, nsub, p1, p1 + 3);
        SameTest(job.code, c, r, p1 + 3, START_MEMORY);
        if Get(job.code, p1 + 3) == START_MEMORY {
          EndOp(job, r, nsub, p1 + 3);
          SameTarget(job, r, nsub, c, p1 + 3);
        }
      }
    }
  }

  lemma JumpLands(job: Job, r: Re, nsub: nat, p: nat)
    requires Compiled(job, r, nsub) && Boundary(r, p) && p < Len(r)
    requires var op := Get(job.code, p); IsPlainJump(op)
    ensures Boundary(r, Target(job.code, p))
  {
    hide Compiled, Len, Depth, Target;
    EndOp(job, r, nsub, p);
    BoundaryMove(job, r, nsub, p, Target(job.code, p));
  }

  lemma SameStop(job: Job, r: Re, nsub: nat, c: seq<Byte>, s: State)
    requires Compiled(job, r, nsub) && Decided(job.code, c, r) && Boundary(r, s.p) && PlacesOk(r, s.stack)
    requires s.p < |job.code| == |c| && job.code[s.p] == STOP_MEMORY
    ensures StepStop(OnCode(job, c), s) == StepStop(job, s)
  {
    hide Compiled, Decided, Len, Depth, Target, LoopHead, Fail, SavedRegs, HighestActive, IsMatched;
    SameMemory(job, r, nsub, c, s.p);
    SameLoopHead(job, r, nsub, c, s.p);
    var head := LoopHead(job.code, s.p);
    if head.Some? {
      SameTarget(job, r, nsub, c, head.value);
      var exit := Target(job.code, head.value);
      var stopped := Stopped(s, Get(job.code, s.p + 1));
      if exit >= 0 {
        EndOp(job, r, nsub, head.value);
        NextAfterFork(job.code, head.value);
        BoundaryMove(job, r, nsub, head.value, exit);
        var pushed := Push(job, stopped, Some(exit), Some(s.d));
        if pushed.Running? { SameFail(job, r, nsub, c, pushed.s); }
      }
    }
  }

  lemma {:induction false} SameNoOps(job: Job, r: Re, c: seq<Byte>, p: nat)
    requires Decided(job.code, c, r)
    ensures SkipNoOps(c, p) == SkipNoOps(job.code, p)
    decreases |job.code| - p
  {
    hide ByteDecided;
    if p < |c| {
      SameTest(job.code, c, r, p, NO_OP);
      if c[p] == NO_OP { SameNoOps(job, r, c, p + 1); }
    }
  }

  lemma NotNoOp(job: Job, r: Re, nsub: nat, p: nat)
    requires Compiled(job, r, nsub) && Boundary(r, p)
    ensures SkipNoOps(job.code, p) == p
  {
    hide Depth, Len, OpLen, Program, Sized, RegsWithin, PlainDotLines, Laid;
    LaidProgram(job, r, nsub);
    if p < Len(r) { Opcode(job.code, r, 0, p, nsub, 0); }
  }

  lemma SameFork(job: Job, r: Re, nsub: nat, c: seq<Byte>, s: State)
    requires Compiled(job, r, nsub) && Decided(job.code, c, r) && Boundary(r, s.p)
    requires s.p < |job.code| == |c| && job.code[s.p] == ON_FAILURE_JUMP
    ensures StepOnFailure(OnCode(job, c), s) == StepOnFailure(job, s)
  {
    hide Compiled, Decided, Len, Depth, Target, SavedRegs, SkipNoOps, Get;
    InCode(job, r, nsub, s.p);
    GetIs(job.code, s.p);
    SameTarget(job, r, nsub, c, s.p);
    NextAfterFork(job.code, s.p);
    BoundaryMove(job, r, nsub, s.p, s.p + 3);
    SameNoOps(job, r, c, s.p + 3);
    NotNoOp(job, r, nsub, s.p + 3);
    SameTest(job.code, c, r, s.p + 3, START_MEMORY);
    if Get(job.code, s.p + 3) == START_MEMORY {
      EndOp(job, r, nsub, s.p + 3);
      SameTarget(job, r, nsub, c, s.p + 3);
    }
  }

  lemma GetIs(code: seq<Byte>, p: nat)
    requires p < |code|
    ensures Get(code, p) == code[p]
  {
  }

  lemma SameEnd(job: Job, r: Re, nsub: nat, c: seq<Byte>, s: State)
    requires Compiled(job, r, nsub) && Decided(job.code, c, r) && PlacesOk(r, s.stack)
    ensures StepEnd(OnCode(job, c), s) == StepEnd(job, s)
  {
    hide Compiled, Decided, Boundary, Fail;
    SameFail(job, r, nsub, c, s.(best := if s.best.None? || s.d > s.best.value then Some(s.d) else s.best));
  }

  /** An opcode that is not a maybe_pop_jump is obeyed the same way on the changed code. */
  lemma SameStep(job: Job, r: Re, nsub: nat, c: seq<Byte>, s: State)
    requires Compiled(job, r, nsub) && Decided(job.code, c, r) && Boundary(r, s.p) && PlacesOk(r, s.stack)
    requires s.p < |job.code| ==> job.code[s.p] != MAYBE_POP_JUMP
    ensures Step(OnCode(job, c), s) == Step(job, s)
  {
    hide Compiled, Decided, Boundary, Fail, SavedRegs, StepEnd, StepExact, StepSet, StepStop, StepOnFailure, Pops,
         Target, PlacesOk;
    SameLength(job.code, c, r);
    if s.p == |job.code| { SameEnd(job, r, nsub, c, s); }
    else if s.p < |job.code| {
      SameByteAt(job.code, c, r, s.p);
      var op := job.code[s.p];
      GetIs(job.code, s.p);
      if op == EXACTN { SameExact(job, r, nsub, c, s); }
      else if op == ANYCHAR { SameFail(job, r, nsub, c, s); }
      else if op == CHARSET || op == CHARSET_NOT { SameStepSet(job, r, nsub, c, s); }
      else if op == START_MEMORY { SameMemory(job, r, nsub, c, s.p); }
      else if op == STOP_MEMORY { SameStop(job, r, nsub, c, s); }
      else if op == ON_FAILURE_JUMP { SameFork(job, r, nsub, c, s); }
      else if IsPlainJump(op) || IsFork(op) { InCode(job, r, nsub, s.p); SameTarget(job, r, nsub, c, s.p); }
    }
  }

  lemma SameByteAt(c0: seq<Byte>, c: seq<Byte>, r: Re, p: nat)
    requires Decided(c0, c, r) && p < |c0| && c0[p] != MAYBE_POP_JUMP
    ensures c[p] == c0[p]
  {
    assert ByteDecided(c0, r, p, c[p]);
  }

  /** A decided jump does what the maybe_pop_jump in its place would. */
  lemma DecidedStep(job: Job, r: Re, nsub: nat, c: seq<Byte>, s: State)
    requires Compiled(job, r, nsub) && Decided(job.code, c, r) && Boundary(r, s.p)
    requires s.p < |job.code| == |c| && job.code[s.p] == MAYBE_POP_JUMP && c[s.p] == Decision(job.code, s.p)
    ensures Step(OnCode(job, c), s) == Step(job, s)
  {
    hide Compiled, Decided, Boundary, Pops, Target;
    InCode(job, r, nsub, s.p);
    GetIs(job.code, s.p);
    SameTarget(job, r, nsub, c, s.p);
  }

  /** One round on the code as it is, after the opcode's decision, is one round on the original code. */
  lemma RoundSame(job: Job, r: Re, nsub: nat, c: seq<Byte>, s: State)
    requires Compiled(job, r, nsub) && Decided(job.code, c, r) && Inv(job, r, nsub, s)
    ensures Decided(job.code, Decide(c, s.p), r)
    ensures Step(OnCode(job, Decide(c, s.p)), s) == Step(job, s)
  {
    hide Compiled, Decided, Boundary, Inv, Step, Decide, PlacesOk;
    PlacesOfInv(job, r, nsub, s);
    DecideDecides(job, r, nsub, c, s.p);
    SameLength(job.code, Decide(c, s.p), r);
    if s.p < |job.code| && job.code[s.p] == MAYBE_POP_JUMP {
      DecidedStep(job, r, nsub, Decide(c, s.p), s);
    } else {
      SameStep(job, r, nsub, Decide(c, s.p), s);
    }
  }

  /** The matching loop, on a buffer it changes. Whatever earlier calls have overwritten, the answer is that of the
      original code c0, and only decisions are written. */
  method ReMatch(code: array<Byte>, g: Input, pos: nat, limit: nat, nsub: nat, rounds: nat, ghost c0: seq<Byte>,
          ghost r: Re)
    returns (o: Outcome)
    requires Program(c0, r, g.syn) && Sized(r) && RegsWithin(r, nsub) && PlainDotLines(r) && |c0| < MAX_OFFSET_CODE
    requires Decided(c0, code[..], r)
    modifies code
    ensures Decided(c0, code[..], r)
    ensures o == Match(Job(g, c0, pos, limit), nsub, rounds)
  {
    hide Program, Sized, RegsWithin, PlainDotLines, Decided, Inv, Step, Initial, Pops;
    ghost var job := Job(g, c0, pos, limit);
    if pos > |g.text| { return Finished(-1); }
    var s := Initial(Job(g, code[..], pos, limit), nsub);
    SameInitial(job, code[..], nsub);
    InitialInv(job, r, nsub);
    var left := rounds;
    while left > 0
      invariant 0 <= left <= rounds && Decided(c0, code[..], r) && Inv(job, r, nsub, s)
      invariant Match(job, nsub, rounds) == Run(job, s, left)
    {
      ghost var c := code[..];
      RoundSame(job, r, nsub, c, s);
      if s.p < code.Length && code[s.p] == MAYBE_POP_JUMP {
        code[s.p] := if Pops(code[..], s.p) then POP_FAILURE_JUMP else JUMP;
      }
      assert code[..] == Decide(c, s.p);
      StepGood(job, r, nsub, s);
      o := Step(Job(g, code[..], pos, limit), s);
      if !o.Running? { return; }
      s := o.s;
      left := left - 1;
    }
    o := Running(s);
  }

  lemma SameInitial(job: Job, c: seq<Byte>, nsub: nat)
    ensures Initial(OnCode(job, c), nsub) == Initial(job, nsub)
  {
  }
}
