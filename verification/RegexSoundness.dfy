/** What the machine returns on compiled code is right: whatever it reports as matched is in the pattern's language,
    it never pops an empty failure stack, and it never leaves the code, the text or the register arrays. */
module RegexSoundness {
  import opened Wrappers
  import opened RegexTree
  import opened RegexCode
  import opened RegexPaths
  import opened RegexLayout
  import opened RegexMachine

  /** The call is on the code of `r', with nsub groups, short enough for its jumps to fit in two bytes. */
  ghost predicate Compiled(job: Job, r: Re, nsub: nat) {
    && Program(job.code, r, job.g.syn)
    && Sized(r) && RegsWithin(r, nsub) && PlainDotLines(r)
    && |job.code| < MAX_OFFSET_CODE
    && job.pos <= |job.g.text|
  }

  /** Control may be at p with the text matched up to d, and n failure points are enough there. */
  ghost predicate Here(job: Job, r: Re, p: int, d: nat, n: int) {
    && 0 <= p <= Len(r)
    && Inside(job.g, r, 0, p, job.pos, d)
    && 0 <= Depth(r, 0, p) <= n
  }

  ghost predicate RegsOk(low: nat, high: nat, nsub: nat) {
    low >= 1 && (low <= high ==> high <= nsub)
  }

  ghost predicate PointOk(job: Job, r: Re, nsub: nat, pt: FailPoint, below: nat) {
    && RegsOk(pt.low, pt.high, nsub)
    && |pt.info| == (if pt.low <= pt.high then pt.high - pt.low + 1 else 0)
    && (pt.place.Some? ==> pt.str.Some? && Here(job, r, pt.place.value, pt.str.value, below))
    && (pt.place.None? ==> pt.str.None?)
  }

  /** The failure point of a `.*\n' loop: kept only while control is in the loop, on top of the stack. */
  ghost predicate KeepOk(job: Job, r: Re, nsub: nat, pt: FailPoint, p: int, d: nat, below: nat) {
    && RegsOk(pt.low, pt.high, nsub)
    && |pt.info| == (if pt.low <= pt.high then pt.high - pt.low + 1 else 0)
    && pt.place.Some? && pt.str.None?
    && var q := pt.place.value - 7;
       && q >= 0
       && Get(job.code, q) == ON_FAILURE_KEEP_STRING_JUMP && Target(job.code, q) == q + 7
       && Get(job.code, q + 3) == ANYCHAR
       && Get(job.code, q + 4) == JUMP && Target(job.code, q + 4) == q + 3
       && 0 <= Depth(r, 0, q) <= below
       && (p == q + 3 || p == q + 4)
       && (p == q + 3 ==> Here(job, r, q, d, below))
  }

  ghost predicate StackOk(job: Job, r: Re, nsub: nat, stack: seq<FailPoint>) {
    forall k :: 0 <= k < |stack| ==> PointOk(job, r, nsub, stack[k], k)
  }

  ghost predicate BestOk(job: Job, r: Re, best: Option<nat>) {
    best.Some? ==> Matches(job.g, r, job.pos, best.value)
  }

  ghost predicate RegistersOk(s: State, nsub: nat) {
    |s.info| == nsub + 1 && RegsOk(s.low, s.high, nsub)
  }

  function Top(s: State): FailPoint
    requires s.stack != []
  {
    s.stack[|s.stack| - 1]
  }

  /** The invariant of the matching loop. */
  ghost predicate Inv(job: Job, r: Re, nsub: nat, s: State) {
    && RegistersOk(s, nsub)
    && BestOk(job, r, s.best)
    && Here(job, r, s.p, s.d, |s.stack|)
    && (|| StackOk(job, r, nsub, s.stack)
        || (s.stack != [] && StackOk(job, r, nsub, s.stack[..|s.stack| - 1])
            && KeepOk(job, r, nsub, Top(s), s.p, s.d, |s.stack| - 1)))
  }

  ghost predicate Good(job: Job, r: Re, nsub: nat, o: Outcome) {
    match o
    case Running(s) => Inv(job, r, nsub, s)
    case Finished(n) => n == -2 || n == -1 || (0 <= n <= |job.g.text| - job.pos
      && Matches(job.g, r, job.pos, job.pos + n))
    case Crashed => false
  }

  lemma LaidProgram(job: Job, r: Re, nsub: nat)
    requires Compiled(job, r, nsub)
    ensures Laid(job.code, 0, r) && Len(r) <= |job.code|
    ensures |job.code| == Len(r) + (if job.g.syn.noBacktrack then 1 else 0)
    ensures |job.code| > Len(r) ==> job.code[Len(r)] == SUCCEED
  {
    hide Code, Len;
  }

  /** Control at the end of the tree's code has matched a member of the language. */
  lemma EndMatches(job: Job, r: Re, d: nat, n: int)
    requires Here(job, r, Len(r), d, n)
    ensures job.pos <= d <= |job.g.text| && Matches(job.g, r, job.pos, d)
  {
    hide Inside, Matches, Len, Depth;
    InsideBounds(job.g, r, 0, Len(r), job.pos, d);
    InsideEnd(job.g, r, 0, job.pos, d);
  }

  /** Every move from where control may be leads to where it may be. */
  lemma Advance(job: Job, r: Re, nsub: nat, p: int, d: nat, p2: int, d2: nat, n: int)
    requires Compiled(job, r, nsub) && Here(job, r, p, d, n) && p < Len(r)
    requires Move(job.g, job.code, p, d, p2, d2)
    ensures Here(job, r, p2, d2, n + Gain(job.code, p, p2))
    ensures job.pos <= d <= |job.g.text| && 0 <= p2 <= |job.code|
  {
    hide Inside, Matches, Len, Depth, Laid, Sized, RegsWithin, PlainDotLines, Program, Gain;
    LaidProgram(job, r, nsub);
    InsideBounds(job.g, r, 0, p, job.pos, d);
    MoveInside(job.g, job.code, r, 0, p, job.pos, d, p2, d2);
    InsideBounds(job.g, r, 0, p2, job.pos, d2);
    NextBoundary(job.code, r, 0, p, p2);
  }

  lemma HereOpcode(job: Job, r: Re, nsub: nat, p: int, d: nat, n: int)
    requires Compiled(job, r, nsub) && Here(job, r, p, d, n) && p < Len(r)
    ensures OpcodeOk(job.code, p, nsub) && p + OpLen(job.code, p) <= Len(r) <= |job.code| && DotLineOk(job.code, p)
    ensures job.pos <= d <= |job.g.text|
  {
    hide Inside, Matches, Len, Depth, Laid, Sized, RegsWithin, Program, OpcodeOk, OpLen, DotLineOk;
    LaidProgram(job, r, nsub);
    InsideBounds(job.g, r, 0, p, job.pos, d);
    Opcode(job.code, r, 0, p, nsub, 0);
  }

  lemma SavedOk(job: Job, r: Re, nsub: nat, s: State)
    requires RegistersOk(s, nsub)
    ensures |SavedRegs(s)| == if s.low <= s.high then s.high - s.low + 1 else 0
  {
  }

  /** Resuming at a failure point keeps the invariant. A kept position is used only where control may leave the loop. */
  lemma {:induction false} FailGood(job: Job, r: Re, nsub: nat, s: State)
    requires Compiled(job, r, nsub) && RegistersOk(s, nsub) && BestOk(job, r, s.best)
    requires s.stack != [] ==> StackOk(job, r, nsub, s.stack[..|s.stack| - 1])
    requires s.stack != [] ==>
      || PointOk(job, r, nsub, Top(s), |s.stack| - 1)
      || (RegsOk(Top(s).low, Top(s).high, nsub)
          && Top(s).place.Some? && Top(s).str.None? && Here(job, r, Top(s).place.value, s.d, |s.stack| - 1))
    ensures Good(job, r, nsub, Fail(job, s))
    decreases |s.stack|
  {
    hide Inside, Matches, Len, Depth, Laid, Sized, RegsWithin, PlainDotLines, Program;
    if s.stack == [] {
      if s.best.Some? { MatchBounds(job.g, r, job.pos, s.best.value); }
    } else {
      var pt := Top(s);
      var rest := s.stack[..|s.stack| - 1];
      var popped := s.(stack := rest, d := if pt.str.Some? then pt.str.value else s.d,
                       low := pt.low, high := pt.high, info := RestoredRegs(s.info, pt), done := false);
      if rest != [] {
        assert rest[..|rest| - 1] == s.stack[..|s.stack| - 2];
        assert PointOk(job, r, nsub, rest[|rest| - 1], |rest| - 1);
      }
      if pt.place.None? {
        FailGood(job, r, nsub, popped);
      } else {
        var p := pt.place.value;
        if p < |job.code| && IsBackJump(job.code[p]) && Get(job.code, Target(job.code, p)) == ON_FAILURE_JUMP {
          FailGood(job, r, nsub, popped.(p := p));
        }
      }
    }
  }

  lemma NoKeep(job: Job, r: Re, nsub: nat, s: State)
    requires Inv(job, r, nsub, s) && Get(job.code, s.p) != ANYCHAR && Get(job.code, s.p) != JUMP
    ensures StackOk(job, r, nsub, s.stack)
  {
  }

  lemma AllButTop(job: Job, r: Re, nsub: nat, stack: seq<FailPoint>)
    requires StackOk(job, r, nsub, stack) && stack != []
    ensures StackOk(job, r, nsub, stack[..|stack| - 1]) && PointOk(job, r, nsub, stack[|stack| - 1], |stack| - 1)
  {
    hide PointOk;
    var init := stack[..|stack| - 1];
    forall k | 0 <= k < |init| ensures PointOk(job, r, nsub, init[k], k) {
      assert PointOk(job, r, nsub, stack[k], k);
    }
  }

  /** A failure with no kept position on the stack. */
  lemma PlainFail(job: Job, r: Re, nsub: nat, s: State)
    requires Compiled(job, r, nsub) && RegistersOk(s, nsub) && BestOk(job, r, s.best)
    requires StackOk(job, r, nsub, s.stack)
    ensures Good(job, r, nsub, Fail(job, s))
  {
    hide Compiled, Good, Fail, PointOk, StackOk, BestOk;
    if s.stack != [] { AllButTop(job, r, nsub, s.stack); }
    FailGood(job, r, nsub, s);
  }

  lemma PushOk(job: Job, r: Re, nsub: nat, s: State, place: Option<nat>, str: Option<nat>)
    requires RegistersOk(s, nsub) && BestOk(job, r, s.best) && StackOk(job, r, nsub, s.stack)
    requires place.Some? ==> str.Some? && Here(job, r, place.value, str.value, |s.stack|)
    requires place.None? ==> str.None?
    requires Here(job, r, s.p, s.d, |s.stack| + 1)
    ensures Good(job, r, nsub, Push(job, s, place, str))
  {
    hide Here, BestOk;
    var pt := FailPoint(place, str, s.low, s.high, SavedRegs(s));
    SavedOk(job, r, nsub, s);
    forall k | 0 <= k < |s.stack + [pt]| ensures PointOk(job, r, nsub, (s.stack + [pt])[k], k) {
      if k < |s.stack| { assert PointOk(job, r, nsub, s.stack[k], k); }
    }
  }

  lemma {:induction false} CompareMeaning(g: Input, code: seq<Byte>, q: nat, d: nat, n: nat)
    requires d <= |g.text| && q + n <= |code|
    ensures var (ok, e) := Compare(g, code, q, d, n);
            ok ==> e == d + n <= |g.text| && g.text[d..e] == code[q..q + n]
    decreases n
  {
    if n != 0 && d < |g.text| && g.text[d] == code[q] {
      CompareMeaning(g, code, q + 1, d + 1, n - 1);
      var (ok, e) := Compare(g, code, q + 1, d + 1, n - 1);
      if ok {
        assert g.text[d..e] == [g.text[d]] + g.text[d + 1..e];
        assert code[q..q + n] == [code[q]] + code[q + 1..q + 1 + (n - 1)];
      }
    }
  }

  /** One round keeps the invariant, and returns only what is right. */
  lemma StepGood(job: Job, r: Re, nsub: nat, s: State)
    requires Compiled(job, r, nsub) && Inv(job, r, nsub, s)
    ensures Good(job, r, nsub, Step(job, s))
  {
    ProgramEnd(job, r, nsub);
    var op := Get(job.code, s.p);
    if s.p >= Len(r) {
      EndGood(job, r, nsub, s);
    } else {
      HereOpcode(job, r, nsub, s.p, s.d, |s.stack|);
      if op == ANYCHAR {
        DotGood(job, r, nsub, s);
      } else if op == JUMP {
        BackGood(job, r, nsub, s);
      } else {
        hide Compiled, Inv, Good, Push, Fail, JumpTo, StepStop, StepStart, StepSet, StepExact, StepOnFailure, Pops, Len;
        NoKeep(job, r, nsub, s);
        OtherGood(job, r, nsub, s);
      }
    }
  }

  lemma ProgramEnd(job: Job, r: Re, nsub: nat)
    requires Compiled(job, r, nsub)
    ensures |job.code| == Len(r) + (if job.g.syn.noBacktrack then 1 else 0)
    ensures |job.code| > Len(r) ==> job.code[Len(r)] == SUCCEED
  {
    hide Code, Len, Laid;
    LaidProgram(job, r, nsub);
  }

  lemma EndGood(job: Job, r: Re, nsub: nat, s: State)
    requires Compiled(job, r, nsub) && Inv(job, r, nsub, s) && s.p >= Len(r)
    ensures Good(job, r, nsub, Step(job, s))
  {
    hide Compiled, Len, Matches, Inside, Depth;
    ProgramEnd(job, r, nsub);
    EndMatches(job, r, s.d, |s.stack|);
    NoKeep(job, r, nsub, s);
    if s.best.Some? { MatchBounds(job.g, r, job.pos, s.best.value); }
    if s.p == |job.code| && s.d != |job.g.text| && s.stack != [] {
      PlainFail(job, r, nsub, s.(best := if s.best.None? || s.d > s.best.value then Some(s.d) else s.best));
    }
  }

  /** A `.' is run with or without a kept position on the stack, and so is the jump that closes a `.*\n' loop. */
  lemma DotGood(job: Job, r: Re, nsub: nat, s: State)
    requires Compiled(job, r, nsub) && Inv(job, r, nsub, s) && s.p < Len(r) <= |job.code|
    requires job.code[s.p] == ANYCHAR
    ensures Good(job, r, nsub, Step(job, s))
  {
    hide Compiled, Len, Matches, Inside, Depth, Fail, PointOk;
    HereOpcode(job, r, nsub, s.p, s.d, |s.stack|);
    if s.d < |job.g.text| && DotAccepts(job.g.syn, job.g.text[s.d]) {
      Advance(job, r, nsub, s.p, s.d, s.p + 1, s.d + 1, |s.stack|);
    } else if StackOk(job, r, nsub, s.stack) {
      PlainFail(job, r, nsub, s);
    } else {
      // Leave the loop: its head may be passed through without using the text.
      var q := Top(s).place.value - 7;
      Advance(job, r, nsub, q, s.d, q + 7, s.d, |s.stack| - 1);
      FailGood(job, r, nsub, s);
    }
  }

  lemma BackGood(job: Job, r: Re, nsub: nat, s: State)
    requires Compiled(job, r, nsub) && Inv(job, r, nsub, s) && s.p < Len(r) <= |job.code|
    requires job.code[s.p] == JUMP
    ensures Good(job, r, nsub, Step(job, s))
  {
    hide Compiled, Len, Matches, Inside, Depth, Fail, PointOk;
    HereOpcode(job, r, nsub, s.p, s.d, |s.stack|);
    Advance(job, r, nsub, s.p, s.d, Target(job.code, s.p), s.d, |s.stack|);
    if !StackOk(job, r, nsub, s.stack) {
      Advance(job, r, nsub, s.p, s.d, Target(job.code, s.p) - 3, s.d, |s.stack|);
    }
  }

  /** The opcodes reached only with ordinary failure points on the stack. */
  lemma OtherGood(job: Job, r: Re, nsub: nat, s: State)
    requires Compiled(job, r, nsub) && Inv(job, r, nsub, s) && s.p < Len(r) <= |job.code|
    requires job.code[s.p] != ANYCHAR && job.code[s.p] != JUMP
    ensures Good(job, r, nsub, Step(job, s))
  {
    hide Compiled, Len, Inv, Good, Push, Fail, JumpTo, StepStop, StepStart, StepSet, StepExact, StepOnFailure,
         StepOnFailureKeepString, StepDummyFailureJump, StepPopFailureJump, Pops, OpLen;
    HereOpcodeInv(job, r, nsub, s);
    var op := job.code[s.p];
    if op == EXACTN { ExactGood(job, r, nsub, s); }
    else if op == CHARSET || op == CHARSET_NOT { SetGood(job, r, nsub, s); }
    else if op == START_MEMORY { StartGood(job, r, nsub, s); }
    else if op == STOP_MEMORY { StopGood(job, r, nsub, s); }
    else if op == ON_FAILURE_JUMP { ForkGood(job, r, nsub, s); }
    else if op == ON_FAILURE_KEEP_STRING_JUMP { KeepForkGood(job, r, nsub, s); }
    else if op == PUSH_DUMMY_FAILURE { PushDummyGood(job, r, nsub, s); }
    else { JumpGood(job, r, nsub, s); }
  }

  lemma HereOpcodeInv(job: Job, r: Re, nsub: nat, s: State)
    requires Compiled(job, r, nsub) && Inv(job, r, nsub, s) && s.p < Len(r)
    ensures OpcodeOk(job.code, s.p, nsub) && s.p + OpLen(job.code, s.p) <= Len(r) <= |job.code|
            && DotLineOk(job.code, s.p)
    ensures job.pos <= s.d <= |job.g.text|
    ensures RegistersOk(s, nsub) && BestOk(job, r, s.best) && Here(job, r, s.p, s.d, |s.stack|)
    ensures Get(job.code, s.p) != ANYCHAR && Get(job.code, s.p) != JUMP ==> StackOk(job, r, nsub, s.stack)
  {
    hide Compiled, Len, Here, OpLen, OpcodeOk, DotLineOk;
    HereOpcode(job, r, nsub, s.p, s.d, |s.stack|);
  }

  lemma ExactGood(job: Job, r: Re, nsub: nat, s: State)
    requires Compiled(job, r, nsub) && Inv(job, r, nsub, s) && s.p < Len(r) <= |job.code| && job.code[s.p] == EXACTN
    ensures Good(job, r, nsub, Step(job, s))
  {
    hide Compiled, Len, Inv, Fail, Here, BestOk, StackOk;
    HereOpcodeInv(job, r, nsub, s);
    var n := Get(job.code, s.p + 1);
    CompareMeaning(job.g, job.code, s.p + 2, s.d, n);
    var (ok, d) := Compare(job.g, job.code, s.p + 2, s.d, n);
    if ok {
      Advance(job, r, nsub, s.p, s.d, s.p + 2 + n, d, |s.stack|);
      PlainInv(job, r, nsub, SetRegsMatched(s.(p := s.p + 2 + n, d := d)));
    } else {
      PlainFail(job, r, nsub, s.(d := d));
    }
  }

  lemma PlainInv(job: Job, r: Re, nsub: nat, s: State)
    requires RegistersOk(s, nsub) && BestOk(job, r, s.best) && Here(job, r, s.p, s.d, |s.stack|)
    requires StackOk(job, r, nsub, s.stack)
    ensures Inv(job, r, nsub, s)
  {
  }

  lemma SetGood(job: Job, r: Re, nsub: nat, s: State)
    requires Compiled(job, r, nsub) && Inv(job, r, nsub, s) && s.p < Len(r) <= |job.code|
    requires job.code[s.p] == CHARSET || job.code[s.p] == CHARSET_NOT
    ensures Good(job, r, nsub, Step(job, s))
  {
    hide Compiled, Len, Inv, Fail, Here, BestOk, StackOk;
    HereOpcodeInv(job, r, nsub, s);
    if s.d < |job.g.text| && SetAccepts(job.code[s.p] == CHARSET_NOT, BitmapAt(job.code, s.p), job.g.text[s.d]) {
      var p2 := s.p + 2 + Get(job.code, s.p + 1);
      Advance(job, r, nsub, s.p, s.d, p2, s.d + 1, |s.stack|);
      PlainInv(job, r, nsub, SetRegsMatched(s.(p := p2, d := s.d + 1)));
    } else {
      PlainFail(job, r, nsub, s);
    }
  }

  lemma StartGood(job: Job, r: Re, nsub: nat, s: State)
    requires Compiled(job, r, nsub) && Inv(job, r, nsub, s) && s.p < Len(r) <= |job.code|
             && job.code[s.p] == START_MEMORY
    ensures Good(job, r, nsub, Step(job, s))
  {
    hide Compiled, Len, Inv, Here, BestOk, StackOk;
    HereOpcodeInv(job, r, nsub, s);
    Advance(job, r, nsub, s.p, s.d, s.p + 3, s.d, |s.stack|);
    PlainInv(job, r, nsub, StepStart(job, s).s);
  }

  lemma {:induction false} HighestActiveOk(info: seq<RegInfo>, r: nat)
    ensures HighestActive(info, r) <= r
    decreases r
  {
  }

  lemma StoppedOk(job: Job, r: Re, nsub: nat, s: State)
    requires RegistersOk(s, nsub)
    requires 1 <= Get(job.code, s.p + 1) <= nsub
    ensures RegistersOk(Stopped(s, Get(job.code, s.p + 1)), nsub)
  {
    HighestActiveOk(s.info, Get(job.code, s.p + 1) - 1);
  }

  lemma StopGood(job: Job, r: Re, nsub: nat, s: State)
    requires Compiled(job, r, nsub) && Inv(job, r, nsub, s) && s.p < Len(r) <= |job.code|
             && job.code[s.p] == STOP_MEMORY
    ensures Good(job, r, nsub, Step(job, s))
  {
    hide Compiled, Len, Inv, Fail, Here, BestOk, StackOk, Stopped, RegistersOk;
    HereOpcodeInv(job, r, nsub, s);
    StoppedOk(job, r, nsub, s);
    StoppedSame(s, Get(job.code, s.p + 1));
    Advance(job, r, nsub, s.p, s.d, s.p + 3, s.d, |s.stack|);
    var stopped := Stopped(s, Get(job.code, s.p + 1));
    PlainInvFrom(job, r, nsub, stopped, s.p + 3);
    var head := LoopHead(job.code, s.p);
    if (!IsMatched(stopped.info, Get(job.code, s.p + 1)) || s.justPast == s.p) && s.p + 3 < |job.code| && head.Some? {
      LoopExit(job, r, nsub, s.p + 3, s.d, |s.stack|);
      HereBelow(job, r, Target(job.code, head.value), s.d, |s.stack|);
      ForcedExit(job, r, nsub, stopped, Target(job.code, head.value), s.d);
    }
  }

  lemma StoppedSame(s: State, reg: Byte)
    ensures Stopped(s, reg).p == s.p && Stopped(s, reg).d == s.d
    ensures Stopped(s, reg).stack == s.stack && Stopped(s, reg).best == s.best
  {
  }

  lemma PlainInvFrom(job: Job, r: Re, nsub: nat, s: State, p: nat)
    requires RegistersOk(s, nsub) && BestOk(job, r, s.best) && Here(job, r, p, s.d, |s.stack|)
    requires StackOk(job, r, nsub, s.stack)
    ensures Inv(job, r, nsub, s.(p := p))
  {
  }

  /** After a group, a jump back to the on_failure_jump of its loop can be followed out of the loop. */
  lemma LoopExit(job: Job, r: Re, nsub: nat, p: nat, d: nat, n: nat)
    requires Compiled(job, r, nsub) && Here(job, r, p, d, n) && p < |job.code|
    requires IsBackJump(job.code[p]) || job.code[p] == DUMMY_FAILURE_JUMP
    requires Offset(job.code, p) < 0
    requires Get(job.code, Target(job.code, p)) == ON_FAILURE_JUMP
    ensures Here(job, r, Target(job.code, Target(job.code, p)), d, n)
  {
    hide Compiled, Len, Here;
    ProgramEnd(job, r, nsub);
    HereBelow(job, r, p, d, n);
    HereOpcode(job, r, nsub, p, d, n);
    var head := Target(job.code, p);
    Advance(job, r, nsub, p, d, head, d, n);
    HereBelow(job, r, head, d, n + Gain(job.code, p, head));
    HereOpcode(job, r, nsub, head, d, n + Gain(job.code, p, head));
    var exit := Target(job.code, head);
    Advance(job, r, nsub, head, d, exit, d, n + Gain(job.code, p, head));
    HereMore(job, r, exit, d, n + Gain(job.code, p, head), n);
  }

  lemma HereMore(job: Job, r: Re, p: int, d: nat, n: int, m: int)
    requires Here(job, r, p, d, n) && n <= m
    ensures Here(job, r, p, d, m)
  {
  }

  lemma HereBelow(job: Job, r: Re, p: int, d: nat, n: int)
    requires Here(job, r, p, d, n)
    ensures 0 <= p <= Len(r)
  {
  }

  lemma ForcedExit(job: Job, r: Re, nsub: nat, s: State, exit: nat, d: nat)
    requires Compiled(job, r, nsub)
    requires RegistersOk(s, nsub) && BestOk(job, r, s.best) && StackOk(job, r, nsub, s.stack)
    requires Here(job, r, exit, d, |s.stack|)
    ensures var o := Push(job, s, Some(exit), Some(d));
            Good(job, r, nsub, if o.Running? then Fail(job, o.s) else o)
  {
    hide Compiled, Len, Here, BestOk, Fail;
    var pt := FailPoint(Some(exit), Some(d), s.low, s.high, SavedRegs(s));
    SavedOk(job, r, nsub, s);
    forall k | 0 <= k < |s.stack + [pt]| ensures PointOk(job, r, nsub, (s.stack + [pt])[k], k) {
      if k < |s.stack| { assert PointOk(job, r, nsub, s.stack[k], k); }
    }
    PlainFail(job, r, nsub, s.(stack := s.stack + [pt]));
  }

  lemma ForkGood(job: Job, r: Re, nsub: nat, s: State)
    requires Compiled(job, r, nsub) && Inv(job, r, nsub, s) && s.p < Len(r) <= |job.code|
    requires job.code[s.p] == ON_FAILURE_JUMP
    ensures Good(job, r, nsub, Step(job, s))
  {
    hide Compiled, Len, Inv, Here, BestOk, StackOk, Push;
    HereOpcodeInv(job, r, nsub, s);
    var to := Target(job.code, s.p);
    Advance(job, r, nsub, s.p, s.d, to, s.d, |s.stack|);
    Advance(job, r, nsub, s.p, s.d, s.p + 3, s.d, |s.stack|);
    HereMore(job, r, s.p + 3, s.d, |s.stack| + Gain(job.code, s.p, s.p + 3), |s.stack| + 1);
    var p1 := SkipNoOps(job.code, s.p + 3);
    assert p1 == s.p + 3 by { NoNoOp(job, r, nsub, s.p + 3, s.d, |s.stack| + 1); }
    var first := Get(job.code, p1 + 1);
    if Get(job.code, p1) == START_MEMORY {
      HereBelow(job, r, s.p + 3, s.d, |s.stack| + 1);
      ProgramEnd(job, r, nsub);
      HereOpcode(job, r, nsub, s.p + 3, s.d, |s.stack| + 1);
      PushOk(job, r, nsub, s.(high := first + Get(job.code, p1 + 2),
                              low := if s.low == NO_LOWEST_ACTIVE_REG then first else s.low,
                              p := s.p + 3), Some(to), Some(s.d));
    } else {
      PushOk(job, r, nsub, s.(p := s.p + 3), Some(to), Some(s.d));
    }
  }

  /** The modelled fragment compiles to no no_op. */
  lemma NoNoOp(job: Job, r: Re, nsub: nat, p: nat, d: nat, n: nat)
    requires Compiled(job, r, nsub) && Here(job, r, p, d, n)
    ensures SkipNoOps(job.code, p) == p
  {
    hide Compiled, Len, Here;
    HereBelow(job, r, p, d, n);
    ProgramEnd(job, r, nsub);
    if p < Len(r) { HereOpcode(job, r, nsub, p, d, n); }
  }

  lemma KeepForkGood(job: Job, r: Re, nsub: nat, s: State)
    requires Compiled(job, r, nsub) && Inv(job, r, nsub, s) && s.p < Len(r) <= |job.code|
    requires job.code[s.p] == ON_FAILURE_KEEP_STRING_JUMP
    ensures Good(job, r, nsub, Step(job, s))
  {
    hide Compiled, Len, Inside, Matches, Depth, BestOk;
    HereOpcodeInv(job, r, nsub, s);
    Advance(job, r, nsub, s.p, s.d, s.p + 3, s.d, |s.stack|);
    SavedOk(job, r, nsub, s);
    var pushed := Push(job, s.(p := s.p + 3), Some(s.p + 7), None);
    if pushed.Running? {
      assert pushed.s.stack[..|pushed.s.stack| - 1] == s.stack;
    }
  }

  lemma PushDummyGood(job: Job, r: Re, nsub: nat, s: State)
    requires Compiled(job, r, nsub) && Inv(job, r, nsub, s) && s.p < Len(r) <= |job.code|
    requires job.code[s.p] == PUSH_DUMMY_FAILURE
    ensures Good(job, r, nsub, Step(job, s))
  {
    hide Compiled, Len, Inv, Here, BestOk, StackOk, Push;
    HereOpcodeInv(job, r, nsub, s);
    Advance(job, r, nsub, s.p, s.d, s.p + 1, s.d, |s.stack|);
    HereMore(job, r, s.p + 1, s.d, |s.stack|, |s.stack| + 1);
    PushOk(job, r, nsub, s.(p := s.p + 1), None, None);
  }

  /** The jumps. Where one takes a failure point off, there is one: the loop's own, or one pushed after it. */
  lemma JumpGood(job: Job, r: Re, nsub: nat, s: State)
    requires Compiled(job, r, nsub) && Inv(job, r, nsub, s) && s.p < Len(r) <= |job.code|
    requires job.code[s.p] == MAYBE_POP_JUMP || job.code[s.p] == JUMP_PAST_ALT || job.code[s.p] == DUMMY_FAILURE_JUMP
    ensures Good(job, r, nsub, Step(job, s))
  {
    hide Compiled, Len, Inv, BestOk, StackOk, Pops, Inside, Depth;
    HereOpcodeInv(job, r, nsub, s);
    var to := Target(job.code, s.p);
    Advance(job, r, nsub, s.p, s.d, to, s.d, |s.stack|);
    if job.code[s.p] == MAYBE_POP_JUMP {
      assert |s.stack| >= 1;
      AllButTop(job, r, nsub, s.stack);
      HereMore(job, r, to, s.d, |s.stack| - 1, |s.stack|);
      PlainInv(job, r, nsub, s.(p := to));
      PlainInv(job, r, nsub, s.(p := to, stack := s.stack[..|s.stack| - 1], done := false));
    } else if job.code[s.p] == JUMP_PAST_ALT {
      PlainInv(job, r, nsub, s.(p := to));
    } else {
      PushOk(job, r, nsub, s.(p := to), None, None);
    }
  }

  lemma InitialInv(job: Job, r: Re, nsub: nat)
    requires Compiled(job, r, nsub)
    ensures Inv(job, r, nsub, Initial(job, nsub))
  {
    InsideStart(job.g, r, 0, job.pos);
    DepthEnds(r, 0);
  }

  lemma {:induction false} RunGood(job: Job, r: Re, nsub: nat, s: State, rounds: nat)
    requires Compiled(job, r, nsub) && Inv(job, r, nsub, s)
    ensures Good(job, r, nsub, Run(job, s, rounds))
    decreases rounds
  {
    hide Compiled, Inv, Step;
    if rounds != 0 {
      StepGood(job, r, nsub, s);
      var o := Step(job, s);
      if o.Running? { RunGood(job, r, nsub, o.s, rounds - 1); }
    }
  }

  /** Regex soundness. On compiled code the machine never fails an internal check, however long it runs; and when it
      returns a length, that much of the text from pos on is in the pattern's language. */
  lemma MatchSound(job: Job, r: Re, nsub: nat, rounds: nat)
    requires Program(job.code, r, job.g.syn) && Sized(r) && RegsWithin(r, nsub) && PlainDotLines(r)
    requires |job.code| < MAX_OFFSET_CODE
    ensures !Match(job, nsub, rounds).Crashed?
    ensures var o := Match(job, nsub, rounds);
            o.Finished? && o.n >= 0 ==>
              job.pos + o.n <= |job.g.text| && InLanguage(job.g.syn, r, job.g.text[job.pos..job.pos + o.n])
    ensures var o := Match(job, nsub, rounds); o.Finished? ==> o.n >= -2
  {
    hide Run, Inv, Inside, Matches, Sized, RegsWithin, PlainDotLines, Program, Initial;
    if job.pos <= |job.g.text| {
      InitialInv(job, r, nsub);
      RunGood(job, r, nsub, Initial(job, nsub), rounds);
      var o := Match(job, nsub, rounds);
      if o.Finished? && o.n >= 0 { InLanguageOfSlice(job.g, r, job.pos, job.pos + o.n); }
    }
  }
}
