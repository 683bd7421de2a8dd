/** When the matcher leaves a loop over a group by force: exactly when the round that has just ended has taken
    nothing. */
module RegexForced {
  import opened Wrappers
  import opened RegexTree
  import opened RegexCode
  import opened RegexPaths
  import opened RegexLayout
  import opened RegexGrammar
  import opened RegexGroups
  import opened RegexMachine
  import opened RegexSoundness
  import opened RegexMarks

  // ---------- A piece of a pattern, and where its code is ----------

  /** The tree `sub' is part of `r', laid out at `base', with its own code at `at'. */
  predicate PieceAt(r: Re, base: nat, sub: Re, at: nat)
    decreases r, 1
  {
    || (r == sub && base == at)
    || match r
       case Cat(a, b) => PieceAt(a, base, sub, at) || PieceAt(b, base + Len(a), sub, at)
       case Alt(pre, last) => PieceInPre(pre, base, sub, at) || PieceAt(last, base + PreLen(pre), sub, at)
       case Group(reg, _, body) => PieceAt(body, base + MemoryLen(reg), sub, at)
       case ZeroOrMore(body, _) => PieceAt(body, base + 3, sub, at)
       case OneOrMore(body, _) => PieceAt(body, base + 6, sub, at)
       case Optional(body, _) => PieceAt(body, base + 3, sub, at)
       case DotLine(body) => PieceAt(body, base + 3, sub, at)
       case _ => false
  }

  predicate PieceInPre(l: Re, base: nat, sub: Re, at: nat)
    decreases l, 2
  {
    if l.Alt? then PieceInPre(l.pre, base, sub, at) || PieceAt(l.last, base + PreLen(l.pre) + 3, sub, at)
    else PieceAt(l, base + 3, sub, at)
  }

  /** The code of a piece lies in that of the pattern, and its boundaries are boundaries. */
  lemma {:induction false} PieceLaid(code: seq<Byte>, r: Re, base: nat, sub: Re, at: nat)
    requires Laid(code, base, r) && PieceAt(r, base, sub, at)
    ensures Laid(code, at, sub) && base <= at && at + Len(sub) <= base + Len(r)
    decreases r, 1
  {
    hide Laid, Len, PreLen, JumpAt, At, PreCode, MemoryCode;
    if !(r == sub && base == at) {
      match r
      case Cat(a, b) => {
        LaidCat(code, base, a, b);
        LenCat(a, b);
        if PieceAt(a, base, sub, at) { PieceLaid(code, a, base, sub, at); }
        else { PieceLaid(code, b, base + Len(a), sub, at); }
      }
      case Alt(pre, last) => {
        LaidAlt(code, base, pre, last);
        LenAlt(pre, last);
        if PieceInPre(pre, base, sub, at) { PreLaidPiece(code, pre, base, sub, at); }
        else { PieceLaid(code, last, base + PreLen(pre), sub, at); }
      }
      case Group(reg, inner, body) => {
        LaidGroup(code, base, reg, inner, body);
        LenGroup(reg, inner, body);
        PieceLaid(code, body, base + MemoryLen(reg), sub, at);
      }
      case ZeroOrMore(body, ops) => {
        LaidZeroOrMore(code, base, body, ops);
        LenLoops(body, ops);
        PieceLaid(code, body, base + 3, sub, at);
      }
      case OneOrMore(body, ops) => {
        LaidOneOrMore(code, base, body, ops);
        LenLoops(body, ops);
        PieceLaid(code, body, base + 6, sub, at);
      }
      case Optional(body, ops) => {
        LaidOptional(code, base, body, ops);
        LenOptional(body, ops);
        PieceLaid(code, body, base + 3, sub, at);
      }
      case DotLine(body) => {
        LaidDotLine(code, base, body);
        LenLoops(body, []);
        PieceLaid(code, body, base + 3, sub, at);
      }
      case _ =>
    }
  }

  lemma {:induction false} PreLaidPiece(code: seq<Byte>, l: Re, base: nat, sub: Re, at: nat)
    requires At(code, base, PreCode(l)) && PieceInPre(l, base, sub, at)
    ensures Laid(code, at, sub) && base <= at && at + Len(sub) <= base + PreLen(l) - 3
    decreases l, 2
  {
    hide Laid, Len, PreLen, JumpAt, At, PreCode;
    if l.Alt? {
      PreOfAlt(code, base, l.pre, l.last);
      PreLenOfAlt(l.pre, l.last);
      if PieceInPre(l.pre, base, sub, at) { PreLaidPiece(code, l.pre, base, sub, at); }
      else { PieceLaid(code, l.last, base + PreLen(l.pre) + 3, sub, at); }
    } else {
      PreOfBranch(code, base, l);
      PieceLaid(code, l, base + 3, sub, at);
      PreDepthBranch(l, base, base);
    }
  }

  /** Between a group's marks the group is open. */
  lemma {:induction false} PieceOpen(r: Re, lo: nat, base: nat, sub: Re, at: nat, pc: nat)
    requires PieceAt(r, base, sub, at) && sub.Group? && sub.reg <= MAX_REGNUM && at < pc <= at + Len(sub) - 3
    ensures sub.reg in ZoneOf(r, lo, base, pc).open
    ensures base <= at && at + Len(sub) <= base + Len(r)
    decreases r, 1
  {
    hide ZoneOf, Len, PreLen, GroupCount;
    if r == sub && base == at {
      LenGroup(r.reg, r.inner, r.body);
      GroupZoneAt(r.reg, r.inner, r.body, lo, base, pc);
      InsideOpen(r, lo, base, pc);
    } else {
      match r
      case Cat(a, b) => {
        ZoneCat(a, b, lo, base, pc);
        LenCat(a, b);
        if PieceAt(a, base, sub, at) { PieceOpen(a, lo, base, sub, at, pc); }
        else { PieceOpen(b, lo + GroupCount(a), base + Len(a), sub, at, pc); }
      }
      case Alt(pre, last) => {
        ZoneAlt(pre, last, lo, base, pc);
        LenAlt(pre, last);
        if PieceInPre(pre, base, sub, at) { PrePieceOpen(pre, lo, base, sub, at, pc); }
        else { PieceOpen(last, lo + GroupCount(pre), base + PreLen(pre), sub, at, pc); }
      }
      case Group(reg, inner, body) => {
        LenGroup(reg, inner, body);
        GroupZoneAt(reg, inner, body, lo, base, pc);
        PieceOpen(body, lo + 1, base + MemoryLen(reg), sub, at, pc);
      }
      case ZeroOrMore(body, ops) => {
        LenLoops(body, ops);
        LoopZone(body, ops, lo, base, pc);
        PieceOpen(body, lo, base + 3, sub, at, pc);
      }
      case OneOrMore(body, ops) => {
        LenLoops(body, ops);
        LoopZone(body, ops, lo, base, pc);
        PieceOpen(body, lo, base + 6, sub, at, pc);
      }
      case Optional(body, ops) => {
        LenOptional(body, ops);
        ZoneOptional(body, ops, lo, base, pc);
        PieceOpen(body, lo, base + 3, sub, at, pc);
      }
      case DotLine(body) => {
        LenLoops(body, []);
        LoopZone(body, [], lo, base, pc);
        PieceOpen(body, lo, base + 3, sub, at, pc);
      }
      case _ =>
    }
  }

  lemma InsideOpen(r: Re, lo: nat, base: nat, pc: nat)
    requires r.Group? && r.reg <= MAX_REGNUM && base < pc <= base + Len(r) - 3
    ensures r.reg in ZoneOf(r, lo, base, pc).open
  {
    hide Len;
    LenGroup(r.reg, r.inner, r.body);
    ZoneGroup(r.reg, r.inner, r.body, lo, base, pc);
    GroupOpenIs(r.reg, r.body, lo, base, pc);
  }

  lemma {:induction false} PrePieceOpen(l: Re, lo: nat, base: nat, sub: Re, at: nat, pc: nat)
    requires PieceInPre(l, base, sub, at) && sub.Group? && sub.reg <= MAX_REGNUM && at < pc <= at + Len(sub) - 3
    ensures sub.reg in PreZone(l, lo, base, pc).open
    ensures base <= at && at + Len(sub) <= base + PreLen(l) - 3
    decreases l, 2
  {
    hide ZoneOf, PreZone, Len, PreLen, GroupCount;
    PreZoneIs(l, lo, base, pc);
    if l.Alt? {
      PreLenOfAlt(l.pre, l.last);
      if PieceInPre(l.pre, base, sub, at) { PrePieceOpen(l.pre, lo, base, sub, at, pc); }
      else { PieceOpen(l.last, lo + GroupCount(l.pre), base + PreLen(l.pre) + 3, sub, at, pc); }
    } else {
      PreDepthBranch(l, base, base);
      PieceOpen(l, lo, base + 3, sub, at, pc);
    }
  }

  // ---------- The mark, and the way out ----------

  /** A call on compiled code, with groups as the compiler numbers them. */
  ghost predicate Called(job: Job, r: Re, nsub: nat) {
    && Program(job.code, r, job.g.syn) && Sized(r) && RegsWithin(r, nsub) && PlainDotLines(r) && Regular(r)
    && |job.code| < MAX_OFFSET_CODE && job.pos <= |job.g.text|
  }

  /** The state and the log that a call has come to. */
  function Came(job: Job, nsub: nat, rounds: nat): Option<(State, Log)> {
    After(job, Initial(job, nsub), FirstLog(nsub), rounds)
  }

  lemma CameMarks(job: Job, r: Re, nsub: nat, rounds: nat)
    requires Called(job, r, nsub)
    ensures Compiled(job, r, nsub) && Regular(r)
    ensures var a := Came(job, nsub, rounds);
            a.Some? ==> Inv(job, r, nsub, a.value.0) && Marks(job, r, nsub, a.value.0, a.value.1)
  {
    hide Program, Sized, RegsWithin, PlainDotLines, Regular, Inv, Marks, After, Initial, FirstLog;
    InitialInv(job, r, nsub);
    FirstMarks(job, r, nsub);
    AfterMarks(job, r, nsub, Initial(job, nsub), FirstLog(nsub), rounds);
  }

  /** In every run, at the end of every group: its mark is set if and only if it has taken text since it was last
      entered on the way here. */
  lemma MarkSaysTaken(job: Job, r: Re, nsub: nat, rounds: nat)
    requires Called(job, r, nsub) && Came(job, nsub, rounds).Some?
    requires Get(job.code, Came(job, nsub, rounds).value.0.p) == STOP_MEMORY
    ensures var (s, l) := Came(job, nsub, rounds).value;
            var reg := Get(job.code, s.p + 1);
            && reg < |s.info| && reg < |l.now.began|
            && (s.info[reg].matched <==> l.now.taken > l.now.began[reg]) && l.now.taken >= l.now.began[reg]
  {
    hide Called, Came, Compiled, Inv, Marks, Regular;
    CameMarks(job, r, nsub, rounds);
    var a := Came(job, nsub, rounds).value;
    StopMark(job, r, nsub, a.0, a.1);
  }

  lemma StopMark(job: Job, r: Re, nsub: nat, s: State, l: Log)
    requires Compiled(job, r, nsub) && Regular(r) && Inv(job, r, nsub, s) && Marks(job, r, nsub, s, l)
    requires Get(job.code, s.p) == STOP_MEMORY
    ensures var reg := Get(job.code, s.p + 1);
            && s.p < Len(r) && RegRight(s.info, l.now, reg) && Stopped(s, reg).stack == s.stack
            && (IsMatched(Stopped(s, reg).info, reg) <==> l.now.taken > l.now.began[reg])
            && var z, z2 := ZoneOf(r, 0, 0, s.p), ZoneOf(r, 0, 0, s.p + 3);
               z.open == z2.open + [reg] && z.first <= z2.first
  {
    hide Compiled, Inv, Regular, Here, BestOk, StackOk, ZoneOf, Crosses, ZoneFits, PastStart, SavedMarks, Len,
         ForkFirst,
         Stopped, RegsOk, Agrees;
    ProgramEnd(job, r, nsub);
    BelowEnd(job, r, nsub, s);
    HereOpcodeInv(job, r, nsub, s);
    var reg := Get(job.code, s.p + 1);
    var z, z2 := ZoneOf(r, 0, 0, s.p), ZoneOf(r, 0, 0, s.p + 3);
    ZoneMove(job, r, nsub, s.p, s.d, s.p + 3, |s.stack|);
    ZoneHere(r, s.p);
    StopCrosses(job.code, s.p, z, z2);
    StoppedAgrees(s, z, z2, reg, l.now, nsub, GroupCount(r));
    StoppedSame(s, reg);
    LastRight(z, s.low, s.high, s.info, l.now, nsub, reg);
  }

  lemma LastRight(z: Zone, low: nat, high: nat, info: seq<RegInfo>, note: Note, nsub: nat, reg: nat)
    requires Agrees(z, low, high, info, note, nsub) && z.open != [] && z.open[|z.open| - 1] == reg
    ensures RegRight(info, note, reg)
  {
  }

  /** The end of a group with something in it is not just past its start. */
  lemma NotJustPast(job: Job, r: Re, nsub: nat, s: State, l: Log, g: Re, at: nat)
    requires Compiled(job, r, nsub) && Regular(r) && Inv(job, r, nsub, s) && Marks(job, r, nsub, s, l)
    requires PieceAt(r, 0, g, at) && g.Group? && g.reg <= MAX_REGNUM && Len(g) > 6 && s.p == at + Len(g) - 3
    requires Get(job.code, s.p) == STOP_MEMORY && Get(job.code, s.p + 1) == g.reg
    ensures s.justPast != s.p
  {
    hide Compiled, Inv, Here, ZoneOf, Rising, SavedMarks, Len, Agrees, PieceAt, Numbered, AtomLoops, Depth, Laid, Sized;
    if s.justPast == s.p {
      StopMark(job, r, nsub, s, l);
      var q := s.p - 3;
      LaidHere(job, r, nsub);
      NextZone(job.code, r, 0, 0, q, s.p);
      PieceOpen(r, 0, 0, g, at, q);
      ZoneHere(r, s.p);
      Twice(ZoneOf(r, 0, 0, q).open, ZoneOf(r, 0, 0, s.p).open, ZoneOf(r, 0, 0, s.p + 3).open, g.reg,
            Get(job.code, q + 1), GroupCount(r));
    }
  }

  lemma LaidHere(job: Job, r: Re, nsub: nat)
    requires Compiled(job, r, nsub)
    ensures Laid(job.code, 0, r) && Sized(r) && |job.code| < MAX_OFFSET_CODE
  {
    hide Laid, Sized, RegsWithin, PlainDotLines, Program;
    LaidProgram(job, r, nsub);
  }

  lemma Twice(a: seq<nat>, z: seq<nat>, b: seq<nat>, reg: nat, last: nat, n: nat)
    requires z == a + [last] && z == b + [reg] && Rising(z, 0, n)
    ensures reg !in a
  {
    assert z[|z| - 1] == last == reg;
    forall k | 0 <= k < |a| ensures a[k] != reg { assert z[k] == a[k]; }
  }

  /** The states between which the end of a loop over a group decides. */
  ghost predicate GoesOn(job: Job, s: State, t: State) {
    t.p == s.p + 3 && t.d == s.d && t.stack == s.stack && t.best == s.best
  }

  /** The way out behind the loop, tried at once. */
  ghost predicate GoesOut(job: Job, s: State, exit: nat, o: Outcome) {
    if |s.stack| >= job.limit then o == Finished(-2)
    else
      exit >= |job.code| || !IsBackJump(job.code[exit]) ==>
        o.Running? && o.s.p == exit && o.s.d == s.d && o.s.stack == s.stack && o.s.best == s.best
  }

  /** In every run, at the end of a round of a loop over a numbered group with something in it: the loop goes on to its
      end if the round has taken text, and is left by force if it has taken none. */
  lemma LoopLeftByForce(job: Job, r: Re, nsub: nat, rounds: nat, g: Re, ops: seq<Token>, base: nat)
    requires Called(job, r, nsub) && Came(job, nsub, rounds).Some?
    requires g.Group? && g.reg <= MAX_REGNUM && Len(g) > 6
    requires PieceAt(r, 0, ZeroOrMore(g, ops), base) || (base >= 3 && PieceAt(r, 0, OneOrMore(g, ops), base - 3))
    requires Came(job, nsub, rounds).value.0.p == base + Len(g)
    ensures var (s, l) := Came(job, nsub, rounds).value;
            && g.reg < |l.now.began|
            && (l.now.taken > l.now.began[g.reg] ==> Step(job, s).Running? && GoesOn(job, s, Step(job, s).s))
            && (l.now.taken == l.now.began[g.reg] ==> GoesOut(job, s, base + 6 + Len(g), Step(job, s)))
  {
    hide Called, Came, Compiled, Inv, Marks, Regular, PieceAt, Len, GoesOn, GoesOut, Step;
    CameMarks(job, r, nsub, rounds);
    var a := Came(job, nsub, rounds).value;
    LoopPiece(job, r, nsub, g, ops, base);
    StopMark(job, r, nsub, a.0, a.1);
    NotJustPast(job, r, nsub, a.0, a.1, g, base + 3);
    StopSteps(job, r, nsub, a.0, a.1, g, base);
  }

  /** The code of the loop around a group. */
  ghost predicate Looping(code: seq<Byte>, g: Re, base: nat) {
    && base + 6 + Len(g) <= |code| < MAX_OFFSET_CODE
    && Get(code, base) == ON_FAILURE_JUMP && Target(code, base) == base + 6 + Len(g)
    && Get(code, base + 3 + Len(g)) == MAYBE_POP_JUMP && Target(code, base + 3 + Len(g)) == base
    && Get(code, base + 3) == START_MEMORY && g.Group? && Get(code, base + 4) == g.reg
    && Len(g) >= 6 && Get(code, base + Len(g)) == STOP_MEMORY && Get(code, base + Len(g) + 1) == g.reg
  }

  lemma LoopPiece(job: Job, r: Re, nsub: nat, g: Re, ops: seq<Token>, base: nat)
    requires Compiled(job, r, nsub) && g.Group? && g.reg <= MAX_REGNUM
    requires PieceAt(r, 0, ZeroOrMore(g, ops), base) || (base >= 3 && PieceAt(r, 0, OneOrMore(g, ops), base - 3))
    ensures Looping(job.code, g, base) && PieceAt(r, 0, g, base + 3)
  {
    hide Compiled, PieceAt, Len, Laid, JumpAt, Target, MemoryCode;
    LaidHere(job, r, nsub);
    LenLoops(g, ops);
    if PieceAt(r, 0, ZeroOrMore(g, ops), base) {
      PieceLaid(job.code, r, 0, ZeroOrMore(g, ops), base);
      LaidZeroOrMore(job.code, base, g, ops);
      OperandAt(r, 0, ZeroOrMore(g, ops), base);
    } else {
      PieceLaid(job.code, r, 0, OneOrMore(g, ops), base - 3);
      LaidOneOrMore(job.code, base - 3, g, ops);
      OperandAt(r, 0, OneOrMore(g, ops), base - 3);
    }
    JumpByte(job.code, base, ON_FAILURE_JUMP, Len(g) + 3);
    JumpByte(job.code, base + 3 + Len(g), MAYBE_POP_JUMP, -(Len(g) + 6));
    LaidGroup(job.code, base + 3, g.reg, g.inner, g.body);
    LenGroup(g.reg, g.inner, g.body);
    MemoryBytes(job.code, base + 3, START_MEMORY, g.reg, g.inner);
    MemoryBytes(job.code, base + Len(g), STOP_MEMORY, g.reg, g.inner);
  }

  /** The operand of a piece that is a loop is a piece too. */
  lemma {:induction false} OperandAt(r: Re, base: nat, sub: Re, at: nat)
    requires PieceAt(r, base, sub, at) && (sub.ZeroOrMore? || sub.OneOrMore?)
    ensures PieceAt(r, base, sub.body, if sub.ZeroOrMore? then at + 3 else at + 6)
    decreases r, 1
  {
    if !(r == sub && base == at) {
      match r
      case Cat(a, b) => {
        if PieceAt(a, base, sub, at) { OperandAt(a, base, sub, at); } else { OperandAt(b, base + Len(a), sub, at); }
      }
      case Alt(pre, last) => {
        if PieceInPre(pre, base, sub, at) { OperandInPre(pre, base, sub, at); }
        else { OperandAt(last, base + PreLen(pre), sub, at); }
      }
      case Group(reg, _, body) => OperandAt(body, base + MemoryLen(reg), sub, at);
      case ZeroOrMore(body, _) => OperandAt(body, base + 3, sub, at);
      case OneOrMore(body, _) => OperandAt(body, base + 6, sub, at);
      case Optional(body, _) => OperandAt(body, base + 3, sub, at);
      case DotLine(body) => OperandAt(body, base + 3, sub, at);
      case _ =>
    }
  }

  lemma {:induction false} OperandInPre(l: Re, base: nat, sub: Re, at: nat)
    requires PieceInPre(l, base, sub, at) && (sub.ZeroOrMore? || sub.OneOrMore?)
    ensures PieceInPre(l, base, sub.body, if sub.ZeroOrMore? then at + 3 else at + 6)
    decreases l, 2
  {
    if l.Alt? {
      if PieceInPre(l.pre, base, sub, at) { OperandInPre(l.pre, base, sub, at); }
      else { OperandAt(l.last, base + PreLen(l.pre) + 3, sub, at); }
    } else {
      OperandAt(l, base + 3, sub, at);
    }
  }

  lemma StopSteps(job: Job, r: Re, nsub: nat, s: State, l: Log, g: Re, base: nat)
    requires Looping(job.code, g, base) && s.p == base + Len(g) && s.justPast != s.p
    requires var t := Stopped(s, g.reg);
             && g.reg < |l.now.began| && l.now.taken >= l.now.began[g.reg] && t.stack == s.stack
             && (IsMatched(t.info, g.reg) <==> l.now.taken > l.now.began[g.reg])
    ensures l.now.taken > l.now.began[g.reg] ==> Step(job, s).Running? && GoesOn(job, s, Step(job, s).s)
    ensures l.now.taken == l.now.began[g.reg] ==> GoesOut(job, s, base + 6 + Len(g), Step(job, s))
  {
    hide Len, Stopped, Target, RestoredRegs, SavedRegs;
    StoppedSame(s, g.reg);
    assert Step(job, s) == StepStop(job, s) by { Stops(job, s); }
    HeadHere(job.code, g, base);
    var t, exit := Stopped(s, g.reg), base + 6 + Len(g);
    if l.now.taken == l.now.began[g.reg] && |s.stack| < job.limit {
      var pt := FailPoint(Some(exit), Some(s.d), t.low, t.high, SavedRegs(t));
      assert (s.stack + [pt])[..|s.stack|] == s.stack;
    }
  }

  lemma Stops(job: Job, s: State)
    requires s.p < |job.code| && job.code[s.p] == STOP_MEMORY
    ensures Step(job, s) == StepStop(job, s)
  {
    hide StepStop;
  }

  lemma HeadHere(code: seq<Byte>, g: Re, base: nat)
    requires Looping(code, g, base)
    ensures LoopHead(code, base + Len(g)) == Some(base) && base + Len(g) + 3 < |code|
  {
    hide Len;
  }
}
