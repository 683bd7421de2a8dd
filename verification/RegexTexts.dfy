/** Without a `.*' before a newline in the pattern, the characters noted are the text: a group's mark is set if and only
    if the position in the text has moved since the group was entered. */
module RegexTexts {
  import opened Wrappers
  import opened RegexTree
  import opened RegexCode
  import opened RegexPaths
  import opened RegexLayout
  import opened RegexGrammar
  import opened RegexGroups
  import opened RegexMachine
  import opened RegexSoundness
  import opened RegexMarks
  import opened RegexForced

  predicate NoDotLine(r: Re) {
    match r
    case Cat(a, b) => NoDotLine(a) && NoDotLine(b)
    case Alt(pre, last) => NoDotLine(pre) && NoDotLine(last)
    case Group(_, _, body) => NoDotLine(body)
    case ZeroOrMore(body, _) => NoDotLine(body)
    case OneOrMore(body, _) => NoDotLine(body)
    case Optional(body, _) => NoDotLine(body)
    case DotLine(_) => false
    case _ => true
  }

  /** Then no failure point keeps the position in the text. */
  lemma {:induction false} NeverKeeps(code: seq<Byte>, r: Re, base: nat, pc: int)
    requires Laid(code, base, r) && Sized(r) && |code| < MAX_OFFSET_CODE && NoDotLine(r)
    requires Depth(r, base, pc) >= 0 && pc < base + Len(r)
    ensures Get(code, pc) != ON_FAILURE_KEEP_STRING_JUMP
    decreases r, 1
  {
    hide Depth, Len, Laid, PreLen, PreDepth, JumpAt, At, PreCode, MemoryCode, BodyDepth, Target;
    DepthBounds(r, base, pc);
    match r
    case Cat(a, b) => {
      LaidCat(code, base, a, b);
      LenCat(a, b);
      DepthCat(a, b, base, pc);
      if pc < base + Len(a) { NeverKeeps(code, a, base, pc); } else { NeverKeeps(code, b, base + Len(a), pc); }
    }
    case Alt(pre, last) => {
      LaidAlt(code, base, pre, last);
      LenAlt(pre, last);
      DepthAlt(pre, last, base, pc);
      if pc < base + PreLen(pre) { PreNeverKeeps(code, pre, base, pc, Len(last)); }
      else { NeverKeeps(code, last, base + PreLen(pre), pc); }
    }
    case Group(reg, inner, body) => {
      LaidGroup(code, base, reg, inner, body);
      LenGroup(reg, inner, body);
      DepthGroup(reg, inner, body, base, pc);
      GroupNeverKeeps(code, reg, inner, body, base, pc);
    }
    case ZeroOrMore(body, ops) => {
      LaidZeroOrMore(code, base, body, ops);
      LenLoops(body, ops);
      DepthZeroOrMore(body, ops, base, pc);
      BodyEnds(body, base + 3, pc);
      if pc == base { FirstByte(code, pc, ON_FAILURE_JUMP, Len(body) + 3); }
      else if pc < base + 3 + Len(body) { BodyIs(body, base + 3, pc); NeverKeeps(code, body, base + 3, pc); }
      else { FirstByte(code, pc, MAYBE_POP_JUMP, -(Len(body) + 6)); }
    }
    case OneOrMore(body, ops) => {
      LaidOneOrMore(code, base, body, ops);
      LenLoops(body, ops);
      DepthOneOrMore(body, ops, base, pc);
      BodyEnds(body, base + 6, pc);
      if pc == base { FirstByte(code, pc, DUMMY_FAILURE_JUMP, 3); }
      else if pc == base + 3 { FirstByte(code, pc, ON_FAILURE_JUMP, Len(body) + 3); }
      else if pc < base + 6 + Len(body) { BodyIs(body, base + 6, pc); NeverKeeps(code, body, base + 6, pc); }
      else { FirstByte(code, pc, MAYBE_POP_JUMP, -(Len(body) + 6)); }
    }
    case Optional(body, ops) => {
      LaidOptional(code, base, body, ops);
      LenOptional(body, ops);
      DepthOptional(body, ops, base, pc);
      if pc == base { FirstByte(code, pc, ON_FAILURE_JUMP, Len(body)); }
      else { NeverKeeps(code, body, base + 3, pc); }
    }
    case _ => LeafNeverKeeps(code, r, base, pc);
  }

  lemma FirstByte(code: seq<Byte>, pc: int, op: Byte, offset: int)
    requires pc >= 0 && JumpAt(code, pc, op, offset)
    ensures Get(code, pc) == op
  {
    assert JumpCode(op, offset)[0] == code[pc + 0];
  }

  lemma BodyIs(body: Re, base: nat, pc: int)
    requires BodyDepth(body, base, pc) >= 0
    ensures Depth(body, base, pc) >= 0
  {
    hide Depth;
  }

  lemma {:induction false} LeafNeverKeeps(code: seq<Byte>, r: Re, base: nat, pc: int)
    requires !r.Cat? && !r.Alt? && !r.Group? && !r.ZeroOrMore? && !r.OneOrMore? && !r.Optional? && !r.DotLine?
    requires Laid(code, base, r) && Sized(r) && Depth(r, base, pc) >= 0 && pc < base + Len(r)
    ensures Get(code, pc) != ON_FAILURE_KEEP_STRING_JUMP
  {
    match r
    case Dummy => LaidByte(code, base, r);
    case AnyChar => LaidByte(code, base, r);
    case Exact(ts) => LaidExact(code, base, ts);
    case CharSet(negated, bits) => LaidSet(code, base, negated, bits);
    case _ =>
  }

  lemma {:induction false} GroupNeverKeeps(code: seq<Byte>, reg: nat, inner: nat, body: Re, base: nat, pc: int)
    requires Laid(code, base, Group(reg, inner, body)) && Sized(body) && |code| < MAX_OFFSET_CODE && NoDotLine(body)
    requires Depth(Group(reg, inner, body), base, pc) >= 0 && pc < base + Len(Group(reg, inner, body))
    ensures Get(code, pc) != ON_FAILURE_KEEP_STRING_JUMP
    decreases body, 2
  {
    hide Depth, Len, Laid, MemoryCode;
    LaidGroup(code, base, reg, inner, body);
    LenGroup(reg, inner, body);
    DepthBounds(Group(reg, inner, body), base, pc);
    DepthGroup(reg, inner, body, base, pc);
    var m := base + MemoryLen(reg);
    var stop := m + Len(body) + DummyLen(body);
    if pc < m { MemoryBytes(code, base, START_MEMORY, reg, inner); }
    else if pc < m + Len(body) { NeverKeeps(code, body, m, pc); }
    else if pc < stop { assert [PUSH_DUMMY_FAILURE][0] == code[pc + 0]; }
    else { MemoryBytes(code, stop, STOP_MEMORY, reg, inner); }
  }

  lemma {:induction false} PreNeverKeeps(code: seq<Byte>, l: Re, base: nat, pc: int, offset: nat)
    requires LaidPre(code, base, l, offset) && Sized(l) && |code| < MAX_OFFSET_CODE && NoDotLine(l)
    requires PreDepth(l, base, pc) >= 0 && pc < base + PreLen(l)
    ensures Get(code, pc) != ON_FAILURE_KEEP_STRING_JUMP
    decreases l, 2
  {
    hide Depth, Len, Laid, PreLen, PreDepth, JumpAt, At, PreCode;
    PreDepthBounds(l, base, pc);
    if pc == base + PreLen(l) - 3 {
      FirstByte(code, pc, JUMP_PAST_ALT, offset);
    } else if l.Alt? {
      PreOfAlt(code, base, l.pre, l.last);
      PreLenOfAlt(l.pre, l.last);
      PreDepthAlt(l.pre, l.last, base, pc);
      var m := base + PreLen(l.pre);
      if pc < m { PreNeverKeeps(code, l.pre, base, pc, Len(l.last) + 3); }
      else if pc == m { FirstByte(code, pc, ON_FAILURE_JUMP, Len(l.last) + 3); }
      else { NeverKeeps(code, l.last, m + 3, pc); }
    } else {
      PreOfBranch(code, base, l);
      PreDepthBranch(l, base, pc);
      if pc == base { FirstByte(code, pc, ON_FAILURE_JUMP, Len(l) + 3); } else { NeverKeeps(code, l, base + 3, pc); }
    }
  }

  // ---------- The log follows the text ----------

  ghost predicate PointText(job: Job, pt: FailPoint, note: Note) {
    pt.place.Some? ==> pt.str == Some(job.pos + note.taken)
  }

  ghost predicate Text(job: Job, s: State, l: Log) {
    && s.d == job.pos + l.now.taken && |l.saved| == |s.stack|
    && forall k :: 0 <= k < |s.stack| ==> PointText(job, s.stack[k], l.saved[k])
  }

  ghost predicate RoundText(job: Job, s: State, l: Log) {
    var o := Step(job, s);
    o.Running? ==> Text(job, o.s, Noted(job, s, l))
  }

  lemma FailText(job: Job, r: Re, nsub: nat, s: State, l: Log, s1: State)
    requires Marks(job, r, nsub, s, l) && Text(job, s, l) && Step(job, s) == Fail(job, s1)
    requires Get(job.code, s.p) != MAYBE_POP_JUMP
    requires s1.stack == s.stack && |s1.info| == nsub + 1
    ensures RoundText(job, s, l)
  {
    hide ZoneOf, Agrees, Step, Fail;
    FailMarks(job, r, nsub, s1, l.saved);
    var o := Step(job, s);
    if o.Running? {
      var n := |o.s.stack|;
      assert PointText(job, s.stack[n], l.saved[n]);
      forall k | 0 <= k < n ensures PointText(job, o.s.stack[k], l.saved[..n][k]) {
        assert PointText(job, s.stack[k], l.saved[k]);
      }
    }
  }

  lemma PushText(job: Job, s: State, l: Log, s1: State, place: Option<nat>, p: nat)
    requires Text(job, s, l) && s1.stack == s.stack && s1.d == s.d
    requires var o := Push(job, s1, place, if place.Some? then Some(s.d) else None);
             Step(job, s) == if o.Running? then Running(o.s.(p := p)) else o
    ensures RoundText(job, s, l)
  {
    hide Step, SavedRegs;
    var o := Step(job, s);
    if o.Running? {
      forall k | 0 <= k < |o.s.stack| ensures PointText(job, o.s.stack[k], (l.saved + [l.now])[k]) {
        if k < |s.stack| { assert PointText(job, s.stack[k], l.saved[k]); }
      }
    }
  }

  /** A round that keeps the failure points. */
  lemma SameText(job: Job, s: State, l: Log, s2: State)
    requires Text(job, s, l) && Step(job, s) == Running(s2) && s2.stack == s.stack && s2.d >= s.d
    requires Get(job.code, s.p) in {START_MEMORY, MAYBE_POP_JUMP} ==> s2.d == s.d
    ensures RoundText(job, s, l)
  {
    hide Step;
    assert l.saved[..|s.stack|] == l.saved;
  }

  lemma StopText(job: Job, r: Re, nsub: nat, s: State, l: Log)
    requires Marks(job, r, nsub, s, l) && Text(job, s, l) && s.p < |job.code| && job.code[s.p] == STOP_MEMORY
    requires RoundMarks(job, r, nsub, s, l) && |Stopped(s, Get(job.code, s.p + 1)).info| == nsub + 1
    ensures RoundText(job, s, l)
  {
    hide ZoneOf, Agrees, Stopped, Fail, LoopHead, Target, SavedRegs, SavedMarks;
    var reg := Get(job.code, s.p + 1);
    var t := Stopped(s, reg);
    StoppedSame(s, reg);
    Stops(job, s);
    var head := LoopHead(job.code, s.p);
    if (!IsMatched(t.info, reg) || s.justPast == s.p) && s.p + 3 < |job.code| && head.Some? {
      var exit := Target(job.code, head.value);
      if exit >= 0 && |s.stack| < job.limit {
        BackText(job, s, l, t.(stack := s.stack + [FailPoint(Some(exit), Some(s.d), t.low, t.high, SavedRegs(t))]));
      }
    } else {
      SameText(job, s, l, t.(p := s.p + 3));
    }
  }

  lemma BackText(job: Job, s: State, l: Log, s1: State)
    requires Text(job, s, l) && Step(job, s) == Fail(job, s1) && Get(job.code, s.p) == STOP_MEMORY
    requires |s1.stack| == |s.stack| + 1 && s1.stack[..|s.stack|] == s.stack
    requires s1.stack[|s.stack|].place.Some? && s1.stack[|s.stack|].str == Some(s.d)
    ensures RoundText(job, s, l)
  {
    hide Step, Fail;
    FailBack(job, s1);
    var o, all := Step(job, s), l.saved + [l.now];
    if o.Running? {
      var n := |o.s.stack|;
      forall k | 0 <= k < |s1.stack| ensures PointText(job, s1.stack[k], all[k]) {
        if k < |s.stack| { assert s1.stack[k] == s.stack[k] && PointText(job, s.stack[k], l.saved[k]); }
      }
      assert PointText(job, s1.stack[n], all[n]);
      assert all[..n] == l.saved[..n];
      forall k | 0 <= k < n ensures PointText(job, o.s.stack[k], l.saved[..n][k]) {
        assert PointText(job, s1.stack[k], all[k]);
      }
    }
  }

  /** Going back restores the place in the text that was saved. */
  lemma {:induction false} FailBack(job: Job, s: State)
    ensures var o := Fail(job, s);
            o.Running? ==>
              var n := |o.s.stack|;
              && n < |s.stack| && o.s.stack == s.stack[..n] && s.stack[n].place.Some?
              && (s.stack[n].str.Some? ==> o.s.d == s.stack[n].str.value)
    decreases |s.stack|
  {
    hide RestoredRegs, Target;
    if s.stack != [] {
      var n := |s.stack| - 1;
      var pt := s.stack[n];
      var here := s.(stack := s.stack[..n], d := if pt.str.Some? then pt.str.value else s.d, low := pt.low,
                     high := pt.high, info := RestoredRegs(s.info, pt), done := false,
                     p := if pt.place.Some? then pt.place.value else s.p);
      FailBack(job, here);
      var o := Fail(job, s);
      if o != Running(here) && o.Running? { assert s.stack[..n][..|o.s.stack|] == s.stack[..|o.s.stack|]; }
    }
  }

  lemma StepText(job: Job, r: Re, nsub: nat, s: State, l: Log)
    requires Compiled(job, r, nsub) && Inv(job, r, nsub, s) && Marks(job, r, nsub, s, l) &&
        RoundMarks(job, r, nsub, s, l)
    requires Text(job, s, l) && NoDotLine(r)
    ensures RoundText(job, s, l)
  {
    hide Compiled, Inv, Marks, Text, RoundText, RoundMarks, Here, BestOk, StackOk, Len, NoDotLine, Fail, Pops,
         SetRegsMatched, RegsOk;
    ProgramEnd(job, r, nsub);
    InfoLength(job, r, nsub, s, l);
    if s.p >= Len(r) {
      BelowEnd(job, r, nsub, s);
      if s.p == |job.code| && s.d != |job.g.text| && s.stack != [] {
        FailText(job, r, nsub, s, l, s.(best := if s.best.None? || s.d > s.best.value then Some(s.d) else s.best));
      } else {
        Returns(job, s);
        Nothing(job, s, l);
      }
    } else {
      HereOpcodeInv(job, r, nsub, s);
      StoppedOk2(job, r, nsub, s);
      KeepNot(job, r, nsub, s);
      var op := job.code[s.p];
      if op in {EXACTN, ANYCHAR, CHARSET, CHARSET_NOT} {
        var d, ok := TakeStep(job, s);
        if ok {
          var p2 := if op == ANYCHAR then s.p + 1 else s.p + 2 + Get(job.code, s.p + 1);
          MarkKeeps(s.(p := p2, d := d));
          SameText(job, s, l, SetRegsMatched(s.(p := p2, d := d)));
        } else {
          FailText(job, r, nsub, s, l, s.(d := d));
        }
      }
      else if op == START_MEMORY { SameText(job, s, l, StepStart(job, s).s); }
      else if op == STOP_MEMORY { StopText(job, r, nsub, s, l); }
      else { JumpText(job, r, nsub, s, l); }
    }
  }

  lemma Returns(job: Job, s: State)
    requires s.p >= |job.code| || job.code[s.p] == SUCCEED
    requires !(s.p == |job.code| && s.d != |job.g.text| && s.stack != [])
    ensures !Step(job, s).Running?
  {
  }

  lemma MarkKeeps(s: State)
    ensures SetRegsMatched(s).stack == s.stack && SetRegsMatched(s).d == s.d
  {
  }

  lemma StoppedOk2(job: Job, r: Re, nsub: nat, s: State)
    requires Inv(job, r, nsub, s)
    ensures |Stopped(s, Get(job.code, s.p + 1)).info| == nsub + 1
  {
  }

  lemma KeepNot(job: Job, r: Re, nsub: nat, s: State)
    requires Compiled(job, r, nsub) && Inv(job, r, nsub, s) && s.p < Len(r) && NoDotLine(r)
    ensures Get(job.code, s.p) != ON_FAILURE_KEEP_STRING_JUMP
  {
    hide Compiled, Len, Depth, NoDotLine, Inside;
    LaidHere(job, r, nsub);
    NeverKeeps(job.code, r, 0, s.p);
  }

  lemma JumpText(job: Job, r: Re, nsub: nat, s: State, l: Log)
    requires Inv(job, r, nsub, s) && Marks(job, r, nsub, s, l) && Text(job, s, l) && s.p < |job.code|
    requires var op := job.code[s.p];
             op in {ON_FAILURE_JUMP, PUSH_DUMMY_FAILURE, DUMMY_FAILURE_JUMP, JUMP, JUMP_PAST_ALT, MAYBE_POP_JUMP}
    ensures RoundText(job, s, l)
  {
    hide Inv, Marks, Pops, SavedRegs, Target, RoundText, Text;
    var op, to := job.code[s.p], Target(job.code, s.p);
    if op == ON_FAILURE_JUMP {
      Forks(job, s);
      var p1 := SkipNoOps(job.code, s.p + 3);
      var first := Get(job.code, p1 + 1);
      var s1 := if Get(job.code, p1) == START_MEMORY then
                  s.(high := first + Get(job.code, p1 + 2),
                     low := if s.low == NO_LOWEST_ACTIVE_REG then first else s.low)
                else s;
      if to >= 0 { PushText(job, s, l, s1.(p := s.p + 3), Some(to), s.p + 3); } else { Nothing(job, s, l); }
    } else if op == PUSH_DUMMY_FAILURE {
      PushText(job, s, l, s.(p := s.p + 1), None, s.p + 1);
    } else if op == DUMMY_FAILURE_JUMP {
      if to >= 0 { PushText(job, s, l, s, None, to); } else { Nothing(job, s, l); }
    } else if op == MAYBE_POP_JUMP && Pops(job.code, s.p) {
      PopText(job, s, l);
    } else if to >= 0 {
      SameText(job, s, l, s.(p := to));
    } else {
      Nothing(job, s, l);
    }
  }

  lemma Nothing(job: Job, s: State, l: Log)
    requires !Step(job, s).Running?
    ensures RoundText(job, s, l)
  {
    hide Step;
  }

  lemma PopText(job: Job, s: State, l: Log)
    requires Text(job, s, l) && s.p < |job.code| && job.code[s.p] == MAYBE_POP_JUMP && Pops(job.code, s.p)
    ensures RoundText(job, s, l)
  {
    hide Pops, Target;
    var o := Step(job, s);
    if o.Running? {
      var n := |s.stack| - 1;
      forall k | 0 <= k < n ensures PointText(job, o.s.stack[k], l.saved[..n][k]) {
        assert PointText(job, s.stack[k], l.saved[k]);
      }
    }
  }

  lemma {:induction false} AfterText(job: Job, r: Re, nsub: nat, s: State, l: Log, rounds: nat)
    requires Compiled(job, r, nsub) && Inv(job, r, nsub, s) && Regular(r) && Marks(job, r, nsub, s, l)
    requires Text(job, s, l) && NoDotLine(r)
    ensures var a := After(job, s, l, rounds); a.Some? ==> a.value.0.d == job.pos + a.value.1.now.taken
    decreases rounds
  {
    hide Compiled, Inv, Regular, Marks, Step, Noted, NoDotLine;
    if rounds > 0 {
      StepGood(job, r, nsub, s);
      StepMarks(job, r, nsub, s, l);
      StepText(job, r, nsub, s, l);
      var o := Step(job, s);
      if o.Running? { AfterText(job, r, nsub, o.s, Noted(job, s, l), rounds - 1); }
    }
  }

  /** In every run on a pattern without `.*' before a newline the characters noted are those between the start and where
      the matcher stands. */
  lemma TakenIsText(job: Job, r: Re, nsub: nat, rounds: nat)
    requires Called(job, r, nsub) && NoDotLine(r) && Came(job, nsub, rounds).Some?
    ensures var (s, l) := Came(job, nsub, rounds).value; s.d == job.pos + l.now.taken
  {
    hide Program, Sized, RegsWithin, PlainDotLines, Regular, Inv, Marks, After, NoDotLine;
    InitialInv(job, r, nsub);
    FirstMarks(job, r, nsub);
    AfterText(job, r, nsub, Initial(job, nsub), FirstLog(nsub), rounds);
  }
}
