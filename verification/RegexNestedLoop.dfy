/** A loop with a choice inside it, at the end of a pattern: what is thrown away as its way out is a failure point of
    the choice. The run of the machine through `(a*(ab)?)*' on "ab". */
module RegexNestedLoop {
  import opened Wrappers
  import opened RegexTree
  import opened RegexCode
  import opened RegexMachine
  import opened RegexParts
  import opened RegexRounds
  import opened RegexDepartures

  /** `(a*(ab)?)*' */
  function NestedChoice(): Re {
    Cat(Empty, ZeroOrMore(Group(1, 1, Cat(Cat(Empty, ZeroOrMore(ALetter(97), [Star])), Optional(AbGroup(), [Quest]))),
      [Star]))
  }

  function AbGroup(): Re { Group(2, 0, Cat(Empty, Exact([Lit(97, false), Lit(98, false)]))) }

  const NESTED_CODE: seq<Byte> :=
    [15, 31, 0, 6, 1, 1, 15, 6, 0, 2, 1, 97, 18, 247, 255, 15, 10, 0, 6, 2, 0, 2, 2, 97, 98, 7, 2, 0, 7, 1, 1, 18, 222,
      255]

  function NestedJob(limit: nat): Job { Job(Input(BASIC, [97, 98]), NESTED_CODE, 0, limit) }

  const NEW := RegInfo(false, false)
  const OPENED := RegInfo(true, false)
  const TAKEN := RegInfo(true, true)
  const CLOSED := RegInfo(false, true)

  function Out(place: nat, d: nat, low: nat, high: nat, info: seq<RegInfo>): FailPoint {
    FailPoint(Some(place), Some(d), low, high, info)
  }

  /** A failure point with what it saved of the registers of the two groups. */
  function Saved(place: nat, d: nat, high: nat, one: RegInfo, two: RegInfo): FailPoint {
    FailPoint(Some(place), Some(d), 1, high, if high == 1 then [one] else [one, two])
  }

  /** A state inside the first group, or inside both. */
  function In(p: nat, d: nat, stack: seq<FailPoint>, high: nat, one: RegInfo, two: RegInfo, done: bool,
          past: nat): State {
    State(p, d, stack, 1, high, [NEW, one, two], done, past, None)
  }

  lemma Forks(job: Job, s: State)
    requires s.p < |job.code| && job.code[s.p] == ON_FAILURE_JUMP
    ensures Step(job, s) == StepOnFailure(job, s)
  {
    hide StepOnFailure;
  }

  lemma ForksInside(job: Job, s: State, to: nat, one: RegInfo, two: RegInfo)
    requires JumpHere(job.code, s.p, ON_FAILURE_JUMP, to) && Get(job.code, s.p + 3) != NO_OP && |s.stack| < job.limit
    requires s.info == [NEW, one, two] && s.best == None
    requires var group := Get(job.code, s.p + 3) == START_MEMORY;
             && (if group then Get(job.code, s.p + 4) + Get(job.code, s.p + 5) == 2 else 1 <= s.high <= 2)
             && (if group && s.low == NO_LOWEST_ACTIVE_REG then Get(job.code, s.p + 4) == 1 else s.low == 1)
    ensures var high := if Get(job.code, s.p + 3) == START_MEMORY then 2 else s.high;
            Step(job, s) == Running(In(s.p + 3, s.d, s.stack + [Saved(to, s.d, high, one, two)], high, one, two,
              s.done, s.justPast))
  {
    hide Target, Step;
    assert SkipNoOps(job.code, s.p + 3) == s.p + 3;
    assert [NEW, one, two][1..2] == [one] && [NEW, one, two][1..3] == [one, two];
    Forks(job, s);
  }

  /** An item that fails: back to the latest failure point, and to what it saved. */
  lemma FailsInside(job: Job, s: State, item: Re, to: nat, d: nat, high: nat, one: RegInfo, two: RegInfo)
    requires ItemCode(job.code, s.p, item) && IsItem(item) && !ItemTakes(job.g, item, s.d)
    requires |s.info| == 3 && s.info[0] == NEW && s.best == None && 1 <= high <= 2
    requires s.stack != [] && s.stack[|s.stack| - 1] == Saved(to, d, high, one, two)
    requires to < |job.code| && !IsBackJump(job.code[to])
    ensures Step(job, s) == Running(In(to, d, s.stack[..|s.stack| - 1], high, one, if high == 1 then s.info[2] else two,
                                       false, s.justPast))
  {
    hide Step, ItemCode, ItemTakes;
    var d2 := ItemStep(job, s, item);
    var pt := s.stack[|s.stack| - 1];
    assert RestoredRegs(s.info, pt) == [NEW, one, if high == 1 then s.info[2] else two];
  }

  lemma OpensGroup(job: Job, s: State, one: RegInfo, two: RegInfo)
    requires s.p < |job.code| && job.code[s.p] == START_MEMORY && 1 <= Get(job.code, s.p + 1) <= 2
    requires s.info == [NEW, one, two] && s.low == 1 && s.best == None
    ensures var reg := Get(job.code, s.p + 1);
            Step(job, s) == Running(In(s.p + 3, s.d, s.stack, reg, if reg == 1 then OPENED else one,
                                       if reg == 2 then OPENED else two, false, s.p + 3))
  {
    var reg := Get(job.code, s.p + 1);
    assert s.info[reg := OPENED] == [NEW, if reg == 1 then OPENED else one, if reg == 2 then OPENED else two];
  }

  /** The matcher stands at a group's end: the group's register is closed, and control goes on or is forced out. */
  lemma ClosesGroup(job: Job, s: State, one: RegInfo, two: RegInfo)
    requires s.p + 3 < |job.code| && job.code[s.p] == STOP_MEMORY && Get(job.code, s.p + 1) == 1
    requires s.info == [NEW, one, two] && one.matched && s.justPast != s.p
    ensures Step(job, s) == Running(s.(p := s.p + 3, info := [NEW, one.(active := false), two], done := false,
                                       low := NO_LOWEST_ACTIVE_REG, high := NO_HIGHEST_ACTIVE_REG))
  {
    hide LoopHead;
    assert s.info[1 := one.(active := false)] == [NEW, one.(active := false), two];
    assert Step(job, s) == StepStop(job, s);
  }

  // ---------- The run ----------

  const A := Saved(34, 0, 2, NEW, NEW)
  const B := Saved(15, 0, 1, OPENED, NEW)
  const C := Saved(15, 1, 1, TAKEN, NEW)
  const D := Saved(28, 1, 2, TAKEN, NEW)
  const E := Saved(34, 1, 2, CLOSED, NEW)
  const F := Saved(15, 1, 1, OPENED, NEW)
  const G := Saved(28, 1, 2, OPENED, NEW)

  lemma Jumps()
    ensures var c := NESTED_CODE;
            && JumpHere(c, 0, ON_FAILURE_JUMP, 34) && JumpHere(c, 6, ON_FAILURE_JUMP, 15)
            && JumpHere(c, 12, MAYBE_POP_JUMP, 6)
            && JumpHere(c, 15, ON_FAILURE_JUMP, 28) && JumpHere(c, 31, MAYBE_POP_JUMP, 0) && Offset(c, 31) == -34
  {
  }

  lemma Items()
    ensures ItemCode(NESTED_CODE, 9, ALetter(97)) && ItemCode(NESTED_CODE, 21, Exact([Lit(97, false), Lit(98, false)]))
  {
  }

  /** The decisions: the inner loop goes on to a choice, and behind the outer one there is nothing. */
  lemma Decisions()
    ensures !Pops(NESTED_CODE, 12) && Pops(NESTED_CODE, 31)
  {
    hide Target, CannotMatchChar, CannotMatchSet;
    assert SkipGroups(NESTED_CODE, 15) == 15 && SkipGroups(NESTED_CODE, 34) == 34;
  }

  /** Text and items: only the first character is an a, and no item of the pattern takes the second alone. */
  lemma Letters(limit: nat)
    ensures var g, ab := NestedJob(limit).g, Exact([Lit(97, false), Lit(98, false)]);
            ItemTakes(g, ALetter(97), 0) && !ItemTakes(g, ALetter(97), 1) && !ItemTakes(g, ab, 1)
  {
    var g, a := NestedJob(limit).g, Lit(97, false);
    assert g.text[1 + 0] != CharOf([a][0]);
  }

  /** Into the group, to the inner loop's letter. */
  lemma {:induction false} Enters(limit: nat, n: nat)
    requires limit >= 3 && n >= 3
    ensures var job := NestedJob(limit);
            Run(job, Initial(job, 2), n)
              == Run(job, In(9, 0, [A, B], 1, OPENED, NEW, false, 6), n - 3)
  {
    hide Step, Target, Run, SetRegsMatched, RestoredRegs, SavedRegs;
    var job := NestedJob(limit);
    Jumps();
    var s0, s1, s2 := Initial(job, 2), In(3, 0, [A], 2, NEW, NEW, false, 0), In(6, 0, [A], 1, OPENED, NEW, false, 6);
    assert s0.info == [NEW, NEW, NEW];
    ForksInside(job, s0, 34, NEW, NEW);
    assert s0.stack + [A] == [A];
    Round(job, s0, n);
    OpensGroup(job, s1, NEW, NEW);
    Round(job, s1, n - 1);
    ForksInside(job, s2, 15, OPENED, NEW);
    assert [A] + [B] == [A, B];
    Round(job, s2, n - 2);
  }

  /** The a is taken, and the inner loop goes on without throwing its way out away. */
  lemma {:induction false} TakesLetter(limit: nat, n: nat)
    requires limit >= 3 && n >= 4
    ensures var job := NestedJob(limit);
            Run(job, In(9, 0, [A, B], 1, OPENED, NEW, false, 6), n)
              == Run(job, In(15, 1, [A, B], 1, TAKEN, NEW, false, 6), n - 4)
  {
    hide Step, Target, Run, Pops;
    var job := NestedJob(limit);
    Jumps();
    Items();
    Decisions();
    Letters(limit);
    var s3, s4 := In(9, 0, [A, B], 1, OPENED, NEW, false, 6), In(12, 1, [A, B], 1, TAKEN, NEW, true, 6);
    var s5, s6 := In(6, 1, [A, B], 1, TAKEN, NEW, true, 6), In(9, 1, [A, B, C], 1, TAKEN, NEW, true, 6);
    var d := ItemStep(job, s3, ALetter(97));
    assert Len(ALetter(97)) == 3;
    LetterTaken();
    Round(job, s3, n);
    JumpsBack(job, s4, 6);
    Round(job, s4, n - 1);
    ForksInside(job, s5, 15, TAKEN, NEW);
    assert [A, B] + [C] == [A, B, C];
    Round(job, s5, n - 2);
    FailsInside(job, s6, ALetter(97), 15, 1, 1, TAKEN, NEW);
    assert [A, B, C][..2] == [A, B];
    Round(job, s6, n - 3);
  }

  lemma LetterTaken()
    ensures SetRegsMatched(In(12, 1, [A, B], 1, OPENED, NEW, false, 6)) == In(12, 1, [A, B], 1, TAKEN, NEW, true, 6)
  {
    var t := SetRegsMatched(In(12, 1, [A, B], 1, OPENED, NEW, false, 6));
    assert t.info == [NEW, TAKEN, NEW];
  }

  lemma JumpsBack(job: Job, s: State, to: nat)
    requires JumpHere(job.code, s.p, MAYBE_POP_JUMP, to)
    ensures !Pops(job.code, s.p) ==> Step(job, s) == Running(s.(p := to))
    ensures Pops(job.code, s.p) && s.stack != [] ==>
      Step(job, s) == Running(s.(p := to, stack := s.stack[..|s.stack| - 1], done := false))
  {
    hide Pops, Target;
  }

  /** The second group cannot be matched here, and the choice of it is given up. */
  lemma {:induction false} SkipsSecond(limit: nat, n: nat, x: FailPoint, one: RegInfo)
    requires limit >= 3 && n >= 3
    ensures var job := NestedJob(limit);
            Run(job, In(15, 1, [A, x], 1, one, NEW, false, 6), n)
              == Run(job, In(28, 1, [A, x], 2, one, NEW, false, 21), n - 3)
  {
    hide Step, Target, Run, ItemCode, ItemTakes;
    var job, ab := NestedJob(limit), Exact([Lit(97, false), Lit(98, false)]);
    Jumps();
    Items();
    Letters(limit);
    var y := Saved(28, 1, 2, one, NEW);
    var s7, s8 := In(15, 1, [A, x], 1, one, NEW, false, 6), In(18, 1, [A, x, y], 2, one, NEW, false, 6);
    var s9 := In(21, 1, [A, x, y], 2, one, OPENED, false, 21);
    ForksInside(job, s7, 28, one, NEW);
    assert [A, x] + [y] == [A, x, y];
    Round(job, s7, n);
    OpensGroup(job, s8, one, NEW);
    Round(job, s8, n - 1);
    FailsInside(job, s9, ab, 28, 1, 2, one, NEW);
    assert [A, x, y][..2] == [A, x];
    Round(job, s9, n - 2);
  }

  /** At the end of the outer loop nothing follows, so the latest failure point is thrown away: it is the inner
      loop's. */
  lemma {:induction false} ThrowsAway(limit: nat, n: nat)
    requires limit >= 3 && n >= 4
    ensures var job := NestedJob(limit);
            Run(job, In(28, 1, [A, B], 2, TAKEN, NEW, false, 21), n)
              == Run(job, In(6, 1, [A, E], 1, OPENED, NEW, false, 6), n - 4)
  {
    hide Step, Target, Run, Pops;
    var job := NestedJob(limit);
    Jumps();
    Decisions();
    var s10 := In(28, 1, [A, B], 2, TAKEN, NEW, false, 21);
    var s11 := State(31, 1, [A, B], 257, 256, [NEW, CLOSED, NEW], false, 21, None);
    var s12 := s11.(p := 0, stack := [A]);
    var s13 := In(3, 1, [A, E], 2, CLOSED, NEW, false, 21);
    ClosesGroup(job, s10, TAKEN, NEW);
    Round(job, s10, n);
    JumpsBack(job, s11, 0);
    assert [A, B][..1] == [A];
    Round(job, s11, n - 1);
    ForksInside(job, s12, 34, CLOSED, NEW);
    assert [A] + [E] == [A, E];
    Round(job, s12, n - 2);
    OpensGroup(job, s13, CLOSED, NEW);
    Round(job, s13, n - 3);
  }

  /** The inner loop cannot take the b. */
  lemma {:induction false} LeavesInner(limit: nat, n: nat)
    requires limit >= 3 && n >= 2
    ensures var job := NestedJob(limit);
            Run(job, In(6, 1, [A, E], 1, OPENED, NEW, false, 6), n)
              == Run(job, In(15, 1, [A, E], 1, OPENED, NEW, false, 6), n - 2)
  {
    hide Step, Target, Run;
    var job := NestedJob(limit);
    Jumps();
    Items();
    Letters(limit);
    var s14, s15 := In(6, 1, [A, E], 1, OPENED, NEW, false, 6), In(9, 1, [A, E, F], 1, OPENED, NEW, false, 6);
    ForksInside(job, s14, 15, OPENED, NEW);
    assert [A, E] + [F] == [A, E, F];
    Round(job, s14, n);
    FailsInside(job, s15, ALetter(97), 15, 1, 1, OPENED, NEW);
    assert [A, E, F][..2] == [A, E];
    Round(job, s15, n - 1);
  }

  /** The group has matched nothing this time: the loop is left, and the two ways out that remain are no longer. */
  lemma {:induction false} GivesShort(limit: nat, n: nat)
    requires limit >= 3 && n >= 4
    ensures var job := NestedJob(limit); Run(job, In(28, 1, [A, E], 2, OPENED, NEW, false, 21), n) == Finished(1)
  {
    hide Step, Target, Run;
    var job := NestedJob(limit);
    var s19 := In(28, 1, [A, E], 2, OPENED, NEW, false, 21);
    var s20 := ForcedOut(limit, s19);
    Round(job, s19, n);
    var s21 := EndsLonger(job, s20, E);
    Round(job, s20, n - 1);
    assert [A, E][..1] == [A];
    var s22 := EndsLonger(job, s21, A);
    Round(job, s21, n - 2);
    assert Step(job, s22) == Finished(1) by { EndsShorter(job, s22); }
    LastRound(job, s22, n - 3);
  }

  lemma ForcedOut(limit: nat, s: State) returns (s2: State)
    requires limit >= 3 && s == In(28, 1, [A, E], 2, OPENED, NEW, false, 21)
    ensures Step(NestedJob(limit), s) == Running(s2) && s2.p == 34 && s2.d == 1 && s2.stack == [A, E] && s2.best == None
  {
    hide Target, RestoredRegs, SavedRegs;
    var job := NestedJob(limit);
    Jumps();
    var t := Stopped(s, 1);
    assert t.info == [NEW, NEW, NEW] && t.stack == [A, E] && t.d == 1 && t.best == None;
    assert LoopHead(job.code, 28) == Some(0);
    assert Step(job, s) == StepStop(job, s);
    var pt := FailPoint(Some(34), Some(1), t.low, t.high, SavedRegs(t));
    assert ([A, E] + [pt])[..2] == [A, E];
    s2 := Step(job, s).s;
  }

  /** At the end before the end of the text: what is longer is remembered, and the latest failure point is tried. */
  lemma EndsLonger(job: Job, s: State, pt: FailPoint) returns (s2: State)
    requires s.p == |job.code| && s.d < |job.g.text| && s.stack != [] && s.stack[|s.stack| - 1] == pt
    requires pt.place == Some(|job.code|) && pt.str.Some?
    ensures Step(job, s) == Running(s2) && s2.p == |job.code| && s2.d == pt.str.value
            && s2.stack == s.stack[..|s.stack| - 1]
    ensures s2.best == if s.best.None? || s.d > s.best.value then Some(s.d) else s.best
  {
    hide RestoredRegs;
    s2 := Step(job, s).s;
  }

  lemma EndsShorter(job: Job, s: State)
    requires s.p == |job.code| && s.d < |job.g.text| && s.stack == [] && s.best.Some? && s.d <= s.best.value
    ensures Step(job, s) == Finished(s.best.value - job.pos)
  {
  }

  // ---------- When a loop over a group throws away the latest failure point ----------

  lemma GroupOpens(code: seq<Byte>, base: nat, reg: nat, inner: nat, body: Re)
    requires Laid(code, base, Group(reg, inner, body)) && reg <= MAX_REGNUM
    ensures Get(code, base) == START_MEMORY
  {
    hide Laid;
    LaidGroup(code, base, reg, inner, body);
    assert code[base] == MemoryCode(START_MEMORY, reg, inner)[0];
  }

  /** At the end of a loop over a numbered group the matcher throws the latest failure point away, whatever it is, if
      and only if nothing but the marks of groups is behind the loop; otherwise it keeps them all. */
  lemma GroupLoopDecides(job: Job, s: State, base: nat, reg: nat, inner: nat, body: Re, ops: seq<Token>)
    requires Laid(job.code, base, ZeroOrMore(Group(reg, inner, body), ops)) && reg <= MAX_REGNUM
    requires |job.code| < MAX_OFFSET_CODE && s.p == base + 3 + Len(Group(reg, inner, body)) && s.stack != []
    ensures Step(job, s) == Running(if SkipGroups(job.code, s.p + 3) == |job.code|
                                    then s.(p := base, stack := s.stack[..|s.stack| - 1], done := false)
                                    else s.(p := base))
  {
    hide Laid, Len, JumpAt, Target, Get, Step, SkipGroups;
    var group := Group(reg, inner, body);
    LaidZeroOrMore(job.code, base, group, ops);
    JumpLaid(job.code, s.p, MAYBE_POP_JUMP, -(Len(group) + 6));
    GroupOpens(job.code, base + 3, reg, inner, body);
    JumpsBack(job, s, base);
  }

  function Body(): Re { Cat(Cat(Empty, ZeroOrMore(ALetter(97), [Star])), Optional(AbGroup(), [Quest])) }

  const BODY_CODE: seq<Byte> := [15, 6, 0, 2, 1, 97, 18, 247, 255, 15, 10, 0, 6, 2, 0, 2, 2, 97, 98, 7, 2, 0]

  lemma BodyCodeIs()
    ensures Code(Body()) == BODY_CODE
  {
    hide Code, Len;
    var loop := ZeroOrMore(ALetter(97), [Star]);
    LoopCodeIs();
    GroupCodeIs();
    CodeOfEmpty();
    CodeOfCat(Empty, loop);
    CodeOfCat(Cat(Empty, loop), Optional(AbGroup(), [Quest]));
  }

  lemma NestedCode()
    ensures Program(NESTED_CODE, NestedChoice(), BASIC)
  {
    hide Code, Len;
    BodyCodeIs();
    CodeOfEmpty();
    CodeOfGroup(1, 1, Body());
    assert Code(Group(1, 1, Body())) == [6, 1, 1] + BODY_CODE + [7, 1, 1];
    CodeOfZeroOrMore(Group(1, 1, Body()), [Star]);
    CodeOfCat(Empty, ZeroOrMore(Group(1, 1, Body()), [Star]));
  }

  lemma LoopCodeIs()
    ensures Code(ZeroOrMore(ALetter(97), [Star])) == [15, 6, 0, 2, 1, 97, 18, 247, 255]
  {
    CodeOfLetter(97);
  }

  lemma GroupCodeIs()
    ensures Code(Optional(AbGroup(), [Quest])) == [15, 10, 0, 6, 2, 0, 2, 2, 97, 98, 7, 2, 0]
  {
    hide Code, Len;
    var ab := Exact([Lit(97, false), Lit(98, false)]);
    CodeOfAb();
    CodeOfEmpty();
    CodeOfCat(Empty, ab);
    CodeOfGroup(2, 0, Cat(Empty, ab));
    CodeOfOptional(AbGroup(), [Quest]);
  }

  lemma CodeOfAb()
    ensures Code(Exact([Lit(97, false), Lit(98, false)])) == [2, 2, 97, 98]
  {
  }

  /** The whole text is in the language: no a for the inner loop, and "ab" for the second group. */
  lemma NestedShouldMatch(g: Input)
    requires g == Input(BASIC, [97, 98])
    ensures Matches(g, NestedChoice(), 0, 2)
  {
    var ab := Exact([Lit(97, false), Lit(98, false)]);
    var loop, second := ZeroOrMore(ALetter(97), [Star]), Optional(AbGroup(), [Quest]);
    var body := Cat(Cat(Empty, loop), second);
    assert Matches(g, ab, 0, 2) by {
      assert g.text[0 + 0] == 97 && g.text[0 + 1] == 98;
    }
    MatchesCat(g, Empty, ab, 0, 0, 2);
    assert Matches(g, second, 0, 2);
    assert Repeats(g, ALetter(97), 0, 0);
    MatchesCat(g, Empty, loop, 0, 0, 0);
    MatchesCat(g, Cat(Empty, loop), second, 0, 0, 2);
    RepeatsOnce(g, Group(1, 1, body), 0, 2);
    MatchesCat(g, Empty, ZeroOrMore(Group(1, 1, body), [Star]), 0, 0, 2);
  }

  /** On "ab" the matcher returns 1, though all of the text matches: after the a the loop's end throws away the failure
      point from which the inner loop would have left the a to the second group. */
  lemma {:induction false} NestedMiss(limit: nat, rounds: nat)
    requires limit >= 3 && rounds >= 23
    ensures var g := Input(BASIC, [97, 98]);
            && Program(NESTED_CODE, NestedChoice(), BASIC)
            && Match(Job(g, NESTED_CODE, 0, limit), 2, rounds) == Finished(1)
            && Matches(g, NestedChoice(), 0, 2)
  {
    hide Run, Matches, Program, Initial;
    NestedCode();
    NestedShouldMatch(Input(BASIC, [97, 98]));
    Enters(limit, rounds);
    TakesLetter(limit, rounds - 3);
    SkipsSecond(limit, rounds - 7, B, TAKEN);
    ThrowsAway(limit, rounds - 10);
    LeavesInner(limit, rounds - 14);
    SkipsSecond(limit, rounds - 16, E, OPENED);
    GivesShort(limit, rounds - 19);
  }
}
