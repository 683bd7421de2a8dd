/** Patterns on which the compiled code and the language part: each lemma follows the machine through one of them. */
module RegexDepartures {
  import opened Wrappers
  import opened RegexTree
  import opened RegexCode
  import opened RegexGrammar
  import opened RegexMachine
  import opened RegexParts
  import opened RegexRounds

  const BASIC := Syntax(false, false, false, false, false, false)

  function ALetter(c: Byte): Re { Exact([Lit(c, false)]) }

  lemma {:induction false} Round(job: Job, s: State, n: nat)
    requires n > 0 && Step(job, s).Running?
    ensures Run(job, s, n) == Run(job, Step(job, s).s, n - 1)
  {
    hide Step;
  }

  lemma {:induction false} LastRound(job: Job, s: State, n: nat)
    requires n > 0 && Step(job, s).Finished?
    ensures Run(job, s, n) == Step(job, s)
  {
    hide Step;
  }

  // ---------- An escaped dot before a newline ----------

  /** `\.*\n' */
  function EscapedDot(): Re {
    Cat(Cat(Empty, DotLine(Exact([Lit(PERIOD, true)]))), ALetter(NEWLINE))
  }

  const ESCAPED_DOT_CODE: seq<Byte> := [16, 6, 0, 2, 1, 46, 13, 250, 255, 2, 1, 10]

  lemma EscapedDotParse()
    ensures Parses(BASIC, [Lit(PERIOD, true), Star, Lit(NEWLINE, false)], EscapedDot())
  {
    var dot, newline := Exact([Lit(PERIOD, true)]), ALetter(NEWLINE);
    assert Yield(DotLine(dot)) == [Lit(PERIOD, true), Star];
    assert Yield(Cat(Empty, DotLine(dot))) == [Lit(PERIOD, true), Star];
    assert Yield(EscapedDot()) == [Lit(PERIOD, true), Star, Lit(NEWLINE, false)];
    assert IsBranch(BASIC, Empty, true);
    assert IsPiece(BASIC, DotLine(dot), true, true);
    assert IsBranch(BASIC, Cat(Empty, DotLine(dot)), true);
    assert IsPiece(BASIC, newline, false, true);
  }

  lemma EscapedDotCode()
    ensures Program(ESCAPED_DOT_CODE, EscapedDot(), BASIC)
  {
    var dot, newline := Exact([Lit(PERIOD, true)]), ALetter(NEWLINE);
    assert Code(dot) == [2, 1, 46];
    assert Code(DotLine(dot)) == [16, 6, 0, 2, 1, 46, 13, 250, 255];
    assert Code(newline) == [2, 1, 10];
    assert Code(Cat(Empty, DotLine(dot))) == [16, 6, 0, 2, 1, 46, 13, 250, 255];
  }

  function EscapedDotJob(): Job { Job(Input(BASIC, [120, 10]), ESCAPED_DOT_CODE, 0, 1) }

  lemma KeepsString(s: State) returns (s2: State)
    requires At(s, 0, 0, [])
    ensures Step(EscapedDotJob(), s) == Running(s2) && s2.p == 3 && s2.d == 0 && s2.best == None
    ensures |s2.stack| == 1 && s2.stack[0].place == Some(9) && s2.stack[0].str == None
  {
    s2 := Step(EscapedDotJob(), s).s;
  }

  lemma EatsOther(s: State) returns (s2: State)
    requires s.p == 3 && s.d == 0 && s.best == None && |s.stack| == 1 && s.stack[0].place == Some(9)
             && s.stack[0].str == None
    ensures Step(EscapedDotJob(), s) == Running(s2) && At(s2, 9, 1, [])
  {
    var job := EscapedDotJob();
    assert Step(job, s) == StepExact(job, s);
    assert Compare(job.g, job.code, 5, 0, 1) == (false, 1);
    s2 := Step(job, s).s;
  }

  lemma TakesNewline(s: State) returns (s2: State)
    requires At(s, 9, 1, [])
    ensures Step(EscapedDotJob(), s) == Running(s2) && At(s2, 12, 2, [])
  {
    var job := EscapedDotJob();
    assert Compare(job.g, job.code, 11, 1, 1) == (true, 2);
    s2 := Step(job, s).s;
  }

  lemma EndsThere(s: State)
    requires At(s, 12, 2, [])
    ensures Step(EscapedDotJob(), s) == Finished(2)
  {
  }

  /** The pattern is compiled as if its escaped dot were the operator: the comparison that ends the loop eats the
      character it fails on, and "x\n" is reported to match. */
  lemma {:induction false} EscapedDotMismatch(rounds: nat)
    requires rounds >= 4
    ensures var g := Input(BASIC, [120, 10]);
            && Program(ESCAPED_DOT_CODE, EscapedDot(), BASIC)
            && Parses(BASIC, [Lit(PERIOD, true), Star, Lit(NEWLINE, false)], EscapedDot())
            && Match(Job(g, ESCAPED_DOT_CODE, 0, 1), 0, rounds) == Finished(2)
            && !Matches(g, EscapedDot(), 0, 2)
  {
    hide Matches, Parses, Program, Step, Initial;
    EscapedDotParse();
    EscapedDotCode();
    var job := EscapedDotJob();
    var s0 := Initial(job, 0);
    StartsAt(job);
    var s1 := KeepsString(s0);
    Round(job, s0, rounds);
    var s2 := EatsOther(s1);
    Round(job, s1, rounds - 1);
    var s3 := TakesNewline(s2);
    Round(job, s2, rounds - 2);
    EndsThere(s3);
    LastRound(job, s3, rounds - 3);
    NotEscapedDot(job.g);
  }

  lemma NotEscapedDot(g: Input)
    requires g == Input(BASIC, [120, 10])
    ensures !Matches(g, EscapedDot(), 0, 2)
  {
    var dot, newline := Exact([Lit(PERIOD, true)]), ALetter(NEWLINE);
    if Matches(g, EscapedDot(), 0, 2) {
      var k := CatSplit(g, Cat(Empty, DotLine(dot)), newline, 0, 2);
      assert k == 1;
      var m := CatSplit(g, Empty, DotLine(dot), 0, 1);
      var n := RepeatsFirstOne(g, dot, 0, 1);
      OtherChar(g, PERIOD, true, 0, n);
    }
  }

  lemma OtherChar(g: Input, c: Byte, escaped: bool, i: nat, j: nat)
    requires i < |g.text| && g.text[i] != c
    ensures !Matches(g, Exact([Lit(c, escaped)]), i, j)
  {
    ItemMatches(g, Exact([Lit(c, escaped)]), i, j);
    assert ItemTakes(g, Exact([Lit(c, escaped)]), i) ==> g.text[i + 0] == CharOf([Lit(c, escaped)][0]);
  }

  lemma ThisChar(g: Input, c: Byte, i: nat)
    requires i < |g.text| && g.text[i] == c
    ensures Matches(g, ALetter(c), i, i + 1)
  {
  }

  // ---------- A count looked up instead of a character ----------

  const A_AND_B: seq<Byte> := [0, 0, 0, 0, 0, 0, 0, 0, 0, 0, 0, 0, 6]

  /** `a*[ab]' */
  function CountedLoop(): Re {
    Cat(Cat(Empty, ZeroOrMore(ALetter(97), [Star])), CharSet(false, A_AND_B))
  }

  const COUNTED_CODE: seq<Byte> := [15, 6, 0, 2, 1, 97, 18, 247, 255, 4, 13] + A_AND_B

  lemma CountedCode()
    ensures Program(COUNTED_CODE, CountedLoop(), BASIC)
  {
    var a := ALetter(97);
    assert Code(a) == [2, 1, 97];
    assert Code(ZeroOrMore(a, [Star])) == [15, 6, 0, 2, 1, 97, 18, 247, 255];
    assert Code(Cat(Empty, ZeroOrMore(a, [Star]))) == [15, 6, 0, 2, 1, 97, 18, 247, 255];
    assert Code(CharSet(false, A_AND_B)) == [4, 13] + A_AND_B;
  }

  // ---------- Rounds of the machine ----------

  /** Where a state is: what the runs below are followed by. */
  predicate At(s: State, p: nat, d: nat, stack: seq<FailPoint>) {
    s.p == p && s.d == d && s.stack == stack && s.best == None
  }

  predicate WayOut(pt: FailPoint, place: nat, d: nat) {
    pt.place == Some(place) && pt.str == Some(d)
  }

  /** An on_failure_jump pushes the way out. */
  lemma Forks(job: Job, s: State, to: nat) returns (s2: State, pt: FailPoint)
    requires s.p < |job.code| && job.code[s.p] == ON_FAILURE_JUMP && Target(job.code, s.p) == to
    requires |s.stack| < job.limit && s.best == None
    ensures Step(job, s) == Running(s2) && At(s2, s.p + 3, s.d, s.stack + [pt]) && WayOut(pt, to, s.d)
  {
    hide Target;
    var s1 := ForkStep(job, s, to);
    s2 := Push(job, s1, Some(to), Some(s.d)).s;
    pt := FailPoint(Some(to), Some(s.d), s1.low, s1.high, SavedRegs(s1));
  }

  lemma Takes(job: Job, s: State, item: Re) returns (s2: State)
    requires ItemCode(job.code, s.p, item) && IsUnit(item) && ItemTakes(job.g, item, s.d) && s.best == None
    ensures Step(job, s) == Running(s2) && At(s2, s.p + Len(item), s.d + 1, s.stack)
  {
    hide Step, SetRegsMatched;
    var d := ItemStep(job, s, item);
    SameButRegs(s.(p := s.p + Len(item), d := s.d + 1));
    s2 := Step(job, s).s;
  }

  /** An item that fails, with the way out on top of the stack. */
  lemma Leaves(job: Job, s: State, item: Re, to: nat, d: nat) returns (s2: State)
    requires ItemCode(job.code, s.p, item) && IsUnit(item) && !ItemTakes(job.g, item, s.d) && s.best == None
    requires s.stack != [] && WayOut(s.stack[|s.stack| - 1], to, d)
    requires to < |job.code| && !IsBackJump(job.code[to])
    ensures Step(job, s) == Running(s2) && At(s2, to, d, s.stack[..|s.stack| - 1])
  {
    hide Step, RestoredRegs;
    var d2 := ItemStep(job, s, item);
    s2 := Fail(job, s.(d := d2)).s;
  }

  /** An item that fails with nothing to go back to. */
  lemma GivesUp(job: Job, s: State, item: Re)
    requires ItemCode(job.code, s.p, item) && IsUnit(item) && !ItemTakes(job.g, item, s.d)
    requires s.best == None && s.stack == []
    ensures Step(job, s) == Finished(-1)
  {
    hide Step;
    var d2 := ItemStep(job, s, item);
  }

  lemma PopsBack(job: Job, s: State, to: nat) returns (s2: State)
    requires s.p < |job.code| && job.code[s.p] == MAYBE_POP_JUMP && Pops(job.code, s.p) && Target(job.code, s.p) == to
    requires s.stack != [] && s.best == None
    ensures Step(job, s) == Running(s2) && At(s2, to, s.d, s.stack[..|s.stack| - 1])
  {
    hide Pops, Target;
    s2 := Step(job, s).s;
  }

  /** A loop over a unit, after which another unit must match: on a text of one character that both could take, when the
      loop's way out is thrown away, the machine finds nothing. */
  lemma {:induction false} LoopMisses(job: Job, loop: Re, next: Re, rounds: nat)
    requires IsUnit(loop) && IsUnit(next) && job.pos == 0 && |job.g.text| == 1 && job.limit >= 1
    requires ItemTakes(job.g, loop, 0) && rounds >= 6
    requires var exit := 6 + Len(loop);
             && exit < |job.code| && job.code[0] == ON_FAILURE_JUMP && Target(job.code, 0) == exit
             && ItemCode(job.code, 3, loop)
             && job.code[exit - 3] == MAYBE_POP_JUMP && Target(job.code, exit - 3) == 0 && Pops(job.code, exit - 3)
             && ItemCode(job.code, exit, next) && !IsBackJump(job.code[exit])
    ensures Match(job, 0, rounds) == Finished(-1)
  {
    hide Step, Len, Target, Pops, Initial;
    var exit := 6 + Len(loop);
    var s0 := Initial(job, 0);
    assert At(s0, 0, 0, []) by { StartsAt(job); }
    var s1, pt := Forks(job, s0, exit);
    Round(job, s0, rounds);
    var s2 := Takes(job, s1, loop);
    Round(job, s1, rounds - 1);
    var s3 := PopsBack(job, s2, 0);
    Round(job, s2, rounds - 2);
    assert At(s3, 0, 1, []);
    var s4, pt2 := Forks(job, s3, exit);
    Round(job, s3, rounds - 3);
    var s5 := Leaves(job, s4, loop, exit, 1);
    Round(job, s4, rounds - 4);
    assert At(s5, exit, 1, []);
    GivesUp(job, s5, next);
    LastRound(job, s5, rounds - 5);
  }

  lemma StartsAt(job: Job)
    ensures At(Initial(job, 0), 0, job.pos, [])
  {
  }

  /** ... though leaving the loop at once would match. */
  lemma LoopShouldMatch(g: Input, loop: Re, next: Re)
    requires IsUnit(next) && |g.text| == 1 && ItemTakes(g, next, 0)
    ensures Matches(g, Cat(Cat(Empty, ZeroOrMore(loop, [Star])), next), 0, 1)
  {
    ItemMatches(g, next, 0, 1);
    assert Repeats(g, loop, 0, 0);
    MatchesCat(g, Empty, ZeroOrMore(loop, [Star]), 0, 0, 0);
    MatchesCat(g, Cat(Empty, ZeroOrMore(loop, [Star])), next, 0, 0, 1);
  }

  /** On "a" the way out of the loop is thrown away, though the bracket expression could take the character just
      taken. */
  lemma {:induction false} CountedMiss(limit: nat, rounds: nat)
    requires limit >= 1 && rounds >= 6
    ensures var g := Input(BASIC, [97]);
            && Program(COUNTED_CODE, CountedLoop(), BASIC)
            && Match(Job(g, COUNTED_CODE, 0, limit), 0, rounds) == Finished(-1)
            && Matches(g, CountedLoop(), 0, 1)
  {
    hide Match, Pops, Target, BitmapAt, Program, Matches;
    var g := Input(BASIC, [97]);
    var job := Job(g, COUNTED_CODE, 0, limit);
    CountedCode();
    CountedPops();
    CountedItems();
    LoopMisses(job, ALetter(97), CharSet(false, A_AND_B), rounds);
    LoopShouldMatch(g, ALetter(97), CharSet(false, A_AND_B));
  }

  lemma CountedItems()
    ensures Target(COUNTED_CODE, 0) == 9 && Target(COUNTED_CODE, 6) == 0
    ensures ItemCode(COUNTED_CODE, 3, ALetter(97)) && ItemCode(COUNTED_CODE, 9, CharSet(false, A_AND_B))
  {
    assert BitmapAt(COUNTED_CODE, 9) == A_AND_B;
  }

  lemma CountedPops()
    ensures Pops(COUNTED_CODE, 6)
  {
    assert Target(COUNTED_CODE, 6) == 0;
    assert SkipGroups(COUNTED_CODE, 9) == 9;
    assert Get(COUNTED_CODE, 11) == 0;
  }

  // ---------- A width cut to a byte ----------

  /** "a" and the character 255 */
  const A_AND_LAST: seq<Byte> :=
    [0, 0, 0, 0, 0, 0, 0, 0, 0, 0, 0, 0, 2, 0, 0, 0, 0, 0, 0, 0, 0, 0, 0, 0, 0, 0, 0, 0, 0, 0, 0, 128]

  /** `[a\377]*a' */
  function WideLoop(): Re {
    Cat(Cat(Empty, ZeroOrMore(CharSet(false, A_AND_LAST), [Star])), ALetter(97))
  }

  const WIDE_CODE: seq<Byte> := [15, 37, 0, 4, 32] + A_AND_LAST + [18, 216, 255, 2, 1, 97]

  lemma WideCode()
    ensures Program(WIDE_CODE, WideLoop(), BASIC)
  {
    hide Code, Len;
    var wide := CharSet(false, A_AND_LAST);
    var loop, a := ZeroOrMore(wide, [Star]), ALetter(97);
    assert Code(wide) == [4, 32] + A_AND_LAST && Len(wide) == 34 by { CodeOfSet(false, A_AND_LAST); }
    CodeOfZeroOrMore(wide, [Star]);
    assert Code(loop) == [15, 37, 0] + Code(wide) + [18, 216, 255];
    CodeOfLetter(97);
    CodeOfCat(Empty, loop);
    CodeOfCat(Cat(Empty, loop), a);
    assert Code(Empty) == [] by { CodeOfEmpty(); }
    assert WIDE_CODE == [] + ([15, 37, 0] + ([4, 32] + A_AND_LAST) + [18, 216, 255]) + [2, 1, 97];
  }

  lemma CodeOfSet(negated: bool, bits: seq<Byte>)
    ensures Len(CharSet(negated, bits)) == 2 + |bits|
    ensures Code(CharSet(negated, bits)) == [if negated then CHARSET_NOT else CHARSET, |bits| % 256] + bits
  {
  }

  lemma CodeOfLetter(c: Byte)
    ensures Code(ALetter(c)) == [EXACTN, 1, c] && Len(ALetter(c)) == 3
  {
  }

  lemma CodeOfEmpty()
    ensures Code(Empty) == []
  {
  }

  lemma WidePops()
    ensures Pops(WIDE_CODE, 37)
  {
    assert Target(WIDE_CODE, 37) == 0;
    assert SkipGroups(WIDE_CODE, 40) == 40;
  }

  lemma WideItems()
    ensures Target(WIDE_CODE, 0) == 40 && Target(WIDE_CODE, 37) == 0
    ensures ItemCode(WIDE_CODE, 3, CharSet(false, A_AND_LAST)) && ItemCode(WIDE_CODE, 40, ALetter(97))
  {
    assert BitmapAt(WIDE_CODE, 3) == A_AND_LAST;
  }

  /** On "a" the loop's bracket expression is taken to list nothing, so its way out is thrown away. */
  lemma {:induction false} WideMiss(limit: nat, rounds: nat)
    requires limit >= 1 && rounds >= 6
    ensures var g := Input(BASIC, [97]);
            && Program(WIDE_CODE, WideLoop(), BASIC)
            && Match(Job(g, WIDE_CODE, 0, limit), 0, rounds) == Finished(-1)
            && Matches(g, WideLoop(), 0, 1)
  {
    hide Match, Pops, Target, BitmapAt, Program, Matches;
    var g := Input(BASIC, [97]);
    var job := Job(g, WIDE_CODE, 0, limit);
    WideCode();
    WidePops();
    WideItems();
    LoopMisses(job, CharSet(false, A_AND_LAST), ALetter(97), rounds);
    LoopShouldMatch(g, CharSet(false, A_AND_LAST), ALetter(97));
  }

  // ---------- An optional newline after `.*' ----------

  /** `.*\n*b' */
  function OptionalNewline(): Re {
    Cat(Cat(Cat(Empty, DotLine(AnyChar)), ZeroOrMore(ALetter(NEWLINE), [Star])), ALetter(98))
  }

  const OPTIONAL_NEWLINE_CODE: seq<Byte> := [16, 4, 0, 3, 13, 252, 255, 15, 6, 0, 2, 1, 10, 18, 247, 255, 2, 1, 98]

  lemma OptionalNewlineCode()
    ensures Program(OPTIONAL_NEWLINE_CODE, OptionalNewline(), BASIC)
  {
    hide Code, Len;
    var newline := ALetter(NEWLINE);
    var dots, loop, b := DotLine(AnyChar), ZeroOrMore(newline, [Star]), ALetter(98);
    assert Code(AnyChar) == [3] && Len(AnyChar) == 1 by { CodeOfAny(); }
    CodeOfLetter(NEWLINE);
    CodeOfLetter(98);
    CodeOfDotLine(AnyChar);
    assert Code(dots) == [16, 4, 0, 3, 13, 252, 255];
    CodeOfZeroOrMore(newline, [Star]);
    assert Code(loop) == [15, 6, 0, 2, 1, 10, 18, 247, 255];
    CodeOfCat(Empty, dots);
    CodeOfCat(Cat(Empty, dots), loop);
    CodeOfCat(Cat(Cat(Empty, dots), loop), b);
    CodeOfEmpty();
  }

  lemma CodeOfAny()
    ensures Code(AnyChar) == [3] && Len(AnyChar) == 1
  {
  }

  /** The machine on such code and a text of one character that only `.' and the last literal take. */
  lemma {:induction false} KeptMisses(job: Job, rounds: nat)
    requires job.pos == 0 && |job.g.text| == 1 && job.limit >= 1 && rounds >= 7
    requires ItemTakes(job.g, AnyChar, 0)
    requires |job.code| > 16 && job.code[0] == ON_FAILURE_KEEP_STRING_JUMP && Target(job.code, 0) == 7
             && job.code[4] == JUMP && Target(job.code, 4) == 3 && job.code[7] == ON_FAILURE_JUMP
                && Target(job.code, 7) == 16
             && ItemCode(job.code, 3, AnyChar) && ItemCode(job.code, 10, ALetter(NEWLINE))
             && ItemCode(job.code, 16, ALetter(98)) && !IsBackJump(job.code[16])
    ensures Match(job, 0, rounds) == Finished(-1)
  {
    hide Step, Target, Initial, BitmapAt;
    var s0 := Initial(job, 0);
    StartsAt(job);
    var s1, pt := KeepForks(job, s0, 7);
    Round(job, s0, rounds);
    assert Len(AnyChar) == 1;
    var s2 := Takes(job, s1, AnyChar);
    Round(job, s1, rounds - 1);
    var s3 := JumpsTo(job, s2, 3);
    Round(job, s2, rounds - 2);
    var s4 := KeepsPlace(job, s3, 7);
    Round(job, s3, rounds - 3);
    assert At(s4, 7, 1, []);
    var s5, pt2 := Forks(job, s4, 16);
    Round(job, s4, rounds - 4);
    var s6 := Leaves(job, s5, ALetter(NEWLINE), 16, 1);
    Round(job, s5, rounds - 5);
    assert At(s6, 16, 1, []);
    GivesUp(job, s6, ALetter(98));
    LastRound(job, s6, rounds - 6);
  }

  /** The `.*' takes "b" and its loop keeps no way back, though the newline it counts on may be left out. */
  lemma {:induction false} OptionalNewlineMiss(limit: nat, rounds: nat)
    requires limit >= 1 && rounds >= 7
    ensures var g := Input(BASIC, [98]);
            && Program(OPTIONAL_NEWLINE_CODE, OptionalNewline(), BASIC)
            && Match(Job(g, OPTIONAL_NEWLINE_CODE, 0, limit), 0, rounds) == Finished(-1)
            && Matches(g, OptionalNewline(), 0, 1)
  {
    hide Match, Matches, Program, Target;
    var g := Input(BASIC, [98]);
    OptionalNewlineCode();
    OptionalNewlineItems();
    OptionalNewlineShouldMatch(g);
    KeptMisses(Job(g, OPTIONAL_NEWLINE_CODE, 0, limit), rounds);
  }

  lemma OptionalNewlineItems()
    ensures var c := OPTIONAL_NEWLINE_CODE;
            && Target(c, 0) == 7 && Target(c, 4) == 3 && Target(c, 7) == 16
            && ItemCode(c, 3, AnyChar) && ItemCode(c, 10, ALetter(NEWLINE)) && ItemCode(c, 16, ALetter(98))
  {
  }

  lemma OptionalNewlineShouldMatch(g: Input)
    requires g == Input(BASIC, [98])
    ensures Matches(g, OptionalNewline(), 0, 1)
  {
    var newline := ALetter(NEWLINE);
    var dots, loop, b := DotLine(AnyChar), ZeroOrMore(newline, [Star]), ALetter(98);
    ThisChar(g, 98, 0);
    assert Repeats(g, AnyChar, 0, 0) && Repeats(g, newline, 0, 0);
    MatchesCat(g, Empty, dots, 0, 0, 0);
    MatchesCat(g, Cat(Empty, dots), loop, 0, 0, 0);
    MatchesCat(g, Cat(Cat(Empty, dots), loop), b, 0, 0, 1);
  }

  lemma KeepForks(job: Job, s: State, to: nat) returns (s2: State, pt: FailPoint)
    requires s.p < |job.code| && job.code[s.p] == ON_FAILURE_KEEP_STRING_JUMP && Target(job.code, s.p) == to
    requires |s.stack| < job.limit && s.best == None
    ensures Step(job, s) == Running(s2) && At(s2, s.p + 3, s.d, s.stack + [pt]) && pt.place == Some(to)
            && pt.str == None
  {
    hide Target;
    s2 := Step(job, s).s;
    pt := FailPoint(Some(to), None, s.low, s.high, SavedRegs(s));
  }

  lemma JumpsTo(job: Job, s: State, to: nat) returns (s2: State)
    requires s.p < |job.code| && job.code[s.p] == JUMP && Target(job.code, s.p) == to && s.best == None
    ensures Step(job, s) == Running(s2) && At(s2, to, s.d, s.stack)
  {
    hide Target;
    s2 := Step(job, s).s;
  }

  /** A `.' that fails leaves a `.*\n' loop where it is. */
  lemma KeepsPlace(job: Job, s: State, to: nat) returns (s2: State)
    requires ItemCode(job.code, s.p, AnyChar) && !ItemTakes(job.g, AnyChar, s.d) && s.best == None
    requires s.stack != [] && s.stack[|s.stack| - 1].place == Some(to) && s.stack[|s.stack| - 1].str == None
    requires to < |job.code| && !IsBackJump(job.code[to])
    ensures Step(job, s) == Running(s2) && At(s2, to, s.d, s.stack[..|s.stack| - 1])
  {
    hide RestoredRegs;
    s2 := Step(job, s).s;
  }
}
