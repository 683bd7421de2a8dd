/** A group in which a `.*' before a newline has taken text, and nothing else has: its mark is forgotten when the loop
    is left, and the loop around the group is left by force although the round has taken text. */
module RegexForgotten {
  import opened Wrappers
  import opened RegexTree
  import opened RegexCode
  import opened RegexGrammar
  import opened RegexMachine
  import opened RegexMarks
  import opened RegexForced
  import opened RegexDepartures

  /** `(.*\n?)*' */
  function DotsInGroup(): Re {
    Cat(Empty, ZeroOrMore(Group(1, 0, Cat(Cat(Empty, DotLine(AnyChar)), Optional(Exact([Lit(10, false)]), [Quest]))),
      [Star]))
  }

  const DOTS_CODE: seq<Byte> :=
    [15, 22, 0, 6, 1, 0, 16, 4, 0, 3, 13, 252, 255, 15, 3, 0, 2, 1, 10, 7, 1, 0, 18, 231, 255]

  function DotsJob(limit: nat): Job { Job(Input(BASIC, [97]), DOTS_CODE, 0, limit) }

  function DotsBody(): Re { Cat(Cat(Empty, DotLine(AnyChar)), Optional(Exact([Lit(10, false)]), [Quest])) }

  lemma DotsBodyCode()
    ensures Code(DotsBody()) == [16, 4, 0, 3, 13, 252, 255, 15, 3, 0, 2, 1, 10]
  {
    hide Code, Len;
    DotsAlone();
    LineAlone();
    CodeOfEmpty();
    CodeOfCat(Empty, DotLine(AnyChar));
    CodeOfCat(Cat(Empty, DotLine(AnyChar)), Optional(Exact([Lit(10, false)]), [Quest]));
  }

  lemma DotsGroupCode()
    ensures Code(Group(1, 0, DotsBody())) == [6, 1, 0, 16, 4, 0, 3, 13, 252, 255, 15, 3, 0, 2, 1, 10, 7, 1, 0]
  {
    hide Code, Len;
    DotsBodyCode();
    CodeOfGroup(1, 0, DotsBody());
  }

  lemma DotsCode()
    ensures Program(DOTS_CODE, DotsInGroup(), BASIC)
  {
    hide Code, Len;
    DotsGroupCode();
    CodeOfEmpty();
    CodeOfZeroOrMore(Group(1, 0, DotsBody()), [Star]);
    CodeOfCat(Empty, ZeroOrMore(Group(1, 0, DotsBody()), [Star]));
  }

  lemma DotsAlone()
    ensures Code(DotLine(AnyChar)) == [16, 4, 0, 3, 13, 252, 255]
  {
    CodeOfDotLine(AnyChar);
  }

  lemma LineAlone()
    ensures Code(Optional(Exact([Lit(10, false)]), [Quest])) == [15, 3, 0, 2, 1, 10]
  {
    CodeOfOptional(Exact([Lit(10, false)]), [Quest]);
  }

  // ---------- The run on "a" ----------

  const IDLE := RegInfo(false, false)
  const OPENED := RegInfo(true, false)
  const TAKEN := RegInfo(true, true)

  const OUT := FailPoint(Some(25), Some(0), 1, 1, [IDLE])
  const KEPT := FailPoint(Some(13), None, 1, 1, [OPENED])
  const SKIP := FailPoint(Some(19), Some(1), 1, 1, [OPENED])

  function In(p: nat, d: nat, stack: seq<FailPoint>, one: RegInfo, done: bool, past: nat): State {
    State(p, d, stack, 1, 1, [IDLE, one], done, past, None)
  }

  lemma {:induction false} Onward(job: Job, s: State, l: Log, n: nat)
    requires n > 0 && Step(job, s).Running?
    ensures After(job, s, l, n) == After(job, Step(job, s).s, Noted(job, s, l), n - 1)
  {
    hide Step, Noted;
  }

  /** The states on the way. */
  const S1 := In(3, 0, [OUT], IDLE, false, 0)
  const S2 := In(6, 0, [OUT], OPENED, false, 6)
  const S3 := In(9, 0, [OUT, KEPT], OPENED, false, 6)
  const S4 := In(10, 1, [OUT, KEPT], TAKEN, true, 6)
  const S5 := In(9, 1, [OUT, KEPT], TAKEN, true, 6)
  const S6 := In(13, 1, [OUT], OPENED, false, 6)
  const S7 := In(16, 1, [OUT, SKIP], OPENED, false, 6)
  const S8 := In(19, 1, [OUT], OPENED, false, 6)

  lemma Into(limit: nat)
    requires limit >= 3
    ensures Step(DotsJob(limit), Initial(DotsJob(limit), 1)) == Running(S1)
  {
    hide Step;
    var job := DotsJob(limit);
    assert Initial(job, 1).info == [IDLE, IDLE];
    assert Step(job, Initial(job, 1)) == StepOnFailure(job, Initial(job, 1)) by { Forks(job, Initial(job, 1)); }
    assert [IDLE, IDLE][1..2] == [IDLE] && [] + [OUT] == [OUT];
  }

  lemma Forks(job: Job, s: State)
    requires s.p < |job.code| && job.code[s.p] == ON_FAILURE_JUMP
    ensures Step(job, s) == StepOnFailure(job, s)
  {
    hide StepOnFailure;
  }

  lemma Opens(limit: nat)
    ensures Step(DotsJob(limit), S1) == Running(S2)
  {
    assert [IDLE, IDLE][1 := OPENED] == [IDLE, OPENED];
  }

  lemma Keeps(limit: nat)
    requires limit >= 3
    ensures Step(DotsJob(limit), S2) == Running(S3)
  {
    hide Step;
    var job := DotsJob(limit);
    assert Step(job, S2) == StepOnFailureKeepString(job, S2) by { KeepForks(job, S2); }
    assert [IDLE, OPENED][1..2] == [OPENED] && [OUT] + [KEPT] == [OUT, KEPT];
  }

  lemma KeepForks(job: Job, s: State)
    requires s.p < |job.code| && job.code[s.p] == ON_FAILURE_KEEP_STRING_JUMP
    ensures Step(job, s) == StepOnFailureKeepString(job, s)
  {
    hide StepOnFailureKeepString;
  }

  lemma Takes(limit: nat)
    ensures Step(DotsJob(limit), S3) == Running(S4) && Step(DotsJob(limit), S4) == Running(S5)
  {
    var t := SetRegsMatched(In(10, 1, [OUT, KEPT], OPENED, false, 6));
    assert t.info == [IDLE, TAKEN];
  }

  lemma Leaves(limit: nat)
    ensures Step(DotsJob(limit), S5) == Running(S6)
  {
    assert RestoredRegs([IDLE, TAKEN], KEPT) == [IDLE, OPENED];
    assert [OUT, KEPT][..1] == [OUT];
  }

  lemma Skips(limit: nat)
    requires limit >= 3
    ensures Step(DotsJob(limit), S6) == Running(S7)
  {
    assert [OUT] + [SKIP] == [OUT, SKIP] && [IDLE, OPENED][1..2] == [OPENED];
  }

  lemma Gives(limit: nat)
    ensures Step(DotsJob(limit), S7) == Running(S8)
  {
    assert RestoredRegs([IDLE, OPENED], SKIP) == [IDLE, OPENED];
    assert [OUT, SKIP][..1] == [OUT];
  }

  lemma LeftBehind(limit: nat)
    requires limit >= 3
    ensures var o := Step(DotsJob(limit), S8);
            o.Running? && o.s.p == 25 && o.s.d == 1 && o.s.stack == [OUT]
  {
    var job, s := DotsJob(limit), S8;
    var t := Stopped(s, 1);
    assert t.info == [IDLE, IDLE];
    assert LoopHead(job.code, 19) == Some(0);
    var pt := FailPoint(Some(25), Some(1), t.low, t.high, SavedRegs(t));
    assert ([OUT] + [pt])[..1] == [OUT];
  }

  /** What the log has of the first rounds, and of those after the character. */
  lemma Logs(limit: nat)
    requires limit >= 3
    ensures var job, n0, n1 := DotsJob(limit), Note(0, [0, 0]), Note(1, [0, 0]);
            && Noted(job, Initial(job, 1), Log(n0, [])) == Log(n0, [n0]) &&
              Noted(job, S1, Log(n0, [n0])) == Log(n0, [n0])
            && Noted(job, S2, Log(n0, [n0])) == Log(n0, [n0, n0])
            && Noted(job, S3, Log(n0, [n0, n0])) == Log(n1, [n0, n0])
            && Noted(job, S4, Log(n1, [n0, n0])) == Log(n1, [n0, n0])
            && Noted(job, S5, Log(n1, [n0, n0])) == Log(n0, [n0])
            && Noted(job, S6, Log(n0, [n0])) == Log(n0, [n0, n0]) && Noted(job, S7, Log(n0, [n0, n0])) == Log(n0, [n0])
  {
    hide Step, Initial;
    var n0 := Note(0, [0, 0]);
    Into(limit);
    Opens(limit);
    Keeps(limit);
    Takes(limit);
    Leaves(limit);
    Skips(limit);
    Gives(limit);
    StartIs(DotsJob(limit));
    assert [0, 0][1 := 0] == [0, 0];
    assert [n0] + [n0] == [n0, n0] && [] + [n0] == [n0] && [n0, n0][..1] == [n0];
  }

  /** At the end of the group the text has been taken and the mark is not set; the loop is left by force. */
  lemma {:induction false} DotsForgotten(limit: nat) returns (s: State, l: Log)
    requires limit >= 3
    ensures Program(DOTS_CODE, DotsInGroup(), BASIC) && Came(DotsJob(limit), 1, 8) == Some((s, l))
    ensures s.p == 19 && s.d == 1 && s.info == [IDLE, OPENED] && l.now == Note(0, [0, 0])
    ensures DOTS_CODE[19] == STOP_MEMORY && DOTS_CODE[20] == 1 && !OPENED.matched
    ensures var o := Step(DotsJob(limit), s); o.Running? && o.s.p == 25 && o.s.d == 1
  {
    hide Step, After, Program, Initial, Noted;
    var job, n0, n1 := DotsJob(limit), Note(0, [0, 0]), Note(1, [0, 0]);
    DotsCode();
    Into(limit);
    Opens(limit);
    Keeps(limit);
    Takes(limit);
    Leaves(limit);
    Skips(limit);
    Gives(limit);
    LeftBehind(limit);
    Logs(limit);
    assert FirstLog(1) == Log(n0, []);
    Onward(job, Initial(job, 1), FirstLog(1), 8);
    Onward(job, S1, Log(n0, [n0]), 7);
    Onward(job, S2, Log(n0, [n0]), 6);
    Onward(job, S3, Log(n0, [n0, n0]), 5);
    Onward(job, S4, Log(n1, [n0, n0]), 4);
    Onward(job, S5, Log(n1, [n0, n0]), 3);
    Onward(job, S6, Log(n0, [n0]), 2);
    Onward(job, S7, Log(n0, [n0, n0]), 1);
    AfterNone(job, S8, Log(n0, [n0]));
    s, l := S8, Log(n0, [n0]);
  }

  lemma StartIs(job: Job)
    ensures Initial(job, 1).p == 0 && Initial(job, 1).d == job.pos && Initial(job, 1).stack == []
  {
  }

  lemma AfterNone(job: Job, s: State, l: Log)
    ensures After(job, s, l, 0) == Some((s, l))
  {
    hide Step;
  }
}
