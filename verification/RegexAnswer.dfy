/** Which of the ends that a run reaches is its answer, for every pattern: the longest, or under
    RE_NO_POSIX_BACKTRACKING the first. */
module RegexAnswer {
  import opened Wrappers
  import opened RegexTree
  import opened RegexCode
  import opened RegexPaths
  import opened RegexLayout
  import opened RegexMachine
  import opened RegexSoundness

  /** The positions in the text at which control is at the end of the pattern, in the order the run comes to them. */
  function Ends(job: Job, end: nat, s: State, rounds: nat): seq<nat>
    decreases rounds
  {
    if rounds == 0 then []
    else
      var o := Step(job, s);
      (if s.p == end then [s.d] else []) + (if o.Running? then Ends(job, end, o.s, rounds - 1) else [])
  }

  /** n is the answer where these ends are still reached and the longest before them is `best'. */
  ghost predicate Answers(job: Job, best: Option<nat>, ends: seq<nat>, n: int) {
    if best.None? && ends == [] then n == -1
    else
      && ((best.Some? && best.value == job.pos + n) || job.pos + n in ends)
      && (best.Some? ==> best.value <= job.pos + n)
      && forall e :: e in ends ==> e <= job.pos + n
  }

  /** The best match so far is as it was; or there is nothing left to try, and it is the answer. */
  predicate Kept(job: Job, best: Option<nat>, o: Outcome) {
    && (o.Running? ==> o.s.best == best)
    && (o.Finished? && o.n != -2 ==> o.n == if best.Some? then best.value - job.pos else -1)
  }

  lemma {:induction false} FailKeeps(job: Job, s: State)
    ensures Kept(job, s.best, Fail(job, s))
    decreases |s.stack|
  {
    if s.stack != [] {
      var pt := s.stack[|s.stack| - 1];
      var popped := s.(stack := s.stack[..|s.stack| - 1], d := if pt.str.Some? then pt.str.value else s.d,
                       low := pt.low, high := pt.high, info := RestoredRegs(s.info, pt), done := false);
      if pt.place.None? {
        FailKeeps(job, popped);
      } else {
        FailKeeps(job, popped.(p := pt.place.value));
      }
    }
  }

  /** No round before the end touches the best match, unless there is no room for a failure point. */
  lemma RoundKeeps(job: Job, s: State)
    requires s.p < |job.code| && job.code[s.p] != SUCCEED
    ensures Kept(job, s.best, Step(job, s))
  {
    hide Fail, Kept, StepExact, StepAny, StepSet, StepStart, StepStop, StepOnFailure, StepOnFailureKeepString, Push,
         StepDummyFailureJump, StepPopFailureJump, JumpTo, Pops;
    ItemKeeps(job, s);
    GroupKeeps(job, s);
    ForkKeeps(job, s);
    JumpKeeps(job, s);
    forall t: Outcome | t == Crashed || (t.Running? && t.s.best == s.best) ensures Kept(job, s.best, t) {
      GoesOn(job, s.best, t);
    }
  }

  lemma GoesOn(job: Job, best: Option<nat>, o: Outcome)
    requires o.Crashed? || (o.Running? && o.s.best == best)
    ensures Kept(job, best, o)
  {
  }

  lemma ItemKeeps(job: Job, s: State)
    requires s.p < |job.code|
    ensures Kept(job, s.best, StepExact(job, s)) && Kept(job, s.best, StepAny(job, s))
            && Kept(job, s.best, StepSet(job, s))
  {
    hide Fail, Compare, SetAccepts, DotAccepts, BitmapAt;
    FailKeeps(job, s);
    FailKeeps(job, s.(d := Compare(job.g, job.code, s.p + 2, s.d, Get(job.code, s.p + 1)).1));
  }

  lemma GroupKeeps(job: Job, s: State)
    ensures Kept(job, s.best, StepStart(job, s)) && Kept(job, s.best, StepStop(job, s))
  {
    hide Fail, HighestActive, LoopHead, Target, SavedRegs;
    var reg := Get(job.code, s.p + 1);
    var head := LoopHead(job.code, s.p);
    if head.Some? {
      var exit := Target(job.code, head.value);
      if exit >= 0 {
        var pushed := Push(job, Stopped(s, reg), Some(exit), Some(s.d));
        if pushed.Running? { FailKeeps(job, pushed.s); }
      }
    }
  }

  lemma ForkKeeps(job: Job, s: State)
    ensures Kept(job, s.best, StepOnFailure(job, s)) && Kept(job, s.best, StepOnFailureKeepString(job, s))
    ensures Kept(job, s.best, Push(job, s.(p := s.p + 1), None, None))
  {
    hide Target, SavedRegs, SkipNoOps;
  }

  lemma JumpKeeps(job: Job, s: State)
    ensures Kept(job, s.best, StepDummyFailureJump(job, s)) && Kept(job, s.best, StepPopFailureJump(job, s))
    ensures Kept(job, s.best, JumpTo(job, s))
  {
    hide Target, SavedRegs;
  }

  /** The longer of the best match so far and the end just reached. */
  function Better(best: Option<nat>, d: nat): nat {
    if best.None? || d > best.value then d else best.value
  }

  /** At the end of the pattern the end just reached is taken into account. */
  lemma EndKeeps(job: Job, r: Re, nsub: nat, s: State)
    requires Compiled(job, r, nsub) && Inv(job, r, nsub, s) && s.p == Len(r) && !job.g.syn.noBacktrack
    ensures Kept(job, Some(Better(s.best, s.d)), Step(job, s))
  {
    hide Compiled, Len, Inside, Matches, Depth, Fail;
    ProgramEnd(job, r, nsub);
    EndMatches(job, r, s.d, |s.stack|);
    if s.best.Some? { MatchBounds(job.g, r, job.pos, s.best.value); }
    FailKeeps(job, s.(best := Some(Better(s.best, s.d))));
  }

  lemma BeforeEnd(job: Job, r: Re, nsub: nat, s: State)
    requires Compiled(job, r, nsub) && Inv(job, r, nsub, s) && s.p < Len(r)
    ensures Kept(job, s.best, Step(job, s))
  {
    hide Compiled, Len, Inv, Step, Kept;
    HereOpcodeInv(job, r, nsub, s);
    RoundKeeps(job, s);
  }

  lemma FirstEnd(job: Job, r: Re, nsub: nat, s: State)
    requires Compiled(job, r, nsub) && Inv(job, r, nsub, s) && s.p == Len(r) && job.g.syn.noBacktrack
    ensures Step(job, s) == Finished(s.d - job.pos) && job.pos <= s.d
  {
    hide Compiled, Len, Inside, Matches, Depth;
    ProgramEnd(job, r, nsub);
    EndMatches(job, r, s.d, |s.stack|);
  }

  lemma AnswersMore(job: Job, best: Option<nat>, d: nat, rest: seq<nat>, n: int)
    requires Answers(job, Some(Better(best, d)), rest, n)
    ensures Answers(job, best, [d] + rest, n)
  {
    var ends := [d] + rest;
    assert ends[0] == d && forall e :: e in ends <==> e == d || e in rest;
  }

  /** From any state of a run: the answer is the longest of the ends still reached and the best before. */
  lemma {:induction false} RunAnswers(job: Job, r: Re, nsub: nat, s: State, rounds: nat)
    requires Compiled(job, r, nsub) && Inv(job, r, nsub, s) && (job.g.syn.noBacktrack ==> s.best == None)
    ensures var o, ends := Run(job, s, rounds), Ends(job, Len(r), s, rounds);
            o.Finished? && o.n != -2 ==>
              if job.g.syn.noBacktrack then ends == if o.n == -1 then [] else [job.pos + o.n]
              else Answers(job, s.best, ends, o.n)
    decreases rounds
  {
    hide Compiled, Inv, Len, Step, Answers, Inside;
    if rounds > 0 {
      var o := Step(job, s);
      StepGood(job, r, nsub, s);
      AtMostEnd(job, r, nsub, s);
      var rest := if o.Running? then Ends(job, Len(r), o.s, rounds - 1) else [];
      if s.p < Len(r) {
        BeforeEnd(job, r, nsub, s);
        if o.Running? { RunAnswers(job, r, nsub, o.s, rounds - 1); } else { NoneLeft(job, s.best, o); }
        assert Ends(job, Len(r), s, rounds) == rest;
      } else if job.g.syn.noBacktrack {
        FirstEnd(job, r, nsub, s);
        assert Ends(job, Len(r), s, rounds) == [s.d];
      } else {
        EndKeeps(job, r, nsub, s);
        if o.Running? {
          RunAnswers(job, r, nsub, o.s, rounds - 1);
        } else {
          NoneLeft(job, Some(Better(s.best, s.d)), o);
        }
        if o.Finished? || Run(job, s, rounds).Finished? {
          var n := Run(job, s, rounds).n;
          if n != -2 { AnswersMore(job, s.best, s.d, rest, n); }
        }
        assert Ends(job, Len(r), s, rounds) == [s.d] + rest;
      }
    }
  }

  lemma AtMostEnd(job: Job, r: Re, nsub: nat, s: State)
    requires Compiled(job, r, nsub) && Inv(job, r, nsub, s)
    ensures s.p <= Len(r)
  {
    hide Compiled, Len, Inside;
  }

  lemma NoneLeft(job: Job, best: Option<nat>, o: Outcome)
    requires Kept(job, best, o)
    ensures o.Finished? && o.n != -2 ==> Answers(job, best, [], o.n)
  {
  }

  lemma {:induction false} EndsFrom(job: Job, r: Re, nsub: nat, s: State, rounds: nat)
    requires Compiled(job, r, nsub) && Inv(job, r, nsub, s)
    ensures forall e :: e in Ends(job, Len(r), s, rounds) ==> job.pos <= e
    decreases rounds
  {
    hide Compiled, Inv, Len, Step, Inside;
    if rounds > 0 {
      StepGood(job, r, nsub, s);
      if s.p == Len(r) { EndInText(job, r, nsub, s); }
      var o := Step(job, s);
      if o.Running? { EndsFrom(job, r, nsub, o.s, rounds - 1); }
    }
  }

  lemma EndInText(job: Job, r: Re, nsub: nat, s: State)
    requires Compiled(job, r, nsub) && Inv(job, r, nsub, s) && s.p == Len(r)
    ensures job.pos <= s.d
  {
    hide Compiled, Len, Inside, Matches, Depth;
    EndMatches(job, r, s.d, |s.stack|);
  }

  /** A whole call that returns with room enough: -1 means that the end of the pattern was never reached; otherwise the
      answer is the longest way at whose end it was, or, under RE_NO_POSIX_BACKTRACKING, the first and only one. */
  lemma AnswerIsEnd(job: Job, r: Re, nsub: nat, rounds: nat)
    requires Compiled(job, r, nsub)
    ensures var o, ends := Match(job, nsub, rounds), Ends(job, Len(r), Initial(job, nsub), rounds);
            o.Finished? && o.n != -2 ==>
              if ends == [] then o.n == -1
              else
                && o.n >= 0 && job.pos + o.n in ends && (forall e :: e in ends ==> e <= job.pos + o.n)
                && (job.g.syn.noBacktrack ==> |ends| == 1)
  {
    hide Compiled, Inv, Len, Step, Run, Ends, Inside;
    InitialInv(job, r, nsub);
    RunAnswers(job, r, nsub, Initial(job, nsub), rounds);
    RunGood(job, r, nsub, Initial(job, nsub), rounds);
    EndsFrom(job, r, nsub, Initial(job, nsub), rounds);
    InText(job, r, nsub);
  }

  lemma InText(job: Job, r: Re, nsub: nat)
    requires Compiled(job, r, nsub)
    ensures job.pos <= |job.g.text|
  {
  }
}
