/** The matched mark of a group's register says whether the group has taken text since control last entered it, in every
    run, through all backtracking; so the matcher leaves a loop by force exactly when a round of it has taken
    nothing. */
module RegexMarks {
  import opened Wrappers
  import opened RegexTree
  import opened RegexCode
  import opened RegexPaths
  import opened RegexLayout
  import opened RegexGrammar
  import opened RegexGroups
  import opened RegexMachine
  import opened RegexSoundness

  // ---------- A log of the run ----------

  /** How many characters have been taken on the way here, and how many had been when each group was last entered. The
      characters of a `.*' before a newline do not count once it has been left. */
  datatype Note = Note(taken: nat, began: seq<nat>)

  /** The note now, and the one made with each failure point. */
  datatype Log = Log(now: Note, saved: seq<Note>)

  /** The log after one more round. It goes by where control and the text are and how many failure points there are: one
      more is noted with, one less is gone back to, but for the one that the end of a loop throws away. */
  function Noted(job: Job, s: State, l: Log): Log {
    var o, op := Step(job, s), Get(job.code, s.p);
    if !o.Running? then l
    else
      var n := |o.s.stack|;
      if n > |s.stack| then Log(l.now, l.saved + [l.now])
      else if n > |l.saved| then l
      else if op == MAYBE_POP_JUMP then Log(l.now, l.saved[..n])
      else if n < |l.saved| then Log(l.saved[n], l.saved[..n])
      else if op == START_MEMORY then l.(now := Entered(l.now, Get(job.code, s.p + 1)))
      else if o.s.d >= s.d then l.(now := l.now.(taken := l.now.taken + (o.s.d - s.d)))
      else l
  }

  function Entered(note: Note, reg: nat): Note {
    if reg < |note.began| then note.(began := note.began[reg := note.taken]) else note
  }

  function FirstLog(nsub: nat): Log { Log(Note(0, seq(nsub + 1, _ => 0)), []) }

  /** The state and the log after so many rounds, if the matcher has not returned. */
  function After(job: Job, s: State, l: Log, rounds: nat): Option<(State, Log)>
    decreases rounds
  {
    if rounds == 0 then Some((s, l))
    else
      var o := Step(job, s);
      if o.Running? then After(job, o.s, Noted(job, s, l), rounds - 1) else None
  }

  // ---------- What the registers have to do with it ----------

  predicate RegRight(info: seq<RegInfo>, note: Note, reg: nat) {
    && reg < |info| && reg < |note.began| && info[reg].active && note.began[reg] <= note.taken
    && (info[reg].matched <==> note.taken > note.began[reg])
  }

  /** The registers of the groups around control are active, are among those that are saved, and are marked if and only
      if text has been taken. */
  predicate Agrees(z: Zone, low: nat, high: nat, info: seq<RegInfo>, note: Note, nsub: nat) {
    && |info| == |note.began| == nsub + 1
    && (if low == NO_LOWEST_ACTIVE_REG then z.open == [] else low <= z.first)
    && (z.open != [] ==> z.open[|z.open| - 1] <= high)
    && forall k :: 0 <= k < |z.open| ==> RegRight(info, note, z.open[k])
  }

  ghost predicate PointMarks(r: Re, nsub: nat, pt: FailPoint, note: Note) {
    pt.place.Some? ==>
      forall info :: |info| == nsub + 1 ==>
        Agrees(ZoneOf(r, 0, 0, pt.place.value), pt.low, pt.high, RestoredRegs(info, pt), note, nsub)
  }

  ghost predicate SavedMarks(r: Re, nsub: nat, stack: seq<FailPoint>, saved: seq<Note>) {
    |saved| == |stack| && forall k :: 0 <= k < |stack| ==> PointMarks(r, nsub, stack[k], saved[k])
  }

  /** just_past_start_mem is behind a start_memory. */
  predicate PastStart(code: seq<Byte>, r: Re, j: nat) {
    j == 0 || (3 <= j < Len(r) + 3 && Depth(r, 0, j - 3) >= 0 && Get(code, j - 3) == START_MEMORY)
  }

  predicate AllMarked(open: seq<nat>, info: seq<RegInfo>) {
    forall k :: 0 <= k < |open| ==> IsMatched(info, open[k])
  }

  ghost predicate Marks(job: Job, r: Re, nsub: nat, s: State, l: Log) {
    && Agrees(ZoneOf(r, 0, 0, s.p), s.low, s.high, s.info, l.now, nsub)
    && (s.done ==> AllMarked(ZoneOf(r, 0, 0, s.p).open, s.info))
    && PastStart(job.code, r, s.justPast)
    && SavedMarks(r, nsub, s.stack, l.saved)
  }

  /** Groups are numbered, and repeated, as the compiler does it. */
  predicate Regular(r: Re) { Numbered(r, 0) && AtomLoops(r) }

  // ---------- One round ----------

  /** A move from where control may be. */
  lemma ZoneMove(job: Job, r: Re, nsub: nat, p: int, d: nat, p2: int, n: int)
    requires Compiled(job, r, nsub) && Regular(r) && Here(job, r, p, d, n) && p < Len(r) && Next(job.code, p, p2)
    ensures Crosses(job.code, p, ZoneOf(r, 0, 0, p), ZoneOf(r, 0, 0, p2))
    ensures ForkFirst(job.code, p, p2, ZoneOf(r, 0, 0, p + 3), ZoneOf(r, 0, 0, p2))
  {
    hide ZoneOf, Crosses, ForkFirst, Inside, Matches, Len, Depth, Laid, Sized, RegsWithin, PlainDotLines, Program, Next,
         Numbered, AtomLoops;
    LaidProgram(job, r, nsub);
    NextZone(job.code, r, 0, 0, p, p2);
  }

  lemma ZoneHere(r: Re, p: int)
    requires Regular(r)
    ensures ZoneFits(ZoneOf(r, 0, 0, p), 0, GroupCount(r))
  {
    hide ZoneOf, AtomLoops, ZoneFits, Numbered;
    ZoneIsFit(r, 0, 0, p);
  }

  /** Into the same groups, with no lower a bound. */
  lemma StillAgrees(z: Zone, z2: Zone, low: nat, high: nat, info: seq<RegInfo>, note: Note, nsub: nat)
    requires Agrees(z, low, high, info, note, nsub) && z2.open == z.open
    requires z.first <= z2.first || low == NO_LOWEST_ACTIVE_REG || low <= z2.first
    ensures Agrees(z2, low, high, info, note, nsub)
  {
  }

  lemma OpenBetween(z: Zone, low: nat, high: nat, info: seq<RegInfo>, note: Note, nsub: nat, n: nat, k: nat)
    requires Agrees(z, low, high, info, note, nsub) && ZoneFits(z, 0, n) && k < |z.open|
    ensures low <= z.open[k] <= high
  {
    assert z.open[0] <= z.open[k] <= z.open[|z.open| - 1];
  }

  /** What is saved with a failure point agrees with the note made then, whatever it is restored over. */
  lemma SavedAgrees(r: Re, nsub: nat, s: State, place: Option<nat>, str: Option<nat>, z: Zone, note: Note, n: nat)
    requires Agrees(z, s.low, s.high, s.info, note, nsub) && ZoneFits(z, 0, n) && RegsOk(s.low, s.high, nsub)
    requires place.Some? ==>
      var z2 := ZoneOf(r, 0, 0, place.value);
      z2.open == z.open && (s.low == NO_LOWEST_ACTIVE_REG || s.low <= z2.first)
    ensures PointMarks(r, nsub, FailPoint(place, str, s.low, s.high, SavedRegs(s)), note)
  {
    hide ZoneOf, Agrees, ZoneFits;
    var pt := FailPoint(place, str, s.low, s.high, SavedRegs(s));
    if place.Some? {
      forall info | |info| == nsub + 1
        ensures Agrees(ZoneOf(r, 0, 0, place.value), pt.low, pt.high, RestoredRegs(info, pt), note, nsub)
      {
        RestoredAgrees(s, pt, info, z, note, nsub, n);
        StillAgrees(z, ZoneOf(r, 0, 0, place.value), pt.low, pt.high, RestoredRegs(info, pt), note, nsub);
      }
    }
  }

  lemma RestoredAgrees(s: State, pt: FailPoint, info: seq<RegInfo>, z: Zone, note: Note, nsub: nat, n: nat)
    requires Agrees(z, s.low, s.high, s.info, note, nsub) && ZoneFits(z, 0, n) && RegsOk(s.low, s.high, nsub)
    requires |info| == nsub + 1 && pt.low == s.low && pt.high == s.high && pt.info == SavedRegs(s)
    ensures Agrees(z, pt.low, pt.high, RestoredRegs(info, pt), note, nsub)
  {
    var back := RestoredRegs(info, pt);
    forall k | 0 <= k < |z.open| ensures RegRight(back, note, z.open[k]) {
      OpenBetween(z, s.low, s.high, s.info, note, nsub, n, k);
      assert RegRight(s.info, note, z.open[k]);
      assert back[z.open[k]] == pt.info[z.open[k] - pt.low] == s.info[z.open[k]];
    }
  }

  lemma SavedMore(r: Re, nsub: nat, stack: seq<FailPoint>, saved: seq<Note>, pt: FailPoint, note: Note)
    requires SavedMarks(r, nsub, stack, saved) && PointMarks(r, nsub, pt, note)
    ensures SavedMarks(r, nsub, stack + [pt], saved + [note])
  {
    hide PointMarks;
  }

  lemma SavedLess(r: Re, nsub: nat, stack: seq<FailPoint>, saved: seq<Note>, n: nat)
    requires SavedMarks(r, nsub, stack, saved) && n <= |stack|
    ensures SavedMarks(r, nsub, stack[..n], saved[..n])
  {
    hide PointMarks;
    forall k | 0 <= k < n ensures PointMarks(r, nsub, stack[..n][k], saved[..n][k]) {
      assert PointMarks(r, nsub, stack[k], saved[k]);
    }
  }

  /** Control is back at the failure point on top of what is left of the stack, and so is the log. */
  ghost predicate Resumed(r: Re, nsub: nat, stack: seq<FailPoint>, saved: seq<Note>, justPast: nat, t: State) {
    var n := |t.stack|;
    && n < |stack| == |saved| && t.stack == stack[..n] && !t.done && t.justPast == justPast && stack[n].place.Some?
    && Agrees(ZoneOf(r, 0, 0, t.p), t.low, t.high, t.info, saved[n], nsub)
    && (stack[n].str.Some? ==> t.d == stack[n].str.value)
  }

  lemma ResumedDeeper(r: Re, nsub: nat, stack: seq<FailPoint>, saved: seq<Note>, m: nat, justPast: nat, t: State)
    requires m <= |stack| == |saved| && Resumed(r, nsub, stack[..m], saved[..m], justPast, t)
    ensures Resumed(r, nsub, stack, saved, justPast, t)
  {
    hide ZoneOf, Agrees;
    assert stack[..m][..|t.stack|] == stack[..|t.stack|];
  }

  lemma ResumedTop(r: Re, nsub: nat, s: State, saved: seq<Note>, t: State)
    requires SavedMarks(r, nsub, s.stack, saved) && |s.info| == nsub + 1 && s.stack != []
    requires var n := |s.stack| - 1;
             var pt := s.stack[n];
             && pt.place == Some(t.p) && t.stack == s.stack[..n] && t.low == pt.low && t.high == pt.high && !t.done
             && t.info == RestoredRegs(s.info, pt) && t.justPast == s.justPast && (pt.str.Some? ==> t.d == pt.str.value)
    ensures Resumed(r, nsub, s.stack, saved, s.justPast, t)
  {
    hide ZoneOf, Agrees, RestoredRegs, PointMarks;
    var n := |s.stack| - 1;
    PointSays(r, nsub, s.stack[n], saved[n], s.info);
  }

  lemma PointSays(r: Re, nsub: nat, pt: FailPoint, note: Note, info: seq<RegInfo>)
    requires PointMarks(r, nsub, pt, note) && pt.place.Some? && |info| == nsub + 1
    ensures Agrees(ZoneOf(r, 0, 0, pt.place.value), pt.low, pt.high, RestoredRegs(info, pt), note, nsub)
  {
    hide ZoneOf, Agrees, RestoredRegs;
  }

  /** Going back to a failure point is going back to its note. */
  lemma {:induction false} FailMarks(job: Job, r: Re, nsub: nat, s: State, saved: seq<Note>)
    requires SavedMarks(r, nsub, s.stack, saved) && |s.info| == nsub + 1
    ensures var o := Fail(job, s); o.Running? ==> Resumed(r, nsub, s.stack, saved, s.justPast, o.s)
    decreases |s.stack|
  {
    hide ZoneOf, Resumed, RestoredRegs, Target, PointMarks;
    if s.stack != [] {
      var n := |s.stack| - 1;
      var pt := s.stack[n];
      var popped := s.(stack := s.stack[..n], d := if pt.str.Some? then pt.str.value else s.d,
                       low := pt.low, high := pt.high, info := RestoredRegs(s.info, pt), done := false);
      var here := popped.(p := if pt.place.Some? then pt.place.value else s.p);
      SavedLess(r, nsub, s.stack, saved, n);
      FailMarks(job, r, nsub, here, saved[..n]);
      var o := Fail(job, s);
      if o == Running(here) && pt.place.Some? {
        ResumedTop(r, nsub, s, saved, here);
      } else if o.Running? {
        assert o == Fail(job, here);
        ResumedDeeper(r, nsub, s.stack, saved, n, s.justPast, o.s);
      }
    }
  }

  /** What a failure comes to in the log. */
  ghost predicate RoundMarks(job: Job, r: Re, nsub: nat, s: State, l: Log) {
    var o := Step(job, s);
    o.Running? ==> Marks(job, r, nsub, o.s, Noted(job, s, l))
  }

  lemma FailRound(job: Job, r: Re, nsub: nat, s: State, l: Log, s1: State)
    requires Marks(job, r, nsub, s, l) && Step(job, s) == Fail(job, s1) && Get(job.code, s.p) != MAYBE_POP_JUMP
    requires s1.stack == s.stack && |s1.info| == nsub + 1 && s1.justPast == s.justPast
    ensures RoundMarks(job, r, nsub, s, l)
  {
    hide ZoneOf, Agrees, PastStart, AllMarked, Step, Fail;
    FailMarks(job, r, nsub, s1, l.saved);
    var o := Step(job, s);
    if o.Running? { SavedLess(r, nsub, s.stack, l.saved, |o.s.stack|); }
  }

  /** A round that goes on with the same failure points and registers. */
  lemma MoveRound(job: Job, r: Re, nsub: nat, s: State, l: Log, s2: State)
    requires Marks(job, r, nsub, s, l) && Step(job, s) == Running(s2) && s2.stack == s.stack && s2.d == s.d
    requires s2.low == s.low && s2.high == s.high && s2.info == s.info && s2.justPast == s.justPast && s2.done == s.done
    requires Get(job.code, s.p) != START_MEMORY
    requires var z, z2 := ZoneOf(r, 0, 0, s.p), ZoneOf(r, 0, 0, s2.p); z2.open == z.open && z.first <= z2.first
    ensures RoundMarks(job, r, nsub, s, l)
  {
    hide ZoneOf, Agrees, PastStart, AllMarked, Step, PointMarks;
    StillAgrees(ZoneOf(r, 0, 0, s.p), ZoneOf(r, 0, 0, s2.p), s.low, s.high, s.info, l.now, nsub);
    assert l.saved[..|s.stack|] == l.saved;
    assert l.now.(taken := l.now.taken + 0) == l.now;
  }

  /** A round that pushes a failure point. */
  lemma PushRound(job: Job, r: Re, nsub: nat, s: State, l: Log, s1: State, place: Option<nat>, str: Option<nat>, p: nat)
    requires Marks(job, r, nsub, s, l) && Regular(r)
    requires Step(job, s) == (if Push(job, s1, place, str).Running? then Running(Push(job, s1, place, str).s.(p := p))
                              else Push(job, s1, place, str))
    requires s1.stack == s.stack && s1.info == s.info && s1.justPast == s.justPast && s1.done == s.done && s1.d == s.d
    requires RegsOk(s1.low, s1.high, nsub)
    requires var z := ZoneOf(r, 0, 0, p);
             && Agrees(z, s1.low, s1.high, s.info, l.now, nsub) && z.open == ZoneOf(r, 0, 0, s.p).open
             && (place.Some? ==> var z2 := ZoneOf(r, 0, 0, place.value); z2.open == z.open)
    requires s1.low != NO_LOWEST_ACTIVE_REG && place.Some? ==> s1.low <= ZoneOf(r, 0, 0, place.value).first
    ensures RoundMarks(job, r, nsub, s, l)
  {
    hide ZoneOf, PastStart, AllMarked, Step, SavedMarks, ZoneFits, RegRight;
    ZoneHere(r, p);
    var z := ZoneOf(r, 0, 0, p);
    SavedAgrees(r, nsub, s1, place, str, z, l.now, GroupCount(r));
    var pt := FailPoint(place, str, s1.low, s1.high, SavedRegs(s1));
    SavedMore(r, nsub, s.stack, l.saved, pt, l.now);
  }

  /** A round in which an item has taken text. */
  lemma ItemRound(job: Job, r: Re, nsub: nat, s: State, l: Log, p2: nat, d2: nat)
    requires Marks(job, r, nsub, s, l) && Regular(r) && RegsOk(s.low, s.high, nsub)
    requires Step(job, s) == Running(SetRegsMatched(s.(p := p2, d := d2))) && d2 > s.d
    requires Get(job.code, s.p) != START_MEMORY && Get(job.code, s.p) != MAYBE_POP_JUMP
    requires var z, z2 := ZoneOf(r, 0, 0, s.p), ZoneOf(r, 0, 0, p2); z2.open == z.open && z.first <= z2.first
    ensures RoundMarks(job, r, nsub, s, l)
  {
    hide ZoneOf, PastStart, Step, SavedMarks, ZoneFits;
    ZoneHere(r, s.p);
    var z, t := ZoneOf(r, 0, 0, s.p), SetRegsMatched(s.(p := p2, d := d2));
    var note := l.now.(taken := l.now.taken + (d2 - s.d));
    forall k | 0 <= k < |z.open| ensures RegRight(t.info, note, z.open[k]) && IsMatched(t.info, z.open[k]) {
      OpenBetween(z, s.low, s.high, s.info, l.now, nsub, GroupCount(r), k);
      assert RegRight(s.info, l.now, z.open[k]);
      assert s.done ==> IsMatched(s.info, z.open[k]);
    }
    assert Agrees(ZoneOf(r, 0, 0, p2), t.low, t.high, t.info, note, nsub);
    SameSaved(r, nsub, s, l);
  }

  lemma SameSaved(r: Re, nsub: nat, s: State, l: Log)
    requires SavedMarks(r, nsub, s.stack, l.saved)
    ensures |s.stack| == |l.saved| && l.saved[..|s.stack|] == l.saved
  {
    hide PointMarks;
  }

  /** Into a group. */
  lemma StartRound(job: Job, r: Re, nsub: nat, s: State, l: Log)
    requires Marks(job, r, nsub, s, l) && Regular(r) && s.p < Len(r) <= |job.code| && job.code[s.p] == START_MEMORY
    requires Depth(r, 0, s.p) >= 0 && Get(job.code, s.p + 1) <= nsub
    requires Crosses(job.code, s.p, ZoneOf(r, 0, 0, s.p), ZoneOf(r, 0, 0, s.p + 3))
    ensures RoundMarks(job, r, nsub, s, l)
  {
    hide ZoneOf, SavedMarks, ZoneFits, Len, Depth;
    var z, z2, reg := ZoneOf(r, 0, 0, s.p), ZoneOf(r, 0, 0, s.p + 3), Get(job.code, s.p + 1);
    ZoneHere(r, s.p + 3);
    var t, note := StepStart(job, s).s, Entered(l.now, reg);
    assert Step(job, s) == Running(t);
    NewLast(z.open, reg, GroupCount(r));
    forall k | 0 <= k < |z2.open| ensures RegRight(t.info, note, z2.open[k]) {
      if k < |z.open| { assert z2.open[k] == z.open[k] && RegRight(s.info, l.now, z.open[k]); }
    }
    assert Agrees(z2, t.low, t.high, t.info, note, nsub);
    SameSaved(r, nsub, s, l);
  }

  lemma NewLast(open: seq<nat>, reg: nat, n: nat)
    ensures Rising(open + [reg], 0, n) ==> forall k :: 0 <= k < |open| ==> open[k] < reg
    ensures Rising(open + [reg], 0, n) ==> 1 <= reg <= MAX_REGNUM
  {
    var all := open + [reg];
    assert all[|open|] == reg && forall k :: 0 <= k < |open| ==> all[k] == open[k];
  }

  // ---------- Out of a group ----------

  lemma {:induction false} HighestIs(info: seq<RegInfo>, r: nat)
    ensures var h := HighestActive(info, r); h > 0 ==> h < |info| && info[h].active
    ensures forall k :: 0 < k <= r && k < |info| && info[k].active ==> k <= HighestActive(info, r)
  {
    if r != 0 && !(r < |info| && info[r].active) { HighestIs(info, r - 1); }
  }

  /** The registers after the stop_memory of the innermost group around control. */
  lemma StoppedAgrees(s: State, z: Zone, z2: Zone, reg: Byte, note: Note, nsub: nat, n: nat)
    requires Agrees(z, s.low, s.high, s.info, note, nsub) && ZoneFits(z, 0, n) && z.first <= z2.first
    requires z.open == z2.open + [reg]
    ensures var t := Stopped(s, reg); Agrees(z2, t.low, t.high, t.info, note, nsub) && !t.done
    ensures var t := Stopped(s, reg);
            IsMatched(t.info, reg) <==> reg < |note.began| && note.taken > note.began[reg]
  {
    var t, m := Stopped(s, reg), |z2.open|;
    assert z.open[m] == reg && RegRight(s.info, note, reg);
    NewLast(z2.open, reg, n);
    forall k | 0 <= k < m ensures RegRight(t.info, note, z2.open[k]) {
      assert z2.open[k] == z.open[k] && RegRight(s.info, note, z.open[k]);
    }
    HighestIs(t.info, reg - 1);
    if m > 0 {
      assert RegRight(t.info, note, z2.open[m - 1]);
      assert z.open[0] == z2.open[0] && z.open[m - 1] == z2.open[m - 1];
      assert s.low <= z2.open[0] < reg <= s.high;
    }
  }

  /** The way out of the loop around a group that has just been closed stays in the same groups. */
  lemma ExitZone(job: Job, r: Re, nsub: nat, p: nat, d: nat, n: nat)
    requires Compiled(job, r, nsub) && Regular(r) && Here(job, r, p, d, n) && p < |job.code|
    requires IsBackJump(job.code[p]) || job.code[p] == DUMMY_FAILURE_JUMP
    requires Offset(job.code, p) < 0
    requires var h := Target(job.code, p); Get(job.code, h) == ON_FAILURE_JUMP && Target(job.code, h) >= 0
    ensures var z, z2 := ZoneOf(r, 0, 0, p), ZoneOf(r, 0, 0, Target(job.code, Target(job.code, p)));
            z2.open == z.open && z.first <= z2.first
  {
    hide Compiled, Len, Here, ZoneOf, Regular;
    ProgramEnd(job, r, nsub);
    HereBelow(job, r, p, d, n);
    HereOpcode(job, r, nsub, p, d, n);
    var head := Target(job.code, p);
    RegexSoundness.Advance(job, r, nsub, p, d, head, d, n);
    HereBelow(job, r, head, d, n + Gain(job.code, p, head));
    HereOpcode(job, r, nsub, head, d, n + Gain(job.code, p, head));
    ZoneMove(job, r, nsub, p, d, head, n);
    ZoneMove(job, r, nsub, head, d, Target(job.code, head), n + Gain(job.code, p, head));
  }

  /** A round that leaves its loop by force. */
  lemma StopForced(job: Job, r: Re, nsub: nat, s: State, l: Log)
    requires Compiled(job, r, nsub) && Inv(job, r, nsub, s) && Regular(r) && Marks(job, r, nsub, s, l)
    requires s.p < Len(r) <= |job.code| && job.code[s.p] == STOP_MEMORY && s.p + 3 < |job.code|
    requires var reg := Get(job.code, s.p + 1);
             && (!IsMatched(Stopped(s, reg).info, reg) || s.justPast == s.p) && LoopHead(job.code, s.p).Some?
             && Agrees(ZoneOf(r, 0, 0, s.p + 3), Stopped(s, reg).low, Stopped(s, reg).high, Stopped(s, reg).info, l.now,
                       nsub)
    ensures RoundMarks(job, r, nsub, s, l)
  {
    hide Compiled, Inv, Regular, Here, BestOk, StackOk, ZoneOf, Agrees, ZoneFits, Stopped, Fail, PastStart, SavedMarks,
         RegsOk, Len, RegistersOk, AllMarked;
    HereOpcodeInv(job, r, nsub, s);
    var reg := Get(job.code, s.p + 1);
    var t, exit := Stopped(s, reg), Target(job.code, LoopHead(job.code, s.p).value);
    StoppedSame(s, reg);
    StoppedKeeps(s, reg);
    StoppedOk(job, r, nsub, s);
    SameSaved(r, nsub, s, l);
    RegexSoundness.Advance(job, r, nsub, s.p, s.d, s.p + 3, s.d, |s.stack|);
    ZoneHere(r, s.p + 3);
    if exit >= 0 && |t.stack| < job.limit {
      ExitZone(job, r, nsub, s.p + 3, s.d, |s.stack|);
      RegsOkOf(t, nsub);
      LowWithin(ZoneOf(r, 0, 0, s.p + 3), t.low, t.high, t.info, l.now, nsub);
      SavedAgrees(r, nsub, t, Some(exit), Some(s.d), ZoneOf(r, 0, 0, s.p + 3), l.now, GroupCount(r));
      var pt := FailPoint(Some(exit), Some(s.d), t.low, t.high, SavedRegs(t));
      SavedMore(r, nsub, s.stack, l.saved, pt, l.now);
      ForcedBack(job, r, nsub, s, l, t.(stack := s.stack + [pt]));
    }
  }

  lemma RegsOkOf(s: State, nsub: nat)
    requires RegistersOk(s, nsub)
    ensures RegsOk(s.low, s.high, nsub) && |s.info| == nsub + 1
  {
  }

  lemma LowWithin(z: Zone, low: nat, high: nat, info: seq<RegInfo>, note: Note, nsub: nat)
    requires Agrees(z, low, high, info, note, nsub)
    ensures low == NO_LOWEST_ACTIVE_REG || low <= z.first
  {
  }

  lemma ForcedBack(job: Job, r: Re, nsub: nat, s: State, l: Log, s1: State)
    requires Marks(job, r, nsub, s, l) && Step(job, s) == Fail(job, s1) && Get(job.code, s.p) == STOP_MEMORY
    requires s1.stack != [] && s1.stack[..|s1.stack| - 1] == s.stack && s1.stack[|s.stack|].str == Some(s.d)
    requires SavedMarks(r, nsub, s1.stack, l.saved + [l.now])
    requires |s1.info| == nsub + 1 && s1.justPast == s.justPast
    ensures RoundMarks(job, r, nsub, s, l)
  {
    hide ZoneOf, Agrees, PastStart, AllMarked, Step, Fail, PointMarks, SavedMarks;
    var all := l.saved + [l.now];
    FailMarks(job, r, nsub, s1, all);
    SameSaved(r, nsub, s, l);
    var o := Step(job, s);
    if o.Running? {
      var n := |o.s.stack|;
      SavedLess(r, nsub, s1.stack, all, n);
      if n == |s.stack| {
        assert all[..n] == l.saved && all[n] == l.now;
        assert l.now.(taken := l.now.taken + 0) == l.now;
      } else {
        assert all[..n] == l.saved[..n] && all[n] == l.saved[n];
      }
    }
  }

  lemma StopRound(job: Job, r: Re, nsub: nat, s: State, l: Log)
    requires Compiled(job, r, nsub) && Inv(job, r, nsub, s) && Regular(r) && Marks(job, r, nsub, s, l)
    requires s.p < Len(r) <= |job.code| && job.code[s.p] == STOP_MEMORY
    ensures RoundMarks(job, r, nsub, s, l)
  {
    hide Compiled, Inv, Regular, Here, BestOk, StackOk, ZoneOf, Agrees, ZoneFits, Crosses, Stopped, Fail, LoopHead,
         PastStart, SavedMarks, RegsOk, Len, ForkFirst;
    HereOpcodeInv(job, r, nsub, s);
    var reg := Get(job.code, s.p + 1);
    var z, z2, t := ZoneOf(r, 0, 0, s.p), ZoneOf(r, 0, 0, s.p + 3), Stopped(s, reg);
    ZoneMove(job, r, nsub, s.p, s.d, s.p + 3, |s.stack|);
    ZoneHere(r, s.p);
    StopCrosses(job.code, s.p, z, z2);
    StoppedAgrees(s, z, z2, reg, l.now, nsub, GroupCount(r));
    StoppedSame(s, reg);
    StoppedKeeps(s, reg);
    SameSaved(r, nsub, s, l);
    var head := LoopHead(job.code, s.p);
    if (!IsMatched(t.info, reg) || s.justPast == s.p) && s.p + 3 < |job.code| && head.Some? {
      StopForced(job, r, nsub, s, l);
    } else {
      assert Step(job, s) == Running(t.(p := s.p + 3));
      assert Noted(job, s, l) == l;
    }
  }

  lemma StopCrosses(code: seq<Byte>, p: nat, z: Zone, z2: Zone)
    requires Crosses(code, p, z, z2) && Get(code, p) == STOP_MEMORY
    ensures z.open == z2.open + [Get(code, p + 1)] && z.first <= z2.first
  {
  }

  lemma StoppedKeeps(s: State, reg: Byte)
    ensures Stopped(s, reg).justPast == s.justPast && !Stopped(s, reg).done
  {
  }

  // ---------- Forks and jumps ----------

  /** What an on_failure_jump makes of the bounds: all registers of the group behind it are to be saved. */
  lemma WidenedAgrees(z: Zone, z2: Zone, s: State, first: nat, inner: nat, note: Note, nsub: nat, n: nat)
    requires Agrees(z, s.low, s.high, s.info, note, nsub) && ZoneFits(z, 0, n) && z2.open == z.open &&
        z.first <= z2.first
    requires Rising(z.open + [first], 0, n) && (z2.open == [] ==> z2.first == first)
    ensures Agrees(z2, if s.low == NO_LOWEST_ACTIVE_REG then first else s.low, first + inner, s.info, note, nsub)
  {
    NewLast(z.open, first, n);
  }

  lemma ForkRound(job: Job, r: Re, nsub: nat, s: State, l: Log)
    requires Compiled(job, r, nsub) && Inv(job, r, nsub, s) && Regular(r) && Marks(job, r, nsub, s, l)
    requires s.p < Len(r) <= |job.code| && job.code[s.p] == ON_FAILURE_JUMP
    ensures RoundMarks(job, r, nsub, s, l)
  {
    hide Compiled, Inv, Regular, Here, BestOk, StackOk, ZoneOf, Agrees, ZoneFits, PastStart, SavedMarks, Len, AllMarked,
         Crosses, Rising;
    HereOpcodeInv(job, r, nsub, s);
    var to, p3 := Target(job.code, s.p), s.p + 3;
    RegexSoundness.Advance(job, r, nsub, s.p, s.d, p3, s.d, |s.stack|);
    NoNoOp(job, r, nsub, p3, s.d, |s.stack| + Gain(job.code, s.p, p3));
    ZoneMove(job, r, nsub, s.p, s.d, p3, |s.stack|);
    ZoneMove(job, r, nsub, s.p, s.d, to, |s.stack|);
    var z, z3, zt := ZoneOf(r, 0, 0, s.p), ZoneOf(r, 0, 0, p3), ZoneOf(r, 0, 0, to);
    PlainCrosses(job.code, s.p, z, z3);
    PlainCrosses(job.code, s.p, z, zt);
    LowWithin(z, s.low, s.high, s.info, l.now, nsub);
    assert Step(job, s) == StepOnFailure(job, s) by { Forks(job, s); }
    if Get(job.code, p3) == START_MEMORY {
      var first, inner := Get(job.code, p3 + 1), Get(job.code, p3 + 2);
      StartBehind(job, r, nsub, p3, s.d, |s.stack| + Gain(job.code, s.p, p3));
      ZoneHere(r, s.p);
      WidenedAgrees(z, z3, s, first, inner, l.now, nsub, GroupCount(r));
      var low := if s.low == NO_LOWEST_ACTIVE_REG then first else s.low;
      NoneIfNoLow(z, s, l.now, nsub);
      PushRound(job, r, nsub, s, l, s.(high := first + inner, low := low, p := p3), Some(to), Some(s.d), p3);
    } else {
      StillAgrees(z, z3, s.low, s.high, s.info, l.now, nsub);
      PushRound(job, r, nsub, s, l, s.(p := p3), Some(to), Some(s.d), p3);
    }
  }

  lemma Forks(job: Job, s: State)
    requires s.p < |job.code| && job.code[s.p] == ON_FAILURE_JUMP
    ensures Step(job, s) == StepOnFailure(job, s)
  {
    hide StepOnFailure;
  }

  lemma PlainCrosses(code: seq<Byte>, p: int, z: Zone, z2: Zone)
    requires Crosses(code, p, z, z2) && Get(code, p) != START_MEMORY && Get(code, p) != STOP_MEMORY
    ensures z2.open == z.open && z.first <= z2.first
  {
  }

  lemma NoneIfNoLow(z: Zone, s: State, note: Note, nsub: nat)
    requires Agrees(z, s.low, s.high, s.info, note, nsub)
    ensures s.low == NO_LOWEST_ACTIVE_REG ==> z.open == []
  {
  }

  /** The group that starts at p. */
  lemma StartBehind(job: Job, r: Re, nsub: nat, p: nat, d: nat, n: int)
    requires Compiled(job, r, nsub) && Here(job, r, p, d, n) && Regular(r) && Get(job.code, p) == START_MEMORY
    ensures var z, first := ZoneOf(r, 0, 0, p), Get(job.code, p + 1);
            && 1 <= first && first + Get(job.code, p + 2) <= nsub
            && Rising(z.open + [first], 0, GroupCount(r)) && (z.open == [] ==> z.first == first)
  {
    hide Compiled, Regular, Here, ZoneOf, Len, Rising;
    HereBelow(job, r, p, d, n);
    ProgramEnd(job, r, nsub);
    HereOpcode(job, r, nsub, p, d, n);
    ZoneMove(job, r, nsub, p, d, p + 3, n);
    ZoneHere(r, p + 3);
  }

  lemma KeepForkRound(job: Job, r: Re, nsub: nat, s: State, l: Log)
    requires Compiled(job, r, nsub) && Inv(job, r, nsub, s) && Regular(r) && Marks(job, r, nsub, s, l)
    requires s.p < Len(r) <= |job.code| && job.code[s.p] in {ON_FAILURE_KEEP_STRING_JUMP, PUSH_DUMMY_FAILURE,
                                                            DUMMY_FAILURE_JUMP}
    ensures RoundMarks(job, r, nsub, s, l)
  {
    hide Compiled, Inv, Regular, Here, BestOk, StackOk, ZoneOf, Agrees, ZoneFits, PastStart, SavedMarks, Len, AllMarked,
         Crosses, Rising;
    HereOpcodeInv(job, r, nsub, s);
    RegsOkOf(s, nsub);
    var z, op := ZoneOf(r, 0, 0, s.p), job.code[s.p];
    LowWithin(z, s.low, s.high, s.info, l.now, nsub);
    var to := Target(job.code, s.p);
    var p := if op == PUSH_DUMMY_FAILURE then s.p + 1 else if op == DUMMY_FAILURE_JUMP then to else s.p + 3;
    ZoneMove(job, r, nsub, s.p, s.d, p, |s.stack|);
    PlainCrosses(job.code, s.p, z, ZoneOf(r, 0, 0, p));
    StillAgrees(z, ZoneOf(r, 0, 0, p), s.low, s.high, s.info, l.now, nsub);
    if op == ON_FAILURE_KEEP_STRING_JUMP {
      ZoneMove(job, r, nsub, s.p, s.d, to, |s.stack|);
      PlainCrosses(job.code, s.p, z, ZoneOf(r, 0, 0, to));
      PushRound(job, r, nsub, s, l, s.(p := p), Some(to), None, p);
    } else if op == PUSH_DUMMY_FAILURE {
      PushRound(job, r, nsub, s, l, s.(p := p), None, None, p);
    } else {
      PushRound(job, r, nsub, s, l, s, None, None, p);
    }
  }

  lemma JumpRound(job: Job, r: Re, nsub: nat, s: State, l: Log)
    requires Compiled(job, r, nsub) && Inv(job, r, nsub, s) && Regular(r) && Marks(job, r, nsub, s, l)
    requires s.p < Len(r) <= |job.code| && job.code[s.p] in {JUMP, JUMP_PAST_ALT, MAYBE_POP_JUMP}
    ensures RoundMarks(job, r, nsub, s, l)
  {
    hide Compiled, Inv, Regular, Here, BestOk, StackOk, ZoneOf, Agrees, ZoneFits, PastStart, SavedMarks, Len, AllMarked,
         Crosses, Pops;
    HereOpcodeInv(job, r, nsub, s);
    var z, to := ZoneOf(r, 0, 0, s.p), Target(job.code, s.p);
    ZoneMove(job, r, nsub, s.p, s.d, to, |s.stack|);
    PlainCrosses(job.code, s.p, z, ZoneOf(r, 0, 0, to));
    StillAgrees(z, ZoneOf(r, 0, 0, to), s.low, s.high, s.info, l.now, nsub);
    if job.code[s.p] == MAYBE_POP_JUMP {
      SameSaved(r, nsub, s, l);
      if Pops(job.code, s.p) && s.stack != [] { SavedLess(r, nsub, s.stack, l.saved, |s.stack| - 1); }
    } else if to >= 0 {
      MoveRound(job, r, nsub, s, l, s.(p := to));
    }
  }

  // ---------- Items ----------

  lemma TakeRound(job: Job, r: Re, nsub: nat, s: State, l: Log)
    requires Compiled(job, r, nsub) && Inv(job, r, nsub, s) && Regular(r) && Marks(job, r, nsub, s, l)
    requires s.p < Len(r) <= |job.code| && job.code[s.p] in {EXACTN, ANYCHAR, CHARSET, CHARSET_NOT}
    ensures RoundMarks(job, r, nsub, s, l)
  {
    hide Compiled, Inv, Regular, Here, BestOk, StackOk, ZoneOf, Agrees, ZoneFits, PastStart, SavedMarks, Len, AllMarked,
         Crosses, SetRegsMatched, Fail, Compare, SetAccepts, DotAccepts, BitmapAt, StepSet;
    HereOpcodeInv(job, r, nsub, s);
    RegsOkOf(s, nsub);
    var op, z := job.code[s.p], ZoneOf(r, 0, 0, s.p);
    var d, ok := TakeStep(job, s);
    if ok {
      var p2 := if op == ANYCHAR then s.p + 1 else s.p + 2 + Get(job.code, s.p + 1);
      ZoneMove(job, r, nsub, s.p, s.d, p2, |s.stack|);
      PlainCrosses(job.code, s.p, z, ZoneOf(r, 0, 0, p2));
      ItemRound(job, r, nsub, s, l, p2, d);
    } else {
      FailRound(job, r, nsub, s, l, s.(d := d));
    }
  }

  lemma TakeStep(job: Job, s: State) returns (d: nat, ok: bool)
    requires s.p < |job.code| && job.code[s.p] in {EXACTN, ANYCHAR, CHARSET, CHARSET_NOT}
    requires job.code[s.p] == EXACTN ==> Get(job.code, s.p + 1) >= 1
    ensures var p2 := if job.code[s.p] == ANYCHAR then s.p + 1 else s.p + 2 + Get(job.code, s.p + 1);
            Step(job, s) == if ok then Running(SetRegsMatched(s.(p := p2, d := d))) else Fail(job, s.(d := d))
    ensures ok ==> d > s.d
  {
    hide SetRegsMatched, Fail, Compare, SetAccepts, DotAccepts, BitmapAt;
    var op := job.code[s.p];
    if op == EXACTN {
      var n := Get(job.code, s.p + 1);
      CompareLength(job.g, job.code, s.p + 2, s.d, n);
      var c := Compare(job.g, job.code, s.p + 2, s.d, n);
      ok, d := c.0, c.1;
    } else if op == ANYCHAR {
      ok := s.d < |job.g.text| && DotAccepts(job.g.syn, job.g.text[s.d]);
      d := if ok then s.d + 1 else s.d;
      assert s.(d := s.d) == s;
    } else {
      ok := s.d < |job.g.text| && SetAccepts(op == CHARSET_NOT, BitmapAt(job.code, s.p), job.g.text[s.d]);
      d := if ok then s.d + 1 else s.d;
      assert s.(d := s.d) == s;
    }
  }

  lemma {:induction false} CompareLength(g: Input, code: seq<Byte>, q: int, d: nat, n: nat)
    ensures Compare(g, code, q, d, n).0 ==> Compare(g, code, q, d, n).1 == d + n
    decreases n
  {
    if n > 0 { CompareLength(g, code, q + 1, d + 1, n - 1); }
  }

  lemma EndRound(job: Job, r: Re, nsub: nat, s: State, l: Log)
    requires Compiled(job, r, nsub) && Inv(job, r, nsub, s) && Marks(job, r, nsub, s, l) && s.p >= Len(r)
    ensures RoundMarks(job, r, nsub, s, l)
  {
    hide Compiled, Inv, ZoneOf, Agrees, PastStart, SavedMarks, Len, AllMarked, Fail, Marks;
    ProgramEnd(job, r, nsub);
    BelowEnd(job, r, nsub, s);
    InfoLength(job, r, nsub, s, l);
    if s.p == |job.code| && s.d != |job.g.text| && s.stack != [] {
      FailRound(job, r, nsub, s, l, s.(best := if s.best.None? || s.d > s.best.value then Some(s.d) else s.best));
    }
  }

  lemma BelowEnd(job: Job, r: Re, nsub: nat, s: State)
    requires Inv(job, r, nsub, s)
    ensures s.p <= Len(r)
  {
  }

  lemma InfoLength(job: Job, r: Re, nsub: nat, s: State, l: Log)
    requires Marks(job, r, nsub, s, l)
    ensures |s.info| == nsub + 1
  {
  }

  /** Every round keeps registers and log in agreement. */
  lemma StepMarks(job: Job, r: Re, nsub: nat, s: State, l: Log)
    requires Compiled(job, r, nsub) && Inv(job, r, nsub, s) && Regular(r) && Marks(job, r, nsub, s, l)
    ensures RoundMarks(job, r, nsub, s, l)
  {
    hide Compiled, Inv, Regular, Marks, RoundMarks, Here, BestOk, StackOk, Len, OpLen;
    ProgramEnd(job, r, nsub);
    if s.p >= Len(r) {
      EndRound(job, r, nsub, s, l);
    } else {
      HereOpcodeInv(job, r, nsub, s);
      var op := job.code[s.p];
      if op in {EXACTN, ANYCHAR, CHARSET, CHARSET_NOT} { TakeRound(job, r, nsub, s, l); }
      else if op == START_MEMORY { EnterRound(job, r, nsub, s, l); }
      else if op == STOP_MEMORY { StopRound(job, r, nsub, s, l); }
      else if op == ON_FAILURE_JUMP { ForkRound(job, r, nsub, s, l); }
      else if op in {ON_FAILURE_KEEP_STRING_JUMP, PUSH_DUMMY_FAILURE, DUMMY_FAILURE_JUMP} {
        KeepForkRound(job, r, nsub, s, l);
      } else { JumpRound(job, r, nsub, s, l); }
    }
  }

  lemma EnterRound(job: Job, r: Re, nsub: nat, s: State, l: Log)
    requires Compiled(job, r, nsub) && Inv(job, r, nsub, s) && Regular(r) && Marks(job, r, nsub, s, l)
    requires s.p < Len(r) <= |job.code| && job.code[s.p] == START_MEMORY
    ensures RoundMarks(job, r, nsub, s, l)
  {
    hide Compiled, Inv, Regular, Marks, RoundMarks, BestOk, StackOk, Len, Crosses, ZoneOf, Inside;
    HereOpcodeInv(job, r, nsub, s);
    ZoneMove(job, r, nsub, s.p, s.d, s.p + 3, |s.stack|);
    StartRound(job, r, nsub, s, l);
  }

  lemma FirstMarks(job: Job, r: Re, nsub: nat)
    requires Compiled(job, r, nsub)
    ensures Marks(job, r, nsub, Initial(job, nsub), FirstLog(nsub))
  {
    hide ZoneOf;
    NoneOpen(r, 0, 0, 0);
  }

  lemma {:induction false} AfterMarks(job: Job, r: Re, nsub: nat, s: State, l: Log, rounds: nat)
    requires Compiled(job, r, nsub) && Inv(job, r, nsub, s) && Regular(r) && Marks(job, r, nsub, s, l)
    ensures var a := After(job, s, l, rounds);
            a.Some? ==> Inv(job, r, nsub, a.value.0) && Marks(job, r, nsub, a.value.0, a.value.1)
    decreases rounds
  {
    hide Compiled, Inv, Regular, Marks, Step, Noted;
    if rounds > 0 {
      StepGood(job, r, nsub, s);
      StepMarks(job, r, nsub, s, l);
      var o := Step(job, s);
      if o.Running? { AfterMarks(job, r, nsub, o.s, Noted(job, s, l), rounds - 1); }
    }
  }
}
