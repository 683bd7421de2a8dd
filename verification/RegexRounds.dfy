/** Each round of the matching loop on the code of a pattern taken apart is one turn of the small machine, but for the
    operands of loops over groups, which are in RegexRepeats. */
module RegexRounds {
  import opened Wrappers
  import opened RegexTree
  import opened RegexCode
  import opened RegexMachine
  import opened RegexPaths
  import opened RegexParts
  import opened RegexTurns

  function BodyOff(p: Part): nat { if p.Several? then 6 else 3 }

  function Addr(ps: seq<Part>, x: Spot): nat
    requires SpotOk(ps, x)
  {
    Off(ps, x.i) + match x.at
                   case Start => 0
                   case Head => 3
                   case Body => BodyOff(ps[x.i])
                   case Back => BodyOff(ps[x.i]) + Len(UnitOf(ps[x.i]))
  }

  /** The jump after the operand of the `*' or `+' at i. */
  function BackAddr(ps: seq<Part>, i: nat): nat
    requires AllParts(ps) && i < |ps| && IsLoop(ps[i])
  {
    Addr(ps, Spot(i, Back))
  }

  /** The call is on the code of these parts, and pops says what its maybe_pop_jumps decide. */
  ghost predicate Follows(job: Job, k: Course) {
    && CourseOk(k) && LaidOut(job.code, k.ps) && job.g == k.g && job.pos == k.pos
    && forall i :: 0 <= i < |k.ps| && (k.ps[i].Many? || k.ps[i].Several?) ==>
         k.pops[i] == Pops(job.code, BackAddr(k.ps, i))
  }

  predicate SamePoint(ps: seq<Part>, a: FailPoint, b: Point) {
    match b
    case Nowhere => a.place.None? && a.str.None?
    case Resume(i, d) => i <= |ps| && a.place == Some(Off(ps, i)) && a.str == Some(d)
    case Kept(i) => i <= |ps| && a.place == Some(Off(ps, i)) && a.str.None?
  }

  predicate SameStack(ps: seq<Part>, s: seq<FailPoint>, c: seq<Point>) {
    |s| == |c| && forall j :: 0 <= j < |s| ==> SamePoint(ps, s[j], c[j])
  }

  predicate Same(ps: seq<Part>, s: State, c: Config) {
    SpotOk(ps, c.x) && s.p == Addr(ps, c.x) && s.d == c.d && s.best == c.best && SameStack(ps, s.stack, c.stack)
  }

  /** The round ends as the turn does, or there is no room for a failure point. */
  predicate Agree(job: Job, ps: seq<Part>, s: State, o: Outcome, t: Turned) {
    || (o == Finished(-2) && |s.stack| >= job.limit)
    || (match t
        case On(c) => o.Running? && Same(ps, o.s, c)
        case Done(n) => o == Finished(n))
  }

  lemma SameMore(ps: seq<Part>, s: seq<FailPoint>, c: seq<Point>, a: FailPoint, b: Point)
    requires SameStack(ps, s, c) && SamePoint(ps, a, b)
    ensures SameStack(ps, s + [a], c + [b])
  {
  }

  lemma SameLess(ps: seq<Part>, s: seq<FailPoint>, c: seq<Point>)
    requires SameStack(ps, s, c) && s != []
    ensures SameStack(ps, s[..|s| - 1], c[..|c| - 1]) && SamePoint(ps, s[|s| - 1], c[|c| - 1])
  {
  }

  // ---------- Failing ----------

  /** No part starts with a jump back, so a failure point is never skipped and no group is taken for a loop. */
  lemma StartOp(code: seq<Byte>, ps: seq<Part>, i: nat)
    requires LaidOut(code, ps) && i <= |ps|
    ensures Off(ps, i) <= |code| && (i < |ps| ==> Off(ps, i) < |code|)
    ensures Off(ps, i) < |code| ==> !IsBackJump(code[Off(ps, i)])
    ensures Off(ps, i) < |code| && code[Off(ps, i)] == DUMMY_FAILURE_JUMP ==> Offset(code, Off(ps, i)) == 3
  {
    hide LaidOut, Off, BitmapAt, Get, Offset;
    if i < |ps| { PartHere(code, ps, i); } else { EndHere(code, ps); }
  }

  lemma EndHere(code: seq<Byte>, ps: seq<Part>)
    requires LaidOut(code, ps)
    ensures Off(ps, |ps|) == |code|
  {
    hide Off, PartCode;
  }

  lemma {:induction false} FailRetreats(job: Job, k: Course, s: State, c: Config)
    requires Follows(job, k) && SameStack(k.ps, s.stack, c.stack) && s.best == c.best
    requires s.d == c.d || Plain(k, c.stack)
    ensures match Retreat(k, c)
            case On(c2) => Fail(job, s).Running? && Same(k.ps, Fail(job, s).s, c2)
            case Done(n) => Fail(job, s) == Finished(n)
    decreases |s.stack|
  {
    hide LaidOut, Off, RestoredRegs, CourseOk, Pops;
    if s.stack != [] {
      SameLess(k.ps, s.stack, c.stack);
      var rest := s.stack[..|s.stack| - 1];
      var pt, b := s.stack[|s.stack| - 1], c.stack[|c.stack| - 1];
      if Plain(k, c.stack) { PlainLess(k, c.stack); }
      var popped := s.(stack := rest, d := if pt.str.Some? then pt.str.value else s.d,
                       low := pt.low, high := pt.high, info := RestoredRegs(s.info, pt), done := false);
      if b == Nowhere {
        FailRetreats(job, k, popped, c.(stack := c.stack[..|c.stack| - 1]));
      } else {
        StartOp(job.code, k.ps, b.i);
        assert Addr(k.ps, Spot(b.i, Start)) == Off(k.ps, b.i);
      }
    }
  }

  /** A failed comparison may have moved on in the text, which matters only in a `.*\n' loop. */
  lemma Fails(job: Job, k: Course, s: State, c: Config, d: nat)
    requires Follows(job, k) && Same(k.ps, s, c) && (d == s.d || Plain(k, c.stack))
    ensures Agree(job, k.ps, s, Fail(job, s.(d := d)), Retreat(k, c))
  {
    hide Follows, Same, Retreat, Fail, SameStack, Plain;
    SameParts(k.ps, s, c);
    FailRetreats(job, k, s.(d := d), c);
  }

  lemma SameParts(ps: seq<Part>, s: State, c: Config)
    requires Same(ps, s, c)
    ensures SpotOk(ps, c.x) && s.p == Addr(ps, c.x) && s.d == c.d && s.best == c.best && SameStack(ps, s.stack, c.stack)
  {
  }

  // ---------- Items ----------

  predicate SameByte(g: Input, code: seq<Byte>, q: int, d: nat, k: nat) {
    d + k < |g.text| && g.text[d + k] == Get(code, q + k)
  }

  predicate AllSame(g: Input, code: seq<Byte>, q: int, d: nat, n: nat) {
    forall k :: 0 <= k < n ==> SameByte(g, code, q, d, k)
  }

  lemma {:induction false} CompareExact(g: Input, code: seq<Byte>, q: int, d: nat, n: nat)
    ensures var (ok, d2) := Compare(g, code, q, d, n);
            && (ok <==> AllSame(g, code, q, d, n))
            && (ok ==> d2 == d + n)
    decreases n
  {
    if n > 0 {
      assert SameByte(g, code, q, d, 0) <==> d < |g.text| && g.text[d] == Get(code, q);
      CompareExact(g, code, q + 1, d + 1, n - 1);
      var q1, d1 := q + 1, d + 1;
      if AllSame(g, code, q1, d1, n - 1) {
        forall k | 1 <= k < n ensures SameByte(g, code, q, d, k) { assert SameByte(g, code, q1, d1, k - 1); }
      }
      if AllSame(g, code, q, d, n) {
        forall k | 0 <= k < n - 1 ensures SameByte(g, code, q1, d1, k) { assert SameByte(g, code, q, d, k + 1); }
      }
    }
  }

  /** Obeying the opcode of an item. */
  lemma ItemStep(job: Job, s: State, item: Re) returns (d: nat)
    requires ItemCode(job.code, s.p, item) && IsItem(item)
    ensures ItemTakes(job.g, item, s.d) ==>
      Step(job, s) == Running(SetRegsMatched(s.(p := s.p + Len(item), d := s.d + Width(item))))
    ensures !ItemTakes(job.g, item, s.d) ==> Step(job, s) == Fail(job, s.(d := d)) && (!item.Exact? ==> d == s.d)
  {
    hide Fail, SetRegsMatched, BitmapAt, SetAccepts, DotAccepts, Compare, Get;
    d := s.d;
    assert s.(d := s.d) == s;
    if item.Exact? { d := ExactStep(job, s, item); }
  }

  lemma ExactStep(job: Job, s: State, item: Re) returns (d: nat)
    requires ItemCode(job.code, s.p, item) && IsItem(item) && item.Exact?
    ensures ItemTakes(job.g, item, s.d) ==>
      Step(job, s) == Running(SetRegsMatched(s.(p := s.p + Len(item), d := s.d + Width(item))))
    ensures !ItemTakes(job.g, item, s.d) ==> Step(job, s) == Fail(job, s.(d := d))
  {
    hide Fail, SetRegsMatched, BitmapAt, SetAccepts, DotAccepts, Compare, Get, CharOf;
    var ts, q := item.ts, s.p + 2;
    var n := |ts|;
    CompareExact(job.g, job.code, q, s.d, n);
    var compared := Compare(job.g, job.code, q, s.d, n);
    var ok := compared.0;
    d := compared.1;
    assert ok <==> ItemTakes(job.g, item, s.d) by {
      if ok {
        assert SameByte(job.g, job.code, q, s.d, n - 1);
        forall k | 0 <= k < n
          ensures job.g.text[s.d + k] == CharOf(ts[k])
        {
          assert SameByte(job.g, job.code, q, s.d, k);
        }
      }
      if ItemTakes(job.g, item, s.d) {
        forall k | 0 <= k < n
          ensures SameByte(job.g, job.code, q, s.d, k)
        {
          assert job.g.text[s.d + k] == CharOf(ts[k]);
        }
      }
    }
    assert Step(job, s) == StepExact(job, s);
    if !ok { assert Step(job, s) == Fail(job, s.(d := d)); }
  }

  lemma SameButRegs(s: State)
    ensures var t := SetRegsMatched(s); t.p == s.p && t.d == s.d && t.stack == s.stack && t.best == s.best
  {
  }

  // ---------- Rounds ----------

  lemma PushAgrees(job: Job, ps: seq<Part>, s: State, s1: State, c: Config, x: Spot, place: Option<nat>,
          str: Option<nat>,
                   pt: Point)
    requires Same(ps, s, c) && s1.stack == s.stack && s1.d == s.d && s1.best == s.best
    requires SpotOk(ps, x) && s1.p == Addr(ps, x)
    requires SamePoint(ps, FailPoint(place, str, s1.low, s1.high, SavedRegs(s1)), pt)
    ensures Agree(job, ps, s, Push(job, s1, place, str), Pushed(c, x, pt))
  {
    hide Addr, SpotOk, SavedRegs, SamePoint, SameStack;
    SameMore(ps, s.stack, c.stack, FailPoint(place, str, s1.low, s1.high, SavedRegs(s1)), pt);
  }

  /** A round that goes on with the same failure points. */
  lemma MovesOn(job: Job, ps: seq<Part>, s: State, c: Config, s2: State, x: Spot, d: nat)
    requires Same(ps, s, c) && SpotOk(ps, x) && s2.p == Addr(ps, x) && s2.d == d && s2.stack == s.stack
             && s2.best == s.best
    ensures Agree(job, ps, s, Running(s2), On(c.(x := x, d := d)))
  {
    hide Addr, SpotOk, SameStack;
  }

  lemma EndRound(job: Job, k: Course, s: State, c: Config)
    requires Follows(job, k) && Same(k.ps, s, c) && Orderly(k, c) && c.x.i == |k.ps|
    ensures Agree(job, k.ps, s, Step(job, s), Turn(k, c))
  {
    hide LaidOut, Off, Retreat, Fail, SameStack, Plain, Pops;
    EndHere(job.code, k.ps);
    assert c.x == Spot(|k.ps|, Start) && s.p == |job.code|;
    FailRetreats(job, k, s.(best := Better(s.best, s.d)), c.(best := Better(c.best, c.d)));
    assert |s.stack| == |c.stack| by { SameSize(k.ps, s, c); }
  }

  lemma SameSize(ps: seq<Part>, s: State, c: Config)
    requires Same(ps, s, c)
    ensures |s.stack| == |c.stack|
  {
  }

  lemma ItemRound(job: Job, k: Course, s: State, c: Config)
    requires Follows(job, k) && Same(k.ps, s, c) && Orderly(k, c)
    requires c.x.i < |k.ps| && k.ps[c.x.i].Item? && c.x.at == Start
    ensures Agree(job, k.ps, s, Step(job, s), Turn(k, c))
  {
    hide LaidOut, Off, Retreat, Fail, SameStack, Plain, Pops, Step, ItemCode, SetRegsMatched, Len, ItemTakes;
    var i := c.x.i;
    PartHere(job.code, k.ps, i);
    var item := k.ps[i].re;
    var d := ItemStep(job, s, item);
    if ItemTakes(job.g, item, s.d) {
      var s2 := s.(p := s.p + Len(item), d := s.d + Width(item));
      SameButRegs(s2);
      MovesOn(job, k.ps, s, c, SetRegsMatched(s2), Spot(i + 1, Start), s.d + Width(item));
    } else {
      Fails(job, k, s, c, d);
    }
  }

  /** The operand of a loop or a `?', if it is one item. */
  lemma BodyRound(job: Job, k: Course, s: State, c: Config)
    requires Follows(job, k) && Same(k.ps, s, c) && Orderly(k, c) && c.x.at == Body && IsUnit(BodyOf(k.ps[c.x.i]))
    ensures Agree(job, k.ps, s, Step(job, s), Turn(k, c))
  {
    hide LaidOut, Off, Retreat, Fail, SameStack, Plain, Pops, Step, ItemCode, SetRegsMatched, Len, ItemTakes, Takes,
         Span, Fixed;
    var i := c.x.i;
    PartHere(job.code, k.ps, i);
    var p := k.ps[i];
    var unit := BodyOf(p);
    UnitTakesOne(job.g, unit, s.d);
    assert Len(AnyChar) == 1 by { LenAnyChar(); }
    var d := ItemStep(job, s, unit);
    if ItemTakes(job.g, unit, s.d) {
      var s2 := s.(p := s.p + Len(unit), d := s.d + 1);
      SameButRegs(s2);
      MovesOn(job, k.ps, s, c, SetRegsMatched(s2), Behind(k.ps, i), s.d + 1);
    } else {
      Fails(job, k, s, c, d);
    }
  }

  /** An on_failure_jump, whatever registers it sets. */
  lemma ForkStep(job: Job, s: State, to: nat) returns (s1: State)
    requires JumpHere(job.code, s.p, ON_FAILURE_JUMP, to)
    ensures Step(job, s) == Push(job, s1, Some(to), Some(s.d))
    ensures s1.p == s.p + 3 && s1.d == s.d && s1.stack == s.stack && s1.best == s.best
  {
    hide SkipNoOps, Get, Target, Push;
    var p1 := SkipNoOps(job.code, s.p + 3);
    var first := Get(job.code, p1 + 1);
    var entered := if Get(job.code, p1) == START_MEMORY then
                     s.(high := first + Get(job.code, p1 + 2),
                        low := if s.low == NO_LOWEST_ACTIVE_REG then first else s.low)
                   else s;
    s1 := entered.(p := s.p + 3);
    assert Step(job, s) == StepOnFailure(job, s);
  }

  /** The on_failure_jump of `*', `+' and `?'. */
  lemma EnterRound(job: Job, k: Course, s: State, c: Config)
    requires Follows(job, k) && Same(k.ps, s, c) && Orderly(k, c) && c.x.i < |k.ps|
    requires if c.x.at == Start then k.ps[c.x.i].Many? || k.ps[c.x.i].Maybe? else c.x.at == Head
    ensures Agree(job, k.ps, s, Step(job, s), Turn(k, c))
  {
    hide LaidOut, Off, Retreat, SameStack, Plain, Pops, Step, ItemCode, Len, Target, Push, SavedRegs;
    var i := c.x.i;
    PartHere(job.code, k.ps, i);
    var s1 := ForkStep(job, s, Off(k.ps, i + 1));
    PushAgrees(job, k.ps, s, s1, c, Spot(i, Body), Some(Off(k.ps, i + 1)), Some(s.d), Resume(i + 1, c.d));
  }

  lemma ForkRound(job: Job, k: Course, s: State, c: Config)
    requires Follows(job, k) && Same(k.ps, s, c) && Orderly(k, c) && c.x.i < |k.ps| && k.ps[c.x.i].Fork?
             && c.x.at == Start
    ensures Agree(job, k.ps, s, Step(job, s), Turn(k, c))
  {
    hide LaidOut, Off, Retreat, SameStack, Plain, Pops, Step, ItemCode, Len, Target, Push, SavedRegs;
    var i := c.x.i;
    PartHere(job.code, k.ps, i);
    var to := i + 1 + k.ps[i].over;
    var s1 := ForkStep(job, s, Off(k.ps, to));
    PushAgrees(job, k.ps, s, s1, c, Spot(i + 1, Start), Some(Off(k.ps, to)), Some(s.d), Resume(to, c.d));
  }

  /** The dummy_failure_jump of a `+', the jump of an alternative, a push_dummy_failure and the start of a `.*\n'
      loop. */
  lemma JumpRound(job: Job, k: Course, s: State, c: Config)
    requires Follows(job, k) && Same(k.ps, s, c) && Orderly(k, c) && c.x.i < |k.ps| && c.x.at == Start
    requires var p := k.ps[c.x.i]; p.Several? || p.Goto? || p.Blank? || p.Dots?
    ensures Agree(job, k.ps, s, Step(job, s), Turn(k, c))
  {
    hide LaidOut, Off, Retreat, SameStack, Plain, Pops, ItemCode, Len, Target, Push, SavedRegs;
    var i, ps := c.x.i, k.ps;
    PartHere(job.code, ps, i);
    assert Reaching(ps, i);
    match ps[i]
    case Several(_) =>
      var o := Push(job, s, None, None);
      assert Step(job, s) == if o.Running? then JumpTo(job, o.s) else o;
      PushJumpAgrees(job, ps, s, c, i);
    case Goto(over) => MovesOn(job, ps, s, c, s.(p := Off(ps, i + 1 + over)), Spot(i + 1 + over, Start), c.d);
    case Blank => PushAgrees(job, ps, s, s.(p := s.p + 1), c, Spot(i + 1, Start), None, None, Nowhere);
    case Dots => PushAgrees(job, ps, s, s.(p := s.p + 3), c, Spot(i, Body), Some(Off(ps, i + 1)), None, Kept(i + 1));
  }

  lemma PushJumpAgrees(job: Job, ps: seq<Part>, s: State, c: Config, i: nat)
    requires Same(ps, s, c) && c.x == Spot(i, Start) && i < |ps| && ps[i].Several? && SpotOk(ps, Spot(i, Body))
    requires Target(job.code, s.p) == s.p + 6
    ensures var o := Push(job, s, None, None);
            Agree(job, ps, s, if o.Running? then JumpTo(job, o.s) else o, Pushed(c, Spot(i, Body), Nowhere))
  {
    hide Off, Target, SavedRegs, SameStack;
    var pt := FailPoint(None, None, s.low, s.high, SavedRegs(s));
    SameMore(ps, s.stack, c.stack, pt, Nowhere);
  }

  /** A group's registers decide nothing here: no loop is around the group. */
  lemma MarkRound(job: Job, k: Course, s: State, c: Config)
    requires Follows(job, k) && Same(k.ps, s, c) && Orderly(k, c) && c.x.i < |k.ps| && k.ps[c.x.i].Mark?
             && c.x.at == Start
    ensures Agree(job, k.ps, s, Step(job, s), Turn(k, c))
  {
    hide LaidOut, Off, Retreat, SameStack, Plain, Pops, ItemCode, Len, Target, Stopped, Offset, UpdateReg;
    var i := c.x.i;
    PartHere(job.code, k.ps, i);
    StartOp(job.code, k.ps, i + 1);
    if job.code[s.p] == START_MEMORY {
      MovesOn(job, k.ps, s, c, StepStart(job, s).s, Spot(i + 1, Start), c.d);
    } else {
      var reg := Get(job.code, s.p + 1);
      StoppedSame(s, reg);
      NoLoopHead(job.code, s.p);
      MovesOn(job, k.ps, s, c, Stopped(s, reg).(p := s.p + 3), Spot(i + 1, Start), c.d);
    }
  }

  lemma StoppedSame(s: State, reg: Byte)
    ensures var t := Stopped(s, reg); t.p == s.p && t.d == s.d && t.stack == s.stack && t.best == s.best
  {
  }

  lemma NoLoopHead(code: seq<Byte>, p: nat)
    requires p + 3 < |code| ==> !IsBackJump(code[p + 3])
    requires p + 3 < |code| && code[p + 3] == DUMMY_FAILURE_JUMP ==> Offset(code, p + 3) == 3
    ensures p + 3 < |code| ==> LoopHead(code, p) == None
  {
    hide Offset, Target;
  }

  lemma BackRound(job: Job, k: Course, s: State, c: Config)
    requires Follows(job, k) && Same(k.ps, s, c) && Orderly(k, c) && c.x.at == Back
    ensures Agree(job, k.ps, s, Step(job, s), Turn(k, c))
  {
    hide LaidOut, Off, Retreat, SameStack, Plain, Pops, ItemCode, Len, Target, Takes, Span, Fixed, Laid;
    var i, ps := c.x.i, k.ps;
    PartHere(job.code, ps, i);
    assert Len(AnyChar) == 1 by { LenAnyChar(); }
    if ps[i].Dots? {
      MovesOn(job, ps, s, c, s.(p := Off(ps, i) + 3), Spot(i, Body), c.d);
    } else {
      var x := Spot(i, if ps[i].Several? then Head else Start);
      assert JumpHere(job.code, s.p, MAYBE_POP_JUMP, Addr(ps, x));
      assert k.pops[i] == Pops(job.code, s.p);
      SameSize(ps, s, c);
      if k.pops[i] {
        SameLess(ps, s.stack, c.stack);
        assert Step(job, s) == Running(s.(stack := s.stack[..|s.stack| - 1], done := false, p := Addr(ps, x)));
      } else {
        MovesOn(job, ps, s, c, s.(p := Addr(ps, x)), x, c.d);
      }
    }
  }

  /** Control is at the operand of a loop over a group. */
  predicate AtGroup(ps: seq<Part>, x: Spot)
    requires SpotOk(ps, x)
  {
    x.at == Body && !IsUnit(BodyOf(ps[x.i]))
  }

  lemma RoundTurns(job: Job, k: Course, s: State, c: Config)
    requires Follows(job, k) && Same(k.ps, s, c) && Orderly(k, c) && !AtGroup(k.ps, c.x)
    ensures Agree(job, k.ps, s, Step(job, s), Turn(k, c))
  {
    hide Follows, Same, TopOk, Agree, Step, Turn;
    if c.x.i == |k.ps| { EndRound(job, k, s, c); }
    else {
      match c.x.at
      case Head => EnterRound(job, k, s, c);
      case Body => BodyRound(job, k, s, c);
      case Back => BackRound(job, k, s, c);
      case Start => {
        var p := k.ps[c.x.i];
        if p.Item? { ItemRound(job, k, s, c); }
        else if p.Many? || p.Maybe? { EnterRound(job, k, s, c); }
        else if p.Fork? { ForkRound(job, k, s, c); }
        else if p.Mark? { MarkRound(job, k, s, c); }
        else { JumpRound(job, k, s, c); }
      }
    }
  }
}
