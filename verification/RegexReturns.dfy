/** The matcher returns. A measure of what is still to be tried goes down with every turn, so on the code of a pattern
    taken apart there is a number of rounds, known in advance, after which it has finished. */
module RegexReturns {
  import opened Wrappers
  import opened RegexTree
  import opened RegexCode
  import opened RegexMachine
  import opened RegexParts
  import opened RegexTurns
  import opened RegexRounds
  import opened RegexMarks
  import opened RegexForced
  import opened RegexRepeats
  import RegexPaths
  import RegexLayout
  import RegexGrammar
  import RegexGroups
  import RegexSoundness

  function Rank(at: Place): nat {
    match at
    case Body => 1
    case Head => 2
    case Start => 4
    case Back => 5
  }

  /** Where the end of the loop at i goes back to. */
  function Again(ps: seq<Part>, i: nat): Spot
    requires i < |ps|
  {
    Spot(i, if ps[i].Dots? then Body else if ps[i].Several? then Head else Start)
  }

  /** A bound on the turns from x with d characters used, with those from the failure points pushed on the way. */
  function Work(k: Course, x: Spot, d: nat): (n: nat)
    requires CourseOk(k) && SpotOk(k.ps, x) && d <= |k.g.text|
    ensures n > 0
    decreases |k.g.text| - d, |k.ps| - x.i, Rank(x.at)
  {
    if x.i == |k.ps| then 1
    else
      match x.at
      case Start => WorkStart(k, x.i, d)
      case Head => 2 + Work(k, Spot(x.i, Body), d) + Work(k, Spot(x.i + 1, Start), d)
      case Body => WorkBody(k, x.i, d)
      case Back => 1 + Work(k, Again(k.ps, x.i), d)
  }

  function WorkStart(k: Course, i: nat, d: nat): (n: nat)
    requires CourseOk(k) && i < |k.ps| && d <= |k.g.text|
    ensures n > 0
    decreases |k.g.text| - d, |k.ps| - i, 3
  {
    assert IsPart(k.ps[i]) && Reaching(k.ps, i);
    var next := Spot(i + 1, Start);
    match k.ps[i]
    case Item(re) => if ItemTakes(k.g, re, d) then 1 + Work(k, next, d + Width(re)) else 1
    case Fork(over) => 2 + Work(k, next, d) + Work(k, Spot(i + 1 + over, Start), d)
    case Goto(over) => 1 + Work(k, Spot(i + 1 + over, Start), d)
    case Mark(_, _) => 1 + Work(k, next, d)
    case Blank => 2 + Work(k, next, d)
    case Many(_) => 2 + Work(k, Spot(i, Body), d) + Work(k, next, d)
    case Maybe(_) => 2 + Work(k, Spot(i, Body), d) + Work(k, next, d)
    case Several(_) => 2 + Work(k, Spot(i, Body), d)
    case Dots => 2 + Work(k, Spot(i, Body), d)
  }

  /** The kept failure point of a `.*\n' loop is counted here, where the text is. */
  function WorkBody(k: Course, i: nat, d: nat): (n: nat)
    requires CourseOk(k) && SpotOk(k.ps, Spot(i, Body)) && d <= |k.g.text|
    ensures n > 0
    decreases |k.g.text| - d, |k.ps| - i, 0
  {
    var n := Span(BodyOf(k.ps[i]));
    BehindOk(k.ps, i);
    var taken := if d + n > |k.g.text| then 0 else Work(k, Behind(k.ps, i), d + n);
    1 + taken + if k.ps[i].Dots? then Work(k, Spot(i + 1, Start), d) else 0
  }

  function PointWork(k: Course, pt: Point): (n: nat)
    requires CourseOk(k)
    ensures n > 0
  {
    if pt.Resume? && PointOk(k, pt) then 1 + Work(k, Spot(pt.i, Start), pt.d) else 1
  }

  function StackWork(k: Course, stack: seq<Point>): (n: nat)
    requires CourseOk(k)
    ensures n >= |stack|
    decreases |stack|
  {
    if stack == [] then 0 else StackWork(k, stack[..|stack| - 1]) + PointWork(k, stack[|stack| - 1])
  }

  function Left(k: Course, c: Config): (n: nat)
    requires CourseOk(k) && Orderly(k, c)
    ensures n > |c.stack|
  {
    Work(k, c.x, c.d) + StackWork(k, c.stack)
  }

  lemma StackWorkMore(k: Course, stack: seq<Point>, pt: Point)
    requires CourseOk(k)
    ensures StackWork(k, stack + [pt]) == StackWork(k, stack) + PointWork(k, pt)
  {
    assert (stack + [pt])[..|stack|] == stack;
  }

  /** Going back costs no more than the failure points that are given up. */
  lemma {:induction false} RetreatCosts(k: Course, c: Config, most: nat)
    requires CourseOk(k) && InText(k, c) && Plain(k, c.stack) && StackWork(k, c.stack) < most
    ensures var t := Retreat(k, c); t.On? ==> Orderly(k, t.c) && Left(k, t.c) < most
    decreases |c.stack|
  {
    hide Work, Plain;
    RetreatOrderly(k, c);
    if c.stack != [] {
      var rest, pt := c.stack[..|c.stack| - 1], c.stack[|c.stack| - 1];
      PlainLess(k, c.stack);
      if pt == Nowhere { RetreatCosts(k, c.(stack := rest), most); }
    }
  }

  /** Leaving a `.*\n' loop. */
  lemma {:induction false} LeaveCosts(k: Course, c: Config, i: nat, most: nat)
    requires CourseOk(k) && InText(k, c) && i <= |k.ps|
    requires c.stack != [] && c.stack[|c.stack| - 1] == Kept(i) && Plain(k, c.stack[..|c.stack| - 1])
    requires StackWork(k, c.stack) + Work(k, Spot(i, Start), c.d) <= most
    ensures var t := Retreat(k, c); t.On? ==> Orderly(k, t.c) && Left(k, t.c) < most
  {
    hide Work, Plain;
    RetreatOrderly(k, c);
  }

  lemma TurnCosts(k: Course, c: Config)
    requires CourseOk(k) && Orderly(k, c)
    ensures var t := Turn(k, c); t.On? ==> Orderly(k, t.c) && Left(k, t.c) < Left(k, c)
  {
    hide Work, Retreat, ItemTakes, Plain, StackWork;
    TurnOrderly(k, c);
    if c.x.i == |k.ps| {
      RetreatCosts(k, c.(best := Better(c.best, c.d)), Left(k, c));
    } else {
      WorkIs(k, c.x, c.d);
      match c.x.at
      case Start => StartCosts(k, c);
      case Head => StackWorkMore(k, c.stack, Resume(c.x.i + 1, c.d));
      case Body => BodyCosts(k, c);
      case Back => BackCosts(k, c);
    }
  }

  lemma WorkIs(k: Course, x: Spot, d: nat)
    requires CourseOk(k) && SpotOk(k.ps, x) && d <= |k.g.text| && x.i < |k.ps|
    ensures Work(k, x, d) ==
      match x.at
      case Start => WorkStart(k, x.i, d)
      case Head => 2 + Work(k, Spot(x.i, Body), d) + Work(k, Spot(x.i + 1, Start), d)
      case Body => WorkBody(k, x.i, d)
      case Back => 1 + Work(k, Again(k.ps, x.i), d)
  {
  }

  lemma StartCosts(k: Course, c: Config)
    requires CourseOk(k) && Orderly(k, c) && c.x.i < |k.ps| && c.x.at == Start
    ensures var t := Turn(k, c); t.On? ==> Orderly(k, t.c) && Left(k, t.c) < Left(k, c)
  {
    hide Work, Retreat, ItemTakes, Plain, StackWork;
    TurnOrderly(k, c);
    WorkIs(k, c.x, c.d);
    var i := c.x.i;
    assert IsPart(k.ps[i]) && Reaching(k.ps, i);
    match k.ps[i]
    case Item(re) => if !ItemTakes(k.g, re, c.d) { RetreatCosts(k, c, Left(k, c)); }
    case Fork(over) => StackWorkMore(k, c.stack, Resume(i + 1 + over, c.d));
    case Goto(over) =>
    case Mark(_, _) =>
    case Blank => StackWorkMore(k, c.stack, Nowhere);
    case Many(_) => StackWorkMore(k, c.stack, Resume(i + 1, c.d));
    case Maybe(_) => StackWorkMore(k, c.stack, Resume(i + 1, c.d));
    case Several(_) => StackWorkMore(k, c.stack, Nowhere);
    case Dots => StackWorkMore(k, c.stack, Kept(i + 1));
  }

  lemma BodyCosts(k: Course, c: Config)
    requires CourseOk(k) && Orderly(k, c) && c.x.at == Body
    ensures var t := Turn(k, c); t.On? ==> Orderly(k, t.c) && Left(k, t.c) < Left(k, c)
  {
    hide Work, Retreat, Takes, Fixed, Span, Plain, StackWork;
    TurnOrderly(k, c);
    WorkIs(k, c.x, c.d);
    var body := BodyOf(k.ps[c.x.i]);
    if Takes(k.g, body, c.d) {
      TakesBounds(k.g, body, c.d);
    } else if k.ps[c.x.i].Dots? {
      LeaveCosts(k, c, c.x.i + 1, Left(k, c));
    } else {
      RetreatCosts(k, c, Left(k, c));
    }
  }

  lemma BackCosts(k: Course, c: Config)
    requires CourseOk(k) && Orderly(k, c) && c.x.at == Back
    ensures var t := Turn(k, c); t.On? ==> Orderly(k, t.c) && Left(k, t.c) < Left(k, c)
  {
    hide Work, Takes, Fixed, Span, Plain;
    TurnOrderly(k, c);
    WorkIs(k, c.x, c.d);
  }

  // ---------- Many turns ----------

  ghost function Turns(k: Course, c: Config, n: nat): Turned
    requires CourseOk(k) && Orderly(k, c)
    decreases n
  {
    if n == 0 then On(c)
    else
      var t := Turn(k, c);
      TurnOrderly(k, c);
      if t.On? then Turns(k, t.c, n - 1) else t
  }

  lemma {:induction false} TurnsEnd(k: Course, c: Config, n: nat)
    requires CourseOk(k) && Orderly(k, c) && n >= Left(k, c)
    ensures Turns(k, c, n).Done? && Turns(k, c, n).n >= -1
    decreases n
  {
    hide Turn, Left, TopOk, CourseOk;
    TurnOrderly(k, c);
    TurnCosts(k, c);
    LeftSome(k, c);
    var t := Turn(k, c);
    if t.On? { TurnsEnd(k, t.c, n - 1); }
  }

  lemma LeftSome(k: Course, c: Config)
    requires CourseOk(k) && Orderly(k, c)
    ensures Left(k, c) > |c.stack|
  {
  }

  lemma {:induction false} TurnsDone(k: Course, c: Config, n: nat)
    requires CourseOk(k) && Orderly(k, c)
    ensures Turns(k, c, n).Done? ==> Turns(k, c, n).n >= -1
    decreases n
  {
    hide Turn, TopOk, CourseOk;
    if n > 0 {
      TurnOrderly(k, c);
      var t := Turn(k, c);
      if t.On? { TurnsDone(k, t.c, n - 1); }
    }
  }

  predicate RepeatsGroup(p: Part) { (p.Many? || p.Several?) && !IsUnit(p.unit) }

  /** A loop over a group is among the parts. */
  predicate GroupLoops(ps: seq<Part>) {
    exists i :: 0 <= i < |ps| && RepeatsGroup(ps[i])
  }

  /** Where there are such loops, registers and log agree. */
  ghost predicate Trusted(job: Job, r: Re, nsub: nat, ps: seq<Part>, s: State, l: Log) {
    GroupLoops(ps) ==> Held(job, r, nsub, s, l) && !job.g.syn.noBacktrack
  }

  /** The rounds that make up the next turn. */
  lemma NextTurn(job: Job, k: Course, r: Re, nsub: nat, s: State, l: Log, c: Config) returns (m: nat, l2: Log)
    requires Follows(job, k) && Same(k.ps, s, c) && Orderly(k, c) && Trusted(job, r, nsub, k.ps, s, l)
    ensures 1 <= m <= |job.code| + 1 && Agree(job, k.ps, s, Run(job, s, m), Turn(k, c))
    ensures forall j: nat :: j < m ==> Run(job, s, j).Running?
    ensures var o := Run(job, s, m); o.Running? ==> Trusted(job, r, nsub, k.ps, o.s, l2)
  {
    hide Step, Turn, TopOk, Same, Held, Agree, Noted, Follows, Fixed;
    if AtGroup(k.ps, c.x) {
      GroupHere(k.ps, c.x);
      m, l2 := BodyRounds(job, r, nsub, k, s, l, c);
    } else {
      RoundTurns(job, k, s, c);
      RunOne(job, s);
      m, l2 := 1, Noted(job, s, l);
      if GroupLoops(k.ps) { HeldOn(job, r, nsub, s, l); }
    }
  }

  lemma GroupHere(ps: seq<Part>, x: Spot)
    requires SpotOk(ps, x) && AtGroup(ps, x)
    ensures GroupLoops(ps)
  {
    assert RepeatsGroup(ps[x.i]);
  }

  lemma {:induction false} RunSplit(job: Job, s: State, m: nat, n: nat)
    requires m <= n
    ensures Run(job, s, n) == if Run(job, s, m).Running? then Run(job, Run(job, s, m).s, n - m) else Run(job, s, m)
    decreases m
  {
    hide Step;
    if m > 0 && Step(job, s).Running? { RunSplit(job, Step(job, s).s, m - 1, n - 1); }
  }

  /** A run of rounds is a run of turns, but for a lack of room, which there is not with as much as the bound. */
  lemma {:induction false} RunTurns(job: Job, k: Course, r: Re, nsub: nat, s: State, l: Log, c: Config, n: nat)
    returns (t: nat)
    requires Follows(job, k) && Same(k.ps, s, c) && Orderly(k, c) && Trusted(job, r, nsub, k.ps, s, l)
    ensures CourseOk(k)
    ensures var o, u := Run(job, s, n), Turns(k, c, t);
            || (o == Finished(-2) && job.limit < Left(k, c))
            || (if o.Finished? then u.Done? && o == Finished(u.n)
                else o.Running? && n < Left(k, c) * (|job.code| + 1))
    decreases n
  {
    hide Step, Turn, TopOk, Same, SameStack, Left, Plain, Trusted, Run;
    LeftSome(k, c);
    t := 0;
    var m, l2 := NextTurn(job, k, r, nsub, s, l, c);
    if n < m {
      ShortRun(n, Left(k, c), |job.code| + 1);
    } else {
      RunSplit(job, s, m, n);
      TurnCosts(k, c);
      StackSize(k.ps, s, c);
      var u, o := Turn(k, c), Run(job, s, m);
      t := 1;
      TurnsOne(k, c);
      if u.On? && o.Running? {
        var v := RunTurns(job, k, r, nsub, o.s, l2, u.c, n - m);
        t := 1 + v;
        FewerLeft(n, m, Left(k, u.c), Left(k, c), |job.code| + 1);
      }
    }
  }

  lemma TurnsOne(k: Course, c: Config)
    requires CourseOk(k) && Orderly(k, c)
    ensures Turns(k, c, 1) == Turn(k, c)
  {
    hide Turn;
    TurnOrderly(k, c);
    if Turn(k, c).On? { assert Turns(k, Turn(k, c).c, 0) == Turn(k, c); }
  }

  lemma ShortRun(n: nat, left: nat, most: nat)
    requires n < most && left >= 1
    ensures n < left * most
  {
    assert (left - 1) * most >= 0;
    assert left * most == (left - 1) * most + most;
  }

  lemma FewerLeft(n: nat, m: nat, fewer: nat, left: nat, most: nat)
    requires m <= n && m <= most && fewer < left
    ensures n - m < fewer * most ==> n < left * most
  {
    assert (left - 1 - fewer) * most >= 0;
    assert left * most == (left - 1 - fewer) * most + fewer * most + most;
  }

  lemma StackSize(ps: seq<Part>, s: State, c: Config)
    requires Same(ps, s, c)
    ensures |s.stack| == |c.stack|
  {
  }

  function First(k: Course): Config {
    Config(Spot(0, Start), k.pos, [], None)
  }

  lemma FirstFollows(job: Job, k: Course, nsub: nat)
    requires Follows(job, k)
    ensures CourseOk(k) && Orderly(k, First(k)) && Same(k.ps, Initial(job, nsub), First(k))
  {
    hide LaidOut, Pops;
    OffZero(k.ps);
  }

  /** What a match does, on a pattern taken apart. */
  function CourseOf(job: Job, r: Re): (k: Course)
    requires UnitLoops(r)
  {
    var ps := Parts(r);
    Course(job.g, job.pos, ps,
           seq(|ps|, i requires 0 <= i < |ps| => IsLoop(ps[i]) && AllParts(ps) && Pops(job.code, BackAddr(ps, i))))
  }

  lemma CourseFollows(job: Job, r: Re)
    requires UnitLoops(r) && Program(job.code, r, job.g.syn) && !job.g.syn.noBacktrack && |job.code| < MAX_OFFSET_CODE
    requires job.pos <= |job.g.text|
    ensures Follows(job, CourseOf(job, r))
  {
    hide Program, Pops, BackAddr, PartCode;
    ProgramLaidOut(job.code, r, job.g.syn);
    var ps := Parts(r);
    forall i | 0 <= i < |ps| ensures Reaching(ps, i) { ReachingHere(job.code, ps, i); }
  }

  lemma ReachingHere(code: seq<Byte>, ps: seq<Part>, i: nat)
    requires LaidOut(code, ps) && i < |ps|
    ensures Reaching(ps, i)
  {
    hide Off, JumpHere, ItemCode;
    assert PartCode(code, ps, i);
  }

  function Bound(job: Job, r: Re): nat
    requires UnitLoops(r) && CourseOk(CourseOf(job, r))
  {
    Left(CourseOf(job, r), First(CourseOf(job, r))) * (|job.code| + 1)
  }

  /** If the pattern repeats groups, they are numbered as the compiler numbers them. */
  predicate Ordered(r: Re, nsub: nat)
    requires UnitLoops(r)
  {
    GroupLoops(Parts(r)) ==> RegexGrammar.Numbered(r, 0) && RegexGrammar.GroupCount(r) <= nsub
  }

  lemma {:induction false} UnitLoopsShape(r: Re)
    requires UnitLoops(r)
    ensures RegexPaths.Sized(r) && RegexLayout.PlainDotLines(r) && RegexGroups.AtomLoops(r)
  {
    match r
    case Cat(a, b) => { UnitLoopsShape(a); UnitLoopsShape(b); }
    case Alt(pre, last) => { UnitLoopsShape(pre); UnitLoopsShape(last); }
    case Group(_, _, body) => UnitLoopsShape(body);
    case ZeroOrMore(body, _) => BodyShape(body);
    case OneOrMore(body, _) => BodyShape(body);
    case Optional(body, _) => UnitLoopsShape(body);
    case _ =>
  }

  lemma BodyShape(body: Re)
    requires IsBody(body)
    ensures RegexPaths.Sized(body) && RegexLayout.PlainDotLines(body) && RegexGroups.AtomLoops(body)
    ensures body.Group? || RegexGrammar.GroupCount(body) == 0
  {
    if !IsUnit(body) { FixedShape(body); }
  }

  lemma {:induction false} FixedShape(u: Re)
    requires Fixed(u)
    ensures RegexPaths.Sized(u) && RegexLayout.PlainDotLines(u) && RegexGroups.AtomLoops(u)
  {
    match u
    case Cat(a, b) => { FixedShape(a); FixedShape(b); }
    case Group(_, _, body) => FixedShape(body);
    case _ =>
  }

  /** At the start of a call. */
  lemma FirstTrusted(job: Job, k: Course, r: Re, nsub: nat)
    requires UnitLoops(r) && Program(job.code, r, job.g.syn) && !job.g.syn.noBacktrack && |job.code| < MAX_OFFSET_CODE
    requires job.pos <= |job.g.text| && Ordered(r, nsub) && k.ps == Parts(r)
    ensures Trusted(job, r, nsub, k.ps, Initial(job, nsub), FirstLog(nsub))
  {
    hide Program, Parts, UnitLoops, Initial, FirstLog, RegexGrammar.Numbered, RegexSoundness.Inv, RegexMarks.Marks;
    if GroupLoops(k.ps) {
      UnitLoopsShape(r);
      RegexGrammar.NumberedWithin(r, 0, nsub);
      RegexSoundness.InitialInv(job, r, nsub);
      FirstMarks(job, r, nsub);
    }
  }

  /** The matcher returns within a bound on every text, for every pattern whose `*' and `+' repeat one-character items
      or groups with no choice in them. */
  lemma MatchReturns(job: Job, r: Re, nsub: nat, rounds: nat)
    requires UnitLoops(r) && Program(job.code, r, job.g.syn) && !job.g.syn.noBacktrack && |job.code| < MAX_OFFSET_CODE
    requires job.pos <= |job.g.text| && Ordered(r, nsub)
    ensures CourseOk(CourseOf(job, r))
    ensures rounds >= Bound(job, r) ==> Match(job, nsub, rounds).Finished?
    ensures rounds >= Bound(job, r) && job.limit >= Bound(job, r) ==> Match(job, nsub, rounds).n != -2
  {
    hide Program, CourseOf, Follows, Left, Orderly, Run, Turns, Trusted, Ordered;
    CourseFollows(job, r);
    var k := CourseOf(job, r);
    CourseParts(job, r);
    FirstFollows(job, k, nsub);
    FirstTrusted(job, k, r, nsub);
    var t := RunTurns(job, k, r, nsub, Initial(job, nsub), FirstLog(nsub), First(k), rounds);
    TurnsDone(k, First(k), t);
    LeftSome(k, First(k));
    ShortRun(|job.code|, Left(k, First(k)), |job.code| + 1);
    assert Left(k, First(k)) <= Bound(job, r) by { Times(Left(k, First(k)), |job.code|); }
  }

  lemma CourseParts(job: Job, r: Re)
    requires UnitLoops(r)
    ensures CourseOf(job, r).ps == Parts(r) && CourseOf(job, r).g == job.g && CourseOf(job, r).pos == job.pos
  {
  }

  lemma Times(left: nat, n: nat)
    ensures left <= left * (n + 1)
  {
  }
}
