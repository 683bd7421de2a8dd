/** Where the longest rule fails: for every pattern without alternatives, and with `?' only after one-character items,
    whose loops are not well followed, some text is missed altogether. */
module RegexMisses {
  import opened Wrappers
  import opened RegexTree
  import opened RegexCode
  import opened RegexMachine
  import opened RegexParts
  import opened RegexTurns
  import opened RegexRounds
  import opened RegexReturns
  import opened RegexLongest
  import opened RegexMeaning
  import opened RegexDecision

  /** One way through the pattern, with loops over one-character items. */
  predicate Linear(ps: seq<Part>) {
    forall i :: 0 <= i < |ps| ==> !ps[i].Fork? && !ps[i].Goto? && !RepeatsGroup(ps[i])
  }

  /** What must match: an item, or a `+' at least once. */
  predicate IsNeeded(p: Part) { p.Item? || (p.Several? && IsUnit(p.unit)) }

  function NeededItem(p: Part): (item: Re)
    requires IsPart(p) && IsNeeded(p)
    ensures IsItem(item)
  {
    if p.Item? then p.re else p.unit
  }

  ghost predicate CanBegin(syn: Syntax, item: Re)
    requires IsItem(item)
  {
    exists c: Byte :: Begins(syn, item, c)
  }

  /** No item that must match is a bracket expression that accepts nothing. */
  ghost predicate Possible(syn: Syntax, ps: seq<Part>)
    requires AllParts(ps)
  {
    forall i :: 0 <= i < |ps| && IsNeeded(ps[i]) ==> CanBegin(syn, NeededAt(ps, i))
  }

  function NeededAt(ps: seq<Part>, i: nat): (item: Re)
    requires AllParts(ps) && i < |ps| && IsNeeded(ps[i])
    ensures IsItem(item)
  {
    assert IsPart(ps[i]);
    NeededItem(ps[i])
  }

  // ---------- The shortest text ----------

  /** The part m is to begin with c; the others with any character they can begin with. */
  datatype Choice = Choice(syn: Syntax, ps: seq<Part>, m: nat, c: Byte)

  ghost function Pick(syn: Syntax, item: Re): (c: Byte)
    requires IsItem(item) && CanBegin(syn, item)
    ensures Begins(syn, item, c)
  {
    var c: Byte :| Begins(syn, item, c); c
  }

  ghost predicate ChoiceOk(h: Choice) {
    && AllParts(h.ps) && Linear(h.ps) && Possible(h.syn, h.ps)
    && h.m < |h.ps| && IsNeeded(h.ps[h.m]) && Begins(h.syn, NeededAt(h.ps, h.m), h.c)
  }

  /** What part t takes at least. */
  ghost function Bit(h: Choice, t: nat): (s: seq<Byte>)
    requires ChoiceOk(h) && t < |h.ps|
    ensures |s| == if IsNeeded(h.ps[t]) then Width(NeededAt(h.ps, t)) else 0
  {
    if !IsNeeded(h.ps[t]) then []
    else
      var item := NeededAt(h.ps, t);
      if item.Exact? then Chars(item.ts) else [if t == h.m then h.c else Pick(h.syn, item)]
  }

  ghost function Sample(h: Choice, t: nat): (s: seq<Byte>)
    requires ChoiceOk(h) && t <= |h.ps|
  {
    if t == 0 then [] else Sample(h, t - 1) + Bit(h, t - 1)
  }

  ghost function Least(h: Choice, t: nat): nat
    requires ChoiceOk(h) && t <= |h.ps|
  {
    |Sample(h, t)|
  }

  ghost function Text(h: Choice): seq<Byte>
    requires ChoiceOk(h)
  {
    Sample(h, |h.ps|)
  }

  lemma {:induction false} SamplePrefix(h: Choice, t: nat, u: nat)
    requires ChoiceOk(h) && t <= u <= |h.ps|
    ensures Sample(h, t) <= Sample(h, u)
    decreases u
  {
    hide ChoiceOk, Bit;
    if t < u { SamplePrefix(h, t, u - 1); }
  }

  /** In the sample, each needed part finds what it takes where the parts before it have taken the least. */
  lemma NeededTakes(h: Choice, g: Input, t: nat)
    requires ChoiceOk(h) && t < |h.ps| && IsNeeded(h.ps[t]) && g == Input(h.syn, Text(h))
    ensures ItemTakes(g, NeededAt(h.ps, t), Least(h, t)) && Least(h, t + 1) == Least(h, t) + Width(NeededAt(h.ps, t))
    ensures t == h.m ==> Least(h, t) < |g.text| && g.text[Least(h, t)] == h.c
  {
    hide Pick, Accepts, Begins, Linear, Possible, Sample, Bit;
    var item, d, bit := NeededAt(h.ps, t), Least(h, t), Bit(h, t);
    SamplePrefix(h, t + 1, |h.ps|);
    SampleNext(h, t);
    BitTakes(h, t);
    assert d + |bit| <= |g.text|;
    forall n | 0 <= n < |bit| ensures g.text[d + n] == bit[n] { assert Sample(h, t + 1)[d + n] == bit[n]; }
  }

  lemma SampleNext(h: Choice, t: nat)
    requires ChoiceOk(h) && t < |h.ps|
    ensures Sample(h, t + 1) == Sample(h, t) + Bit(h, t)
  {
    hide ChoiceOk, Bit;
  }

  lemma BitTakes(h: Choice, t: nat)
    requires ChoiceOk(h) && t < |h.ps| && IsNeeded(h.ps[t])
    ensures var item, bit := NeededAt(h.ps, t), Bit(h, t);
            && bit != [] && |bit| == Width(item)
            && (if item.Exact? then forall n :: 0 <= n < |bit| ==> bit[n] == CharOf(item.ts[n])
               else Accepts(h.syn, item, bit[0]))
            && (t == h.m ==> bit[0] == h.c)
  {
    var item := NeededAt(h.ps, t);
    assert CanBegin(h.syn, item);
  }

  lemma NotNeeded(h: Choice, t: nat)
    requires ChoiceOk(h) && t < |h.ps| && !IsNeeded(h.ps[t])
    ensures Least(h, t + 1) == Least(h, t)
  {
    hide ChoiceOk;
    assert Sample(h, t + 1) == Sample(h, t) + [];
  }

  /** The sample is a member of the language. */
  lemma {:induction false} SampleTail(h: Choice, g: Input, t: nat)
    requires ChoiceOk(h) && t <= |h.ps| && g == Input(h.syn, Text(h))
    ensures AllParts(h.ps) && Tail(g, h.ps, t, Least(h, t), |g.text|)
    decreases |h.ps| - t
  {
    hide Least, Text, Sample, ItemTakes, Possible, Tail, LoopTail;
    if t < |h.ps| {
      SampleTail(h, g, t + 1);
      TailIs(g, h.ps, t, Least(h, t), |g.text|);
      LeastInText(h, t);
      if IsNeeded(h.ps[t]) {
        NeededTakes(h, g, t);
        if h.ps[t].Several? {
          UnitTakesOne(g, h.ps[t].unit, Least(h, t));
          LeastInText(h, t + 1);
          NoneTaken(g, h.ps[t].unit, Least(h, t) + 1);
          LoopIntro(g, h.ps, t, Least(h, t) + 1, Least(h, t) + 1, |g.text|);
          LoopTake(g, h.ps, t, Least(h, t), |g.text|);
        }
      } else {
        NotNeeded(h, t);
        if IsLoop(h.ps[t]) {
          NoneTaken(g, UnitAt(h.ps, t), Least(h, t));
          LoopIntro(g, h.ps, t, Least(h, t), Least(h, t), |g.text|);
        }
      }
    } else {
      AllLeast(h);
      NothingLeft(g, h.ps, Least(h, t), |g.text|);
    }
  }

  lemma LeastInText(h: Choice, t: nat)
    requires ChoiceOk(h) && t <= |h.ps|
    ensures Least(h, t) <= |Text(h)|
  {
    hide ChoiceOk, Sample;
    SamplePrefix(h, t, |h.ps|);
  }

  lemma AllLeast(h: Choice)
    requires ChoiceOk(h)
    ensures Least(h, |h.ps|) == |Text(h)|
  {
  }

  lemma LinearUnit(g: Input, ps: seq<Part>, i: nat, d: nat)
    requires AllParts(ps) && Linear(ps) && i < |ps| && HasUnit(ps[i])
    ensures IsUnit(UnitAt(ps, i)) && Span(UnitAt(ps, i)) == 1 &&
        Takes(g, UnitAt(ps, i), d) == ItemTakes(g, UnitAt(ps, i), d)
  {
    assert !RepeatsGroup(ps[i]);
    UnitTakesOne(g, UnitAt(ps, i), d);
  }

  // ---------- A run on the shortest text ----------

  /** The loop at i eats what part m needs, and keeps no way back. */
  ghost predicate Eats(k: Course, h: Choice, i: nat) {
    && CourseOk(k) && ChoiceOk(h) && k.ps == h.ps && k.g == Input(h.syn, Text(h)) && k.pos == 0
    && i < h.m && IsLoop(k.ps[i]) && (k.ps[i].Dots? || k.pops[i])
    && Accepts(h.syn, UnitAt(k.ps, i), h.c) && forall t :: i < t < h.m ==> !IsNeeded(k.ps[t])
  }

  ghost function Floor(h: Choice, x: Spot): nat
    requires ChoiceOk(h) && SpotOk(h.ps, x)
  {
    Least(h, x.i) + if x.at == Head || x.at == Back then 1 else 0
  }

  /** Behind the loop at i, more is used than the least. */
  ghost predicate Over(h: Choice, i: nat, x: Spot, d: nat)
    requires ChoiceOk(h) && SpotOk(h.ps, x)
  {
    d >= Floor(h, x) && (x.i > i ==> d > Floor(h, x))
  }

  ghost predicate PointOver(h: Choice, i: nat, pt: Point)
    requires ChoiceOk(h)
  {
    pt.Resume? ==> pt.i <= |h.ps| && Over(h, i, Spot(pt.i, Start), pt.d)
  }

  ghost predicate AllOver(h: Choice, i: nat, stack: seq<Point>)
    requires ChoiceOk(h)
  {
    forall j :: 0 <= j < |stack| ==> PointOver(h, i, stack[j])
  }

  predicate InLoop(i: nat, x: Spot) { x.i == i && (x.at == Body || x.at == Back) }

  /** Nothing has been found, and nothing that is still to be tried can end at the end of the text; but for the way out
      of the loop at i, which is thrown away before it is used. */
  ghost predicate Hopeless(k: Course, h: Choice, i: nat, c: Config) {
    && Eats(k, h, i) && Orderly(k, c) && c.best == None && Over(h, i, c.x, c.d)
    && if InLoop(i, c.x) then
         && c.stack != [] && AllOver(h, i, c.stack[..|c.stack| - 1])
         && (c.stack[|c.stack| - 1].Resume? ==> c.stack[|c.stack| - 1].d >= Least(h, i + 1))
       else AllOver(h, i, c.stack)
  }

  ghost predicate HopelessTurned(k: Course, h: Choice, i: nat, t: Turned) {
    match t
    case On(c) => Hopeless(k, h, i, c)
    case Done(n) => n == -1
  }

  lemma OverMore(h: Choice, i: nat, stack: seq<Point>, pt: Point)
    requires ChoiceOk(h) && AllOver(h, i, stack) && PointOver(h, i, pt)
    ensures AllOver(h, i, stack + [pt])
  {
    hide PointOver;
  }

  lemma OverLess(h: Choice, i: nat, stack: seq<Point>)
    requires ChoiceOk(h) && AllOver(h, i, stack) && stack != []
    ensures AllOver(h, i, stack[..|stack| - 1]) && PointOver(h, i, stack[|stack| - 1])
  {
    hide PointOver;
  }

  lemma {:induction false} RetreatHopeless(k: Course, h: Choice, i: nat, c: Config)
    requires Eats(k, h, i) && InText(k, c) && Plain(k, c.stack) && c.best == None && AllOver(h, i, c.stack)
    ensures HopelessTurned(k, h, i, Retreat(k, c))
    decreases |c.stack|
  {
    hide Eats, Plain, Least, AllOver;
    RetreatOrderly(k, c);
    EatsOk(k, h, i);
    if c.stack != [] {
      PlainLess(k, c.stack);
      OverLess(h, i, c.stack);
      if c.stack[|c.stack| - 1] == Nowhere { RetreatHopeless(k, h, i, c.(stack := c.stack[..|c.stack| - 1])); }
    }
  }

  lemma EatsOk(k: Course, h: Choice, i: nat)
    requires Eats(k, h, i)
    ensures CourseOk(k) && ChoiceOk(h) && k.ps == h.ps && AllParts(k.ps) && i < h.m < |k.ps| && IsLoop(k.ps[i])
    ensures (k.ps[i].Dots? || k.pops[i]) && Linear(k.ps)
  {
  }

  lemma {:induction false} SameLeast(k: Course, h: Choice, i: nat, t: nat)
    requires Eats(k, h, i) && i < t <= h.m
    ensures Least(h, t) == Least(h, i + 1)
    decreases t
  {
    hide Least, ChoiceOk;
    EatsOk(k, h, i);
    if t > i + 1 {
      SameLeast(k, h, i, t - 1);
      NotNeeded(h, t - 1);
    }
  }

  /** Where the least is used in front of the loop's way out, the loop can take the next character. */
  lemma EatsThere(k: Course, h: Choice, i: nat)
    requires Eats(k, h, i)
    ensures CourseOk(k) && ChoiceOk(h) && IsLoop(k.ps[i]) && ItemTakes(k.g, UnitAt(k.ps, i), Least(h, i + 1))
  {
    hide Least, ItemTakes, Accepts, Text, Begins, Linear, Possible;
    NeededTakes(h, k.g, h.m);
    SameLeast(k, h, i, h.m);
    EatsOk(k, h, i);
    LinearUnit(k.g, k.ps, i, Least(h, i + 1));
    UnitTakes(k.g, UnitAt(k.ps, i), Least(h, i + 1));
  }

  lemma LeastNext(h: Choice, t: nat)
    requires ChoiceOk(h) && t < |h.ps|
    ensures IsPart(h.ps[t]) && !h.ps[t].Fork? && !h.ps[t].Goto?
    ensures Least(h, t + 1)
         == Least(h, t) + if h.ps[t].Item? then Width(h.ps[t].re) else if h.ps[t].Several? then 1 else 0
  {
    hide Least;
    if IsNeeded(h.ps[t]) { NeededTakes(h, Input(h.syn, Text(h)), t); } else { NotNeeded(h, t); }
  }

  lemma StartHopeless(k: Course, h: Choice, i: nat, c: Config)
    requires Hopeless(k, h, i, c) && c.x.i < |k.ps| && c.x.at == Start
    ensures HopelessTurned(k, h, i, Turn(k, c))
  {
    hide Eats, Plain, Least, AllOver, Retreat, ItemTakes;
    EatsOk(k, h, i);
    TurnOrderly(k, c);
    var x := c.x.i;
    LeastNext(h, x);
    match k.ps[x]
    case Item(re) => if !ItemTakes(k.g, re, c.d) { RetreatHopeless(k, h, i, c); }
    case Many(_) => EnterHopeless(k, h, i, c, Resume(x + 1, c.d));
    case Maybe(_) => EnterHopeless(k, h, i, c, Resume(x + 1, c.d));
    case Several(_) => EnterHopeless(k, h, i, c, Nowhere);
    case Dots => EnterHopeless(k, h, i, c, Kept(x + 1));
    case Mark(_, _) =>
    case Blank => OverMore(h, i, c.stack, Nowhere);
    case _ =>
  }

  /** Into a loop or an optional item. */
  lemma EnterHopeless(k: Course, h: Choice, i: nat, c: Config, pt: Point)
    requires Hopeless(k, h, i, c) && c.x.i < |k.ps| && (c.x.at == Start || c.x.at == Head) && HasUnit(k.ps[c.x.i])
    requires Turn(k, c) == Pushed(c, Spot(c.x.i, Body), pt)
    requires pt.Resume? ==> pt == Resume(c.x.i + 1, c.d) && (c.x.at == Start ==> !k.ps[c.x.i].Several?)
    ensures HopelessTurned(k, h, i, Turn(k, c))
  {
    hide Eats, Plain, Least, AllOver;
    EatsOk(k, h, i);
    TurnOrderly(k, c);
    LeastNext(h, c.x.i);
    assert (c.stack + [pt])[..|c.stack|] == c.stack;
    if c.x.i != i { OverMore(h, i, c.stack, pt); }
  }

  lemma BodyHopeless(k: Course, h: Choice, i: nat, c: Config)
    requires Hopeless(k, h, i, c) && c.x.at == Body
    ensures HopelessTurned(k, h, i, Turn(k, c))
  {
    hide Eats, Plain, Least, AllOver, Retreat, ItemTakes;
    EatsOk(k, h, i);
    TurnOrderly(k, c);
    LeastNext(h, c.x.i);
    var p := k.ps[c.x.i];
    LinearUnit(k.g, k.ps, c.x.i, c.d);
    if !ItemTakes(k.g, UnitOf(p), c.d) {
      if c.x.i == i {
        EatsThere(k, h, i);
        if p.Dots? { LeaveHopeless(k, h, i, c); } else { OutHopeless(k, h, i, c); }
      } else if p.Dots? {
        LeaveHopeless(k, h, i, c);
      } else {
        RetreatHopeless(k, h, i, c);
      }
    }
  }

  /** The loop fails to take a character, so more than the least is used, and its way out may be taken. */
  lemma OutHopeless(k: Course, h: Choice, i: nat, c: Config)
    requires Hopeless(k, h, i, c) && c.x == Spot(i, Body) && !k.ps[i].Dots? && c.d != Least(h, i + 1)
    ensures HopelessTurned(k, h, i, Retreat(k, c))
  {
    hide Eats, Plain, Least, Retreat;
    EatsOk(k, h, i);
    var rest, pt := c.stack[..|c.stack| - 1], c.stack[|c.stack| - 1];
    assert PointOver(h, i, pt);
    OverMore(h, i, rest, pt);
    assert rest + [pt] == c.stack;
    RetreatHopeless(k, h, i, c);
  }

  /** A `.*\n' loop is left where the text is. */
  lemma LeaveHopeless(k: Course, h: Choice, i: nat, c: Config)
    requires Hopeless(k, h, i, c) && c.x.at == Body && k.ps[c.x.i].Dots? && (c.x.i == i ==> c.d != Least(h, i + 1))
    ensures HopelessTurned(k, h, i, Retreat(k, c))
  {
    hide Eats, Plain, Least;
    EatsOk(k, h, i);
    RetreatOrderly(k, c);
    LeastNext(h, c.x.i);
    if c.x.i != i { OverLess(h, i, c.stack); }
  }

  lemma BackHopeless(k: Course, h: Choice, i: nat, c: Config)
    requires Hopeless(k, h, i, c) && c.x.at == Back
    ensures HopelessTurned(k, h, i, Turn(k, c))
  {
    hide Eats, Plain, Least, AllOver, ItemTakes;
    EatsOk(k, h, i);
    TurnOrderly(k, c);
    LeastNext(h, c.x.i);
    if c.x.i != i { OverLess(h, i, c.stack); }
  }

  lemma TurnHopeless(k: Course, h: Choice, i: nat, c: Config)
    requires Hopeless(k, h, i, c)
    ensures CourseOk(k) && Orderly(k, c) && HopelessTurned(k, h, i, Turn(k, c))
  {
    hide HopelessTurned, Eats, Least, AllOver, TopOk;
    EatsOk(k, h, i);
    if c.x.i == |k.ps| { NeverAtEnd(k, h, i, c); }
    else {
      match c.x.at
      case Start => StartHopeless(k, h, i, c);
      case Head => EnterHopeless(k, h, i, c, Resume(c.x.i + 1, c.d));
      case Body => BodyHopeless(k, h, i, c);
      case Back => BackHopeless(k, h, i, c);
    }
  }

  /** At the end more than the least would be used, and the text has no more than that. */
  lemma NeverAtEnd(k: Course, h: Choice, i: nat, c: Config)
    requires Hopeless(k, h, i, c)
    ensures c.x.i != |k.ps|
  {
    hide Sample, Linear, Possible, AllOver, TopOk;
    AllLeast(h);
  }

  lemma {:induction false} TurnsHopeless(k: Course, h: Choice, i: nat, c: Config, n: nat)
    requires Hopeless(k, h, i, c)
    ensures CourseOk(k) && Orderly(k, c)
    ensures var t := Turns(k, c, n); t.Done? ==> t.n == -1
    decreases n
  {
    hide Hopeless, Turn, TopOk;
    TurnHopeless(k, h, i, c);
    if n > 0 {
      TurnOrderly(k, c);
      var t := Turn(k, c);
      if t.On? { TurnsHopeless(k, h, i, t.c, n - 1); }
    }
  }

  lemma FirstHopeless(k: Course, h: Choice, i: nat)
    requires Eats(k, h, i) && Orderly(k, First(k))
    ensures Hopeless(k, h, i, First(k))
  {
    hide Linear, Possible;
    assert Least(h, 0) == 0;
  }

  // ---------- The exact condition ----------

  /** A loop that something behind it does not yield to: the needed part it eats from. */
  lemma {:induction false} Eaten(syn: Syntax, unit: Re, ps: seq<Part>, j: nat) returns (m: nat, c: Byte)
    requires IsUnit(unit) && AllParts(ps) && Linear(ps) && !Yields(syn, unit, ps, j)
    ensures j <= m < |ps| && IsNeeded(ps[m]) && Accepts(syn, unit, c) && Begins(syn, NeededAt(ps, m), c)
    ensures forall t :: j <= t < m ==> !IsNeeded(ps[t])
    decreases |ps| - j
  {
    hide Accepts, Begins;
    if IsNeeded(ps[j]) {
      m := j;
      assert !Apart(syn, unit, NeededAt(ps, j));
      c :| Accepts(syn, unit, c) && Begins(syn, NeededAt(ps, j), c);
    } else {
      m, c := Eaten(syn, unit, ps, j + 1);
    }
  }

  /** The matcher, given room and rounds, finds nothing in a text that is a member of the language as a whole. */
  ghost predicate Missed(job: Job, r: Re, rounds: nat) {
    job.pos == 0 && Matches(job.g, r, 0, |job.g.text|) && forall nsub: nat :: Match(job, nsub, rounds) == Finished(-1)
  }

  /** A pattern whose loops are not well followed misses its shortest text. */
  lemma SomeMissed(code: seq<Byte>, r: Re, syn: Syntax) returns (job: Job, rounds: nat)
    requires UnitLoops(r) && Linear(Parts(r)) && Possible(syn, Parts(r)) && !WellFollowed(syn, Parts(r))
    requires Program(code, r, syn) && !syn.noBacktrack && |code| < MAX_OFFSET_CODE
    ensures job.code == code && job.g.syn == syn && Missed(job, r, rounds)
  {
    hide Program, Parts, WellFollowed, Yields, Linear, Possible, Text, Match, Matches, Accepts, Begins, LaidOut,
         BackAddr, Pops, Left, Orderly, Tail;
    var ps := Parts(r);
    var some := Job(Input(syn, []), code, 0, 0);
    WellFollowedSensible(some, r);
    var i :| 0 <= i < |ps| && IsLoop(ps[i]) && (ps[i].Dots? || CourseOf(some, r).pops[i])
             && !Spares(syn, ps, i);
    LinearUnit(Input(syn, []), ps, i, 0);
    var m, c := Eaten(syn, UnitAt(ps, i), ps, i + 1);
    var h := Choice(syn, ps, m, c);
    var g := Input(syn, Text(h));
    job := Job(g, code, 0, 0);
    CourseFollows(job, r);
    var k := CourseOf(job, r);
    FirstFollows(job, k, 0);
    rounds := Bound(job, r);
    Times(Left(k, First(k)), |code|);
    job := job.(limit := rounds);
    assert CourseOf(job, r) == k;
    CourseFollows(job, r);
    FirstHopeless(k, h, i);
    forall nsub: nat ensures Match(job, nsub, rounds) == Finished(-1) {
      NoGroups(ps);
      var t := MatchTurns(job, r, nsub, rounds);
      TurnsHopeless(k, h, i, First(k), t);
    }
    LeastZero(h);
    SampleTail(h, g, 0);
    PartsMean(g, r, 0, |g.text|);
  }

  lemma NoGroups(ps: seq<Part>)
    requires Linear(ps)
    ensures !GroupLoops(ps)
  {
  }

  lemma LeastZero(h: Choice)
    requires ChoiceOk(h)
    ensures Least(h, 0) == 0
  {
  }

  /** Where an item that must match accepts nothing, nothing matches. */
  lemma {:induction false} ImpossibleTail(g: Input, ps: seq<Part>, t: nat, bad: nat, d: nat, e: nat)
    requires AllParts(ps) && Linear(ps) && t <= bad < |ps| && IsNeeded(ps[bad]) && !CanBegin(g.syn, NeededAt(ps, bad))
    ensures !Tail(g, ps, t, d, e)
    decreases |ps| - t
  {
    hide Tail, LoopTail, ItemTakes, CanBegin;
    TailIs(g, ps, t, d, e);
    if Tail(g, ps, t, d, e) {
      if ps[t].Item? {
        if t == bad { ItemBegins(g, ps[t].re, d); } else { ImpossibleTail(g, ps, t + 1, bad, d + Width(ps[t].re), e); }
      } else if IsLoop(ps[t]) {
        if ps[t].Several? && t == bad {
          LoopTake(g, ps, t, d, e);
          LinearUnit(g, ps, t, d);
          ItemBegins(g, ps[t].unit, d);
        } else {
          LoopTake(g, ps, t, d, e);
          var n := LoopElim(g, ps, t, if ps[t].Several? then d + Span(UnitAt(ps, t)) else d, e);
          ImpossibleTail(g, ps, t + 1, bad, n, e);
        }
      } else {
        ImpossibleTail(g, ps, t + 1, bad, d, e);
        ImpossibleTail(g, ps, t + 1, bad, d + 1, e);
      }
    }
  }

  lemma ItemBegins(g: Input, item: Re, d: nat)
    requires IsItem(item) && ItemTakes(g, item, d)
    ensures CanBegin(g.syn, item)
  {
    assert item.Exact? ==> g.text[d + 0] == CharOf(item.ts[0]);
    assert Begins(g.syn, item, g.text[d]);
  }

  /** The matcher, whenever it returns and does not run out of room, does what the longest rule asks. */
  ghost predicate KeepsRule(job: Job, r: Re, nsub: nat, rounds: nat) {
    job.pos <= |job.g.text| ==>
      var o := Match(job, nsub, rounds); o.Finished? && o.n != -2 ==> IsLongest(job.g, r, job.pos, o.n)
  }

  /** For every pattern without alternatives and with repetitions of one-character items only: the longest rule is kept
      on every text if and only if the pattern's loops are well followed, or it matches nothing at all. */
  lemma LongestExactly(code: seq<Byte>, r: Re, syn: Syntax)
    requires UnitLoops(r) && Linear(Parts(r))
    requires Program(code, r, syn) && !syn.noBacktrack && |code| < MAX_OFFSET_CODE
    ensures WellFollowed(syn, Parts(r)) || !Possible(syn, Parts(r)) <==>
            forall job: Job, nsub: nat, rounds: nat :: job.code == code && job.g.syn == syn
              ==> KeepsRule(job, r, nsub, rounds)
  {
    hide Program, Parts, WellFollowed, Linear, Match, Matches, CanBegin;
    if WellFollowed(syn, Parts(r)) || !Possible(syn, Parts(r)) {
      forall job: Job, nsub: nat, rounds: nat | job.code == code && job.g.syn == syn
        ensures KeepsRule(job, r, nsub, rounds)
      {
        if job.pos <= |job.g.text| {
          if WellFollowed(syn, Parts(r)) {
            NoGroups(Parts(r));
            LongestRule(job, r, nsub, rounds);
          } else {
            NoneToMiss(job.g, r, job.pos);
          }
        }
      }
    } else {
      var job, rounds := SomeMissed(code, r, syn);
      assert !KeepsRule(job, r, 0, rounds);
    }
  }

  lemma NoneToMiss(g: Input, r: Re, pos: nat)
    requires UnitLoops(r) && Linear(Parts(r)) && !Possible(g.syn, Parts(r)) && pos <= |g.text|
    ensures forall e: nat :: !Matches(g, r, pos, e)
  {
    hide Parts, Tail, Matches, CanBegin, Linear;
    var ps := Parts(r);
    var bad :| 0 <= bad < |ps| && IsNeeded(ps[bad]) && !CanBegin(g.syn, NeededAt(ps, bad));
    forall e: nat ensures !Matches(g, r, pos, e) {
      ImpossibleTail(g, ps, 0, bad, pos, e);
      PartsMean(g, r, pos, e);
    }
  }
}
