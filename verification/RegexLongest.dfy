/** The matcher finds the longest match, whichever of its maybe_pop_jumps are turned into pop_failure_jumps, as long as
    what follows each such loop yields to it. */
module RegexLongest {
  import opened Wrappers
  import opened RegexTree
  import opened RegexParts
  import opened RegexTurns
  import opened RegexReturns

  // ---------- What is left to match ----------

  /** From part i on, control can come from d to the end with text[d..e] used. */
  ghost predicate Tail(g: Input, ps: seq<Part>, i: nat, d: nat, e: nat)
    requires AllParts(ps)
    decreases |ps| - i, 1
  {
    if i >= |ps| then i == |ps| && d == e
    else
      match ps[i]
      case Item(re) => IsItem(re) && ItemTakes(g, re, d) && Tail(g, ps, i + 1, d + Width(re), e)
      case Many(_) => LoopTail(g, ps, i, 0, d, e)
      case Several(_) => LoopTail(g, ps, i, 1, d, e)
      case Dots => LoopTail(g, ps, i, 0, d, e)
      case Maybe(unit) =>
        Tail(g, ps, i + 1, d, e) || (IsUnit(unit) && ItemTakes(g, unit, d) && Tail(g, ps, i + 1, d + 1, e))
      case Fork(over) => Tail(g, ps, i + 1, d, e) || Tail(g, ps, i + 1 + over, d, e)
      case Goto(over) => Tail(g, ps, i + 1 + over, d, e)
      case _ => Tail(g, ps, i + 1, d, e)
  }

  /** At least so many rounds of the loop at i, none or one, then the parts after it. */
  ghost predicate LoopTail(g: Input, ps: seq<Part>, i: nat, least: nat, d: nat, e: nat)
    requires AllParts(ps) && i < |ps| && IsLoop(ps[i])
    decreases |ps| - i, 0
  {
    var body := UnitAt(ps, i);
    var from := if least == 0 then d else d + Span(body);
    (least > 0 ==> Takes(g, body, d)) && exists k: nat :: AllTaken(g, body, from, k) && Tail(g, ps, i + 1, k, e)
  }

  function UnitAt(ps: seq<Part>, i: nat): (unit: Re)
    requires AllParts(ps) && i < |ps| && HasUnit(ps[i])
    ensures IsBody(unit) && Fixed(unit) && (ps[i].Maybe? || ps[i].Dots? ==> IsUnit(unit)) && IsPart(ps[i])
    ensures unit == BodyOf(ps[i])
  {
    assert IsPart(ps[i]);
    BodyOf(ps[i])
  }

  /** What is left to match when control is at x with d characters used. */
  ghost predicate Rest(g: Input, ps: seq<Part>, x: Spot, d: nat, e: nat)
    requires AllParts(ps) && SpotOk(ps, x)
  {
    match x.at
    case Start => Tail(g, ps, x.i, d, e)
    case Head => LoopTail(g, ps, x.i, 0, d, e)
    case Back => LoopTail(g, ps, x.i, 0, d, e)
    case Body =>
      if ps[x.i].Maybe? then ItemTakes(g, UnitAt(ps, x.i), d) && Tail(g, ps, x.i + 1, d + 1, e)
      else LoopTail(g, ps, x.i, if ps[x.i].Dots? then 0 else 1, d, e)
  }

  lemma LoopIntro(g: Input, ps: seq<Part>, i: nat, d: nat, k: nat, e: nat)
    requires AllParts(ps) && i < |ps| && IsLoop(ps[i]) && AllTaken(g, UnitAt(ps, i), d, k) && Tail(g, ps, i + 1, k, e)
    ensures LoopTail(g, ps, i, 0, d, e)
  {
  }

  lemma LoopElim(g: Input, ps: seq<Part>, i: nat, d: nat, e: nat) returns (k: nat)
    requires AllParts(ps) && i < |ps| && IsLoop(ps[i]) && LoopTail(g, ps, i, 0, d, e)
    ensures d <= k <= |g.text| && AllTaken(g, UnitAt(ps, i), d, k) && Tail(g, ps, i + 1, k, e)
  {
    hide Tail, Fixed, Span, Takes;
    k :| AllTaken(g, UnitAt(ps, i), d, k) && Tail(g, ps, i + 1, k, e);
    TakenEnd(g, UnitAt(ps, i), d, k);
  }

  /** One round, and the loop goes on. */
  lemma LoopTake(g: Input, ps: seq<Part>, i: nat, d: nat, e: nat)
    requires AllParts(ps) && i < |ps| && IsLoop(ps[i])
    ensures LoopTail(g, ps, i, 1, d, e) <==>
            Takes(g, UnitAt(ps, i), d) && LoopTail(g, ps, i, 0, d + Span(UnitAt(ps, i)), e)
  {
    hide Tail, Fixed, Span, Takes, AllTaken;
  }

  lemma LoopSplit(g: Input, ps: seq<Part>, i: nat, d: nat, e: nat)
    requires AllParts(ps) && i < |ps| && IsLoop(ps[i]) && LoopTail(g, ps, i, 0, d, e)
    ensures (LoopTail(g, ps, i, 1, d, e) && Span(UnitAt(ps, i)) > 0) || Tail(g, ps, i + 1, d, e)
  {
    hide Tail, Fixed, Span, Takes, LoopTail;
    var k := LoopElim(g, ps, i, d, e);
    if k > d {
      LoopIntro(g, ps, i, d + Span(UnitAt(ps, i)), k, e);
      LoopTake(g, ps, i, d, e);
    }
  }

  lemma {:induction false} TailBounds(g: Input, ps: seq<Part>, i: nat, d: nat, e: nat)
    requires AllParts(ps) && Tail(g, ps, i, d, e)
    ensures d <= e && (d <= |g.text| ==> e <= |g.text|)
    decreases |ps| - i
  {
    hide ItemTakes, LoopTail, Fixed, Span, Takes;
    if i < |ps| {
      match ps[i]
      case Item(re) => { TakesSome(g, re, d); TailBounds(g, ps, i + 1, d + Width(re), e); }
      case Maybe(unit) => {
        if Tail(g, ps, i + 1, d, e) { TailBounds(g, ps, i + 1, d, e); }
        else { TakesOne(g, unit, d); TailBounds(g, ps, i + 1, d + 1, e); }
      }
      case Fork(over) => {
        if Tail(g, ps, i + 1, d, e) {
          TailBounds(g, ps, i + 1, d, e);
        } else {
          TailBounds(g, ps, i + 1 + over, d, e);
        }
      }
      case Goto(over) => TailBounds(g, ps, i + 1 + over, d, e);
      case Mark(_, _) => TailBounds(g, ps, i + 1, d, e);
      case Blank => TailBounds(g, ps, i + 1, d, e);
      case Several(_) => {
        LoopTake(g, ps, i, d, e);
        TakesBounds(g, UnitAt(ps, i), d);
        var k := LoopElim(g, ps, i, d + Span(UnitAt(ps, i)), e);
        TailBounds(g, ps, i + 1, k, e);
      }
      case _ => { var k := LoopElim(g, ps, i, d, e); TailBounds(g, ps, i + 1, k, e); }
    }
  }

  // ---------- What yields to a loop ----------

  predicate Begins(syn: Syntax, item: Re, c: Byte)
    requires IsItem(item)
  {
    if item.Exact? then c == CharOf(item.ts[0]) else Accepts(syn, item, c)
  }

  /** Nothing the unit takes could start the item. */
  predicate Apart(syn: Syntax, unit: Re, item: Re)
    requires IsUnit(unit) && IsItem(item)
  {
    forall c: Byte :: !(Accepts(syn, unit, c) && Begins(syn, item, c))
  }

  /** Nothing the unit takes could start a round of the body. */
  predicate Clear(syn: Syntax, unit: Re, body: Re)
    requires IsUnit(unit) && Fixed(body)
  {
    FirstItem(body).Some? ==> Apart(syn, unit, FirstItem(body).value)
  }

  /** The first item that must match, on every way from part j on, cannot start with a character of the unit. Items that
      may be left out, and loops over one-character items, do not count: what they would take the loop can take in their
      place. Loops over groups count, since a group takes more than its first character. */
  predicate Yields(syn: Syntax, unit: Re, ps: seq<Part>, j: nat)
    requires IsUnit(unit) && AllParts(ps)
    decreases |ps| - j
  {
    if j >= |ps| then true
    else
      match ps[j]
      case Item(re) => IsItem(re) && Apart(syn, unit, re)
      case Several(_) => Clear(syn, unit, UnitAt(ps, j)) && (Span(UnitAt(ps, j)) == 0 ==> Yields(syn, unit, ps, j + 1))
      case Many(_) => (IsUnit(UnitAt(ps, j)) || Clear(syn, unit, UnitAt(ps, j))) && Yields(syn, unit, ps, j + 1)
      case Fork(over) => Yields(syn, unit, ps, j + 1) && Yields(syn, unit, ps, j + 1 + over)
      case Goto(over) => Yields(syn, unit, ps, j + 1 + over)
      case _ => Yields(syn, unit, ps, j + 1)
  }

  /** Nothing but the marks of groups is left. */
  predicate OnlyMarks(ps: seq<Part>, j: nat) { forall m :: j <= m < |ps| ==> ps[m].Mark? }

  lemma {:induction false} MarksTail(g: Input, ps: seq<Part>, j: nat, d: nat, e: nat)
    requires AllParts(ps) && OnlyMarks(ps, j) && j <= |ps|
    ensures Tail(g, ps, j, d, e) <==> d == e
    decreases |ps| - j
  {
    if j < |ps| { MarksTail(g, ps, j + 1, d, e); }
  }

  lemma NotBoth(g: Input, unit: Re, item: Re, d: nat)
    requires IsUnit(unit) && IsItem(item) && Apart(g.syn, unit, item)
    ensures !(ItemTakes(g, unit, d) && ItemTakes(g, item, d))
  {
    if ItemTakes(g, unit, d) && ItemTakes(g, item, d) {
      UnitTakes(g, unit, d);
      assert item.Exact? ==> g.text[d + 0] == CharOf(item.ts[0]);
      assert Begins(g.syn, item, g.text[d]);
    }
  }

  /** What can be completed from d can be completed, no shorter, after the unit has taken the character at d. */
  lemma {:induction false} StillReached(g: Input, unit: Re, ps: seq<Part>, j: nat, d: nat, e: nat) returns (e2: nat)
    requires IsUnit(unit) && AllParts(ps) && Yields(g.syn, unit, ps, j) && ItemTakes(g, unit, d) && Tail(g, ps, j, d, e)
    ensures e2 >= e && Tail(g, ps, j, d + 1, e2)
    decreases |ps| - j, 1
  {
    hide ItemTakes, LoopTail, Apart, Fixed, Span, Takes, Clear;
    if j >= |ps| { return d + 1; }
    match ps[j]
    case Item(re) => { NotBoth(g, unit, re, d); }
    case Several(_) => { e2 := OverPlus(g, unit, ps, j, d, e); }
    case Fork(over) => {
      if Tail(g, ps, j + 1, d, e) { e2 := StillReached(g, unit, ps, j + 1, d, e); }
      else { e2 := StillReached(g, unit, ps, j + 1 + over, d, e); }
    }
    case Goto(over) => { e2 := StillReached(g, unit, ps, j + 1 + over, d, e); }
    case Mark(_, _) => { e2 := StillReached(g, unit, ps, j + 1, d, e); }
    case Blank => { e2 := StillReached(g, unit, ps, j + 1, d, e); }
    case Maybe(_) => {
      if Tail(g, ps, j + 1, d, e) { e2 := StillReached(g, unit, ps, j + 1, d, e); } else { e2 := e; }
    }
    case _ => { e2 := OverStar(g, unit, ps, j, d, e); }
  }

  /** Past a `+': its first round cannot start where the unit takes a character, unless it takes nothing. */
  lemma {:induction false} OverPlus(g: Input, unit: Re, ps: seq<Part>, j: nat, d: nat, e: nat) returns (e2: nat)
    requires IsUnit(unit) && AllParts(ps) && j < |ps| && ps[j].Several? && Yields(g.syn, unit, ps, j)
    requires ItemTakes(g, unit, d) && LoopTail(g, ps, j, 1, d, e)
    ensures e2 >= e && LoopTail(g, ps, j, 1, d + 1, e2)
    decreases |ps| - j, 0
  {
    hide ItemTakes, LoopTail, Apart, Fixed, Span, Takes, Tail;
    var body := UnitAt(ps, j);
    LoopTake(g, ps, j, d, e);
    FirstItemTakes(g, body, d);
    if Span(body) > 0 {
      NotBoth(g, unit, FirstItem(body).value, d);
    } else {
      LoopSplit(g, ps, j, d, e);
      e2 := StillReached(g, unit, ps, j + 1, d, e);
      TakesOne(g, unit, d);
      NothingTakes(g, body, d + 1);
      NoneTaken(g, body, d + 1);
      LoopIntro(g, ps, j, d + 1, d + 1, e2);
      LoopTake(g, ps, j, d + 1, e2);
    }
  }

  /** Past a `*': a round of one character can give it to the unit. */
  lemma {:induction false} OverStar(g: Input, unit: Re, ps: seq<Part>, j: nat, d: nat, e: nat) returns (e2: nat)
    requires IsUnit(unit) && AllParts(ps) && j < |ps| && (ps[j].Many? || ps[j].Dots?) && Yields(g.syn, unit, ps, j)
    requires ItemTakes(g, unit, d) && LoopTail(g, ps, j, 0, d, e)
    ensures e2 >= e && LoopTail(g, ps, j, 0, d + 1, e2)
    decreases |ps| - j, 0
  {
    hide ItemTakes, LoopTail, Apart, Fixed, Span, Takes, Tail;
    var body := UnitAt(ps, j);
    LoopSplit(g, ps, j, d, e);
    if LoopTail(g, ps, j, 1, d, e) && Span(body) > 0 {
      LoopTake(g, ps, j, d, e);
      e2 := e;
      if IsUnit(body) {
        UnitSpan(body);
      } else {
        FirstItemTakes(g, body, d);
        NotBoth(g, unit, FirstItem(body).value, d);
      }
    } else {
      e2 := StillReached(g, unit, ps, j + 1, d, e);
      TakesOne(g, unit, d);
      NoneTaken(g, body, d + 1);
      LoopIntro(g, ps, j, d + 1, d + 1, e2);
    }
  }

  // ---------- Coverage ----------

  /** From x with d characters used, a match at least as long as up to e can be completed. */
  ghost predicate Reaches(k: Course, x: Spot, d: nat, e: nat)
    requires CourseOk(k) && SpotOk(k.ps, x)
  {
    exists e2: nat | e2 >= e :: Rest(k.g, k.ps, x, d, e2)
  }

  lemma ReachesElim(k: Course, x: Spot, d: nat, e: nat) returns (e2: nat)
    requires CourseOk(k) && SpotOk(k.ps, x) && Reaches(k, x, d, e)
    ensures e2 >= e && Rest(k.g, k.ps, x, d, e2)
  {
    e2 :| e2 >= e && Rest(k.g, k.ps, x, d, e2);
  }

  lemma ReachesIntro(k: Course, x: Spot, d: nat, e: nat, e2: nat)
    requires CourseOk(k) && SpotOk(k.ps, x) && e2 >= e && Rest(k.g, k.ps, x, d, e2)
    ensures Reaches(k, x, d, e)
  {
  }

  ghost predicate PointCovers(k: Course, pt: Point, e: nat)
    requires CourseOk(k)
  {
    pt.Resume? && pt.i <= |k.ps| && Reaches(k, Spot(pt.i, Start), pt.d, e)
  }

  ghost predicate StackCovers(k: Course, stack: seq<Point>, e: nat)
    requires CourseOk(k)
  {
    exists j :: 0 <= j < |stack| && PointCovers(k, stack[j], e)
  }

  predicate BestCovers(best: Option<nat>, e: nat) { best.Some? && best.value >= e }

  ghost predicate Wanted(k: Course, e: nat)
    requires CourseOk(k)
  {
    Tail(k.g, k.ps, 0, k.pos, e)
  }

  /** The end of every match is still in reach, or one at least as long has been found. */
  ghost predicate Fine(k: Course, c: Config) {
    && CourseOk(k) && Orderly(k, c)
    && forall e: nat :: Wanted(k, e) ==> BestCovers(c.best, e) || Reaches(k, c.x, c.d, e) || StackCovers(k, c.stack, e)
  }

  /** What is returned is the length of the longest match, or -1 if there is none. */
  ghost predicate Longest(k: Course, n: int)
    requires CourseOk(k)
  {
    forall e: nat :: Wanted(k, e) ==> n >= 0 && e <= k.pos + n
  }

  ghost predicate FineTurned(k: Course, t: Turned)
    requires CourseOk(k)
  {
    match t
    case On(c) => Fine(k, c)
    case Done(n) => Longest(k, n)
  }

  lemma StackRest(k: Course, stack: seq<Point>, e: nat)
    requires CourseOk(k) && stack != [] && StackCovers(k, stack, e)
    ensures PointCovers(k, stack[|stack| - 1], e) || StackCovers(k, stack[..|stack| - 1], e)
  {
    hide PointCovers, CourseOk;
    var j :| 0 <= j < |stack| && PointCovers(k, stack[j], e);
    if j < |stack| - 1 { assert PointCovers(k, stack[..|stack| - 1][j], e); }
  }

  lemma StackMore(k: Course, stack: seq<Point>, pt: Point, e: nat)
    requires CourseOk(k) && (StackCovers(k, stack, e) || PointCovers(k, pt, e))
    ensures StackCovers(k, stack + [pt], e)
  {
    hide PointCovers, CourseOk;
    if StackCovers(k, stack, e) {
      var j :| 0 <= j < |stack| && PointCovers(k, stack[j], e);
      assert PointCovers(k, (stack + [pt])[j], e);
    } else {
      assert (stack + [pt])[|stack|] == pt;
    }
  }

  // ---------- Turns ----------

  /** Going back to a failure point loses nothing, if nothing was in reach without it. */
  lemma {:induction false} RetreatFine(k: Course, c: Config)
    requires CourseOk(k) && InText(k, c) && Plain(k, c.stack)
    requires forall e: nat :: Wanted(k, e) ==> BestCovers(c.best, e) || StackCovers(k, c.stack, e)
    ensures FineTurned(k, Retreat(k, c))
    decreases |c.stack|
  {
    hide Wanted, Reaches, StackCovers, CourseOk, Plain;
    RetreatOrderly(k, c);
    if c.stack == [] {
      forall e: nat | Wanted(k, e) ensures BestCovers(c.best, e) { EmptyCovers(k, e); }
    } else {
      var rest, pt := c.stack[..|c.stack| - 1], c.stack[|c.stack| - 1];
      PlainLess(k, c.stack);
      forall e: nat | Wanted(k, e) ensures BestCovers(c.best, e) || StackCovers(k, rest, e) || PointCovers(k, pt, e) {
        if !BestCovers(c.best, e) { StackRest(k, c.stack, e); }
      }
      if pt == Nowhere { RetreatFine(k, c.(stack := rest)); }
    }
  }

  lemma EmptyCovers(k: Course, e: nat)
    requires CourseOk(k)
    ensures !StackCovers(k, [], e)
  {
  }

  /** A turn that goes on with the same failure points. */
  lemma MovesOn(k: Course, c: Config, c2: Config)
    requires Fine(k, c) && Orderly(k, c2) && c2.stack == c.stack && c2.best == c.best
    requires forall e: nat :: Reaches(k, c.x, c.d, e) ==> Reaches(k, c2.x, c2.d, e)
    ensures Fine(k, c2)
  {
    hide Wanted, Reaches, StackCovers, CourseOk, TopOk;
  }

  /** A turn that pushes a failure point. */
  lemma Pushes(k: Course, c: Config, c2: Config, pt: Point)
    requires Fine(k, c) && Orderly(k, c2) && c2.stack == c.stack + [pt] && c2.best == c.best
    requires forall e: nat :: Reaches(k, c.x, c.d, e) ==> Reaches(k, c2.x, c2.d, e) || PointCovers(k, pt, e)
    ensures Fine(k, c2)
  {
    hide Wanted, Reaches, StackCovers, PointCovers, CourseOk, TopOk;
    forall e: nat | Wanted(k, e)
      ensures BestCovers(c2.best, e) || Reaches(k, c2.x, c2.d, e) || StackCovers(k, c2.stack, e)
    {
      if StackCovers(k, c.stack, e) || PointCovers(k, pt, e) { StackMore(k, c.stack, pt, e); }
    }
  }

  /** Nothing can be completed from here. */
  lemma DeadEnd(k: Course, c: Config)
    requires Fine(k, c) && Plain(k, c.stack)
    requires forall e: nat :: !Rest(k.g, k.ps, c.x, c.d, e)
    ensures FineTurned(k, Retreat(k, c))
  {
    hide Wanted, Rest, StackCovers, CourseOk, TopOk, Plain;
    RetreatFine(k, c);
  }

  lemma StartFine(k: Course, c: Config)
    requires Fine(k, c) && c.x.i < |k.ps| && c.x.at == Start
    ensures FineTurned(k, Turn(k, c))
  {
    hide Fine, Tail, LoopTail, ItemTakes, Fixed, Span, Takes, Retreat, Plain;
    FineIs(k, c);
    TurnOrderly(k, c);
    var g, ps, i, d := k.g, k.ps, c.x.i, c.d;
    assert IsPart(ps[i]) && Reaching(ps, i);
    match ps[i]
    case Item(re) =>
      if !ItemTakes(g, re, d) {
        forall e: nat ensures !Rest(g, ps, c.x, d, e) { TailIs(g, ps, i, d, e); }
        DeadEnd(k, c);
      } else {
        forall e: nat | Reaches(k, c.x, d, e) ensures Reaches(k, Spot(i + 1, Start), d + Width(re), e) {
          var e2 := ReachesElim(k, c.x, d, e);
          TailIs(g, ps, i, d, e2);
          ReachesIntro(k, Spot(i + 1, Start), d + Width(re), e, e2);
        }
        MovesOn(k, c, Turn(k, c).c);
      }
    case Goto(over) => StepFine(k, c, Spot(i + 1 + over, Start));
    case Mark(_, _) => StepFine(k, c, Spot(i + 1, Start));
    case Blank => ForkFine(k, c, Spot(i + 1, Start), Nowhere);
    case Fork(over) => ForkFine(k, c, Spot(i + 1, Start), Resume(i + 1 + over, d));
    case Many(_) => ForkFine(k, c, Spot(i, Body), Resume(i + 1, d));
    case Maybe(_) => ForkFine(k, c, Spot(i, Body), Resume(i + 1, d));
    case Several(_) => ForkFine(k, c, Spot(i, Body), Nowhere);
    case Dots => ForkFine(k, c, Spot(i, Body), Kept(i + 1));
  }

  lemma FineIs(k: Course, c: Config)
    requires Fine(k, c)
    ensures CourseOk(k) && Orderly(k, c)
  {
  }

  lemma TailIs(g: Input, ps: seq<Part>, i: nat, d: nat, e: nat)
    requires AllParts(ps) && i < |ps|
    ensures IsPart(ps[i])
    ensures Tail(g, ps, i, d, e) ==
      match ps[i]
      case Item(re) => ItemTakes(g, re, d) && Tail(g, ps, i + 1, d + Width(re), e)
      case Many(_) => LoopTail(g, ps, i, 0, d, e)
      case Several(_) => LoopTail(g, ps, i, 1, d, e)
      case Dots => LoopTail(g, ps, i, 0, d, e)
      case Maybe(unit) => Tail(g, ps, i + 1, d, e) || (ItemTakes(g, unit, d) && Tail(g, ps, i + 1, d + 1, e))
      case Fork(over) => Tail(g, ps, i + 1, d, e) || Tail(g, ps, i + 1 + over, d, e)
      case Goto(over) => Tail(g, ps, i + 1 + over, d, e)
      case _ => Tail(g, ps, i + 1, d, e)
  {
    hide ItemTakes, LoopTail;
  }

  /** Over a jump or a group's mark. */
  lemma StepFine(k: Course, c: Config, x: Spot)
    requires Fine(k, c) && c.x.i < |k.ps| && c.x.at == Start && (k.ps[c.x.i].Goto? || k.ps[c.x.i].Mark?)
    requires SpotOk(k.ps, x) && Turn(k, c) == On(c.(x := x))
    ensures FineTurned(k, Turn(k, c))
  {
    hide Fine, Tail, LoopTail, ItemTakes, Fixed, Span, Takes, Plain, Turn;
    FineIs(k, c);
    TurnOrderly(k, c);
    TurnIs(k, c);
    forall e: nat | Reaches(k, c.x, c.d, e) ensures Reaches(k, x, c.d, e) {
      var e2 := ReachesElim(k, c.x, c.d, e);
      TailIs(k.g, k.ps, c.x.i, c.d, e2);
      ReachesIntro(k, x, c.d, e, e2);
    }
    MovesOn(k, c, c.(x := x));
  }

  lemma TurnIs(k: Course, c: Config)
    requires CourseOk(k) && SpotOk(k.ps, c.x) && c.x.i < |k.ps| && c.x.at == Start
    ensures Turn(k, c) == TurnStart(k, c)
  {
    hide TurnStart;
  }

  /** Where a fork goes on, and the failure point it leaves. */
  function Ways(k: Course, c: Config): (Spot, Point)
    requires CourseOk(k) && SpotOk(k.ps, c.x) && c.x.i < |k.ps|
  {
    var i := c.x.i;
    if c.x.at == Head then (Spot(i, Body), Resume(i + 1, c.d))
    else
      match k.ps[i]
      case Many(_) => (Spot(i, Body), Resume(i + 1, c.d))
      case Maybe(_) => (Spot(i, Body), Resume(i + 1, c.d))
      case Several(_) => (Spot(i, Body), Nowhere)
      case Dots => (Spot(i, Body), Kept(i + 1))
      case Fork(over) => (Spot(i + 1, Start), Resume(i + 1 + over, c.d))
      case _ => (Spot(i + 1, Start), Nowhere)
  }

  lemma ForkFine(k: Course, c: Config, x: Spot, pt: Point)
    requires Fine(k, c) && c.x.i < |k.ps| && SpotOk(k.ps, x) && Turn(k, c) == Pushed(c, x, pt)
    requires if c.x.at == Start then !k.ps[c.x.i].Item? && !k.ps[c.x.i].Goto? && !k.ps[c.x.i].Mark? else c.x.at == Head
    requires (x, pt) == Ways(k, c)
    ensures FineTurned(k, Turn(k, c))
  {
    hide Fine, Tail, LoopTail, ItemTakes, Fixed, Span, Takes, Plain;
    FineIs(k, c);
    TurnOrderly(k, c);
    forall e: nat | Reaches(k, c.x, c.d, e) ensures Reaches(k, x, c.d, e) || PointCovers(k, pt, e) {
      ForkReaches(k, c, x, pt, e);
    }
    Pushes(k, c, c.(x := x, stack := c.stack + [pt]), pt);
  }

  /** What is left at a fork is left on one of its two ways. */
  lemma ForkReaches(k: Course, c: Config, x: Spot, pt: Point, e: nat)
    requires CourseOk(k) && Orderly(k, c) && c.x.i < |k.ps| && SpotOk(k.ps, x)
    requires if c.x.at == Start then !k.ps[c.x.i].Item? && !k.ps[c.x.i].Goto? && !k.ps[c.x.i].Mark? else c.x.at == Head
    requires (x, pt) == Ways(k, c)
    requires Reaches(k, c.x, c.d, e)
    ensures Reaches(k, x, c.d, e) || PointCovers(k, pt, e)
  {
    hide Tail, LoopTail, ItemTakes, Fixed, Span, Takes, Plain, TopOk;
    var g, ps, i, d := k.g, k.ps, c.x.i, c.d;
    assert IsPart(ps[i]) && Reaching(ps, i);
    var e2 := ReachesElim(k, c.x, d, e);
    TailIs(g, ps, i, d, e2);
    if ps[i].Many? || c.x.at == Head { LoopSplit(g, ps, i, d, e2); }
    if Rest(g, ps, x, d, e2) {
      ReachesIntro(k, x, d, e, e2);
    } else {
      assert pt.Resume? && Rest(g, ps, Spot(pt.i, Start), d, e2);
      ReachesIntro(k, Spot(pt.i, Start), d, e, e2);
    }
  }

  lemma BodyFine(k: Course, c: Config)
    requires Fine(k, c) && Sensible(k) && c.x.at == Body
    ensures FineTurned(k, Turn(k, c))
  {
    hide Fine, Tail, LoopTail, ItemTakes, Fixed, Span, Takes, Retreat, Plain, Yields;
    FineIs(k, c);
    TurnOrderly(k, c);
    var g, ps, i, d := k.g, k.ps, c.x.i, c.d;
    var p, body := ps[i], UnitAt(ps, i);
    if Takes(g, body, d) {
      BehindOk(ps, i);
      forall e: nat | Reaches(k, c.x, d, e) ensures Reaches(k, Behind(ps, i), d + Span(body), e) {
        TakenReaches(k, c, e);
      }
      MovesOn(k, c, Turn(k, c).c);
    } else if p.Dots? {
      UnitTakesOne(g, body, d);
      LeaveFine(k, c);
    } else {
      forall e: nat ensures !Rest(g, ps, c.x, d, e) {
        if Rest(g, ps, c.x, d, e) { LoopOrMaybe(g, ps, i, d, e); }
      }
      DeadEnd(k, c);
    }
  }

  lemma LoopOrMaybe(g: Input, ps: seq<Part>, i: nat, d: nat, e: nat)
    requires AllParts(ps) && SpotOk(ps, Spot(i, Body)) && !ps[i].Dots? && Rest(g, ps, Spot(i, Body), d, e)
    ensures Takes(g, UnitAt(ps, i), d)
  {
    hide Tail, LoopTail, ItemTakes, Fixed, Span, Takes;
    if ps[i].Maybe? { UnitTakesOne(g, UnitAt(ps, i), d); } else { LoopTake(g, ps, i, d, e); }
  }

  /** What was left before the operand has been taken is left after it. */
  lemma TakenReaches(k: Course, c: Config, e: nat)
    requires CourseOk(k) && Sensible(k) && SpotOk(k.ps, c.x) && c.x.at == Body && Reaches(k, c.x, c.d, e)
    requires Takes(k.g, UnitAt(k.ps, c.x.i), c.d)
    ensures SpotOk(k.ps, Behind(k.ps, c.x.i))
    ensures Reaches(k, Behind(k.ps, c.x.i), c.d + Span(UnitAt(k.ps, c.x.i)), e)
  {
    hide Tail, LoopTail, ItemTakes, Fixed, Span, Takes, Yields;
    var g, ps, i, d := k.g, k.ps, c.x.i, c.d;
    var body := UnitAt(ps, i);
    BehindOk(ps, i);
    var e2 := ReachesElim(k, c.x, d, e);
    if ps[i].Maybe? {
      UnitTakesOne(g, body, d);
    } else if ps[i].Dots? {
      UnitTakesOne(g, body, d);
      e2 := DotsTake(k, i, d, e2);
    } else {
      LoopTake(g, ps, i, d, e2);
      if Span(body) == 0 { LoopSplit(g, ps, i, d, e2); }
    }
    ReachesIntro(k, Behind(ps, i), d + Span(body), e, e2);
  }

  /** The loop at i takes nothing that something after it needs. */
  predicate Spares(syn: Syntax, ps: seq<Part>, i: nat)
    requires AllParts(ps) && i < |ps| && HasUnit(ps[i])
  {
    if IsUnit(UnitAt(ps, i)) then Yields(syn, UnitAt(ps, i), ps, i + 1) else OnlyMarks(ps, i + 1)
  }

  /** No loop whose failure points are thrown away takes what something after it needs; one over a group has them thrown
      away only where nothing is left. */
  predicate Sensible(k: Course)
    requires CourseOk(k)
  {
    forall i :: 0 <= i < |k.ps| && IsLoop(k.ps[i]) && (k.ps[i].Dots? || k.pops[i]) ==>
      Spares(k.g.syn, k.ps, i)
  }

  /** `.' in a `.*\n' loop loses nothing by taking all it can. */
  lemma DotsTake(k: Course, i: nat, d: nat, e: nat) returns (e2: nat)
    requires CourseOk(k) && Sensible(k) && i < |k.ps| && k.ps[i].Dots?
    requires ItemTakes(k.g, UnitAt(k.ps, i), d) && LoopTail(k.g, k.ps, i, 0, d, e)
    ensures e2 >= e && LoopTail(k.g, k.ps, i, 0, d + 1, e2)
  {
    hide Tail, LoopTail, ItemTakes, Fixed, Span, Takes, Yields;
    UnitSpan(UnitAt(k.ps, i));
    LoopSplit(k.g, k.ps, i, d, e);
    if LoopTail(k.g, k.ps, i, 1, d, e) {
      LoopTake(k.g, k.ps, i, d, e);
      e2 := e;
    } else {
      e2 := StillReached(k.g, UnitAt(k.ps, i), k.ps, i + 1, d, e);
      TakesOne(k.g, UnitAt(k.ps, i), d);
      NoneTaken(k.g, UnitAt(k.ps, i), d + 1);
      LoopIntro(k.g, k.ps, i, d + 1, d + 1, e2);
    }
  }

  /** When `.' fails, the loop is left where the text is. */
  lemma LeaveFine(k: Course, c: Config)
    requires Fine(k, c) && c.x.at == Body && k.ps[c.x.i].Dots? && !ItemTakes(k.g, UnitAt(k.ps, c.x.i), c.d)
    ensures FineTurned(k, Retreat(k, c))
  {
    hide Tail, LoopTail, ItemTakes, Fixed, Span, Takes, Plain, StackCovers, Wanted;
    UnitTakesOne(k.g, UnitAt(k.ps, c.x.i), c.d);
    var i, d := c.x.i, c.d;
    var rest, x2 := c.stack[..|c.stack| - 1], Spot(i + 1, Start);
    RetreatOrderly(k, c);
    var c2 := Config(x2, d, rest, c.best);
    assert Retreat(k, c) == On(c2);
    forall e: nat | Wanted(k, e) ensures BestCovers(c2.best, e) || Reaches(k, x2, d, e) || StackCovers(k, rest, e) {
      if Reaches(k, c.x, d, e) {
        var e2 := ReachesElim(k, c.x, d, e);
        LoopSplit(k.g, k.ps, i, d, e2);
        if LoopTail(k.g, k.ps, i, 1, d, e2) { LoopTake(k.g, k.ps, i, d, e2); }
        ReachesIntro(k, x2, d, e, e2);
      } else if StackCovers(k, c.stack, e) {
        StackRest(k, c.stack, e);
      }
    }
  }

  /** The end of a loop. Popping the way out loses nothing when what follows yields to the loop. */
  lemma BackFine(k: Course, c: Config)
    requires Fine(k, c) && Sensible(k) && c.x.at == Back
    ensures FineTurned(k, Turn(k, c))
  {
    hide Fine, Tail, LoopTail, ItemTakes, Fixed, Span, Takes, Plain, Yields;
    FineIs(k, c);
    TurnOrderly(k, c);
    var g, ps, i, d := k.g, k.ps, c.x.i, c.d;
    var c2 := Turn(k, c).c;
    forall e: nat | Reaches(k, c.x, d, e) ensures Reaches(k, c2.x, d, e) {
      var e2 := ReachesElim(k, c.x, d, e);
      TailIs(g, ps, i, d, e2);
      ReachesIntro(k, c2.x, d, e, e2);
    }
    if !ps[i].Dots? && k.pops[i] {
      PopFine(k, c, c2);
    } else {
      MovesOn(k, c, c2);
    }
  }

  lemma PopFine(k: Course, c: Config, c2: Config)
    requires Fine(k, c) && Sensible(k) && c.x.at == Back && !k.ps[c.x.i].Dots? && k.pops[c.x.i] && Orderly(k, c2)
    requires c2.stack == c.stack[..|c.stack| - 1] && c2.d == c.d && c2.best == c.best
    requires c2.x == Spot(c.x.i, if k.ps[c.x.i].Several? then Head else Start)
    requires forall e: nat :: Reaches(k, c.x, c.d, e) ==> Reaches(k, c2.x, c.d, e)
    ensures Fine(k, c2)
  {
    hide Tail, LoopTail, ItemTakes, Fixed, Span, Takes, Plain, Yields, Wanted, StackCovers, PointCovers, Reaches;
    var pt := c.stack[|c.stack| - 1];
    forall e: nat | Wanted(k, e)
      ensures BestCovers(c2.best, e) || Reaches(k, c2.x, c2.d, e) || StackCovers(k, c2.stack, e)
    {
      if StackCovers(k, c.stack, e) {
        StackRest(k, c.stack, e);
        if PointCovers(k, pt, e) { LostNothing(k, c, pt, e); }
      }
    }
  }

  lemma LostNothing(k: Course, c: Config, pt: Point, e: nat)
    requires CourseOk(k) && Orderly(k, c) && Sensible(k) && c.x.at == Back && !k.ps[c.x.i].Dots? && k.pops[c.x.i]
    requires WayOut(c.x.i, pt, c.d - Span(UnitAt(k.ps, c.x.i))) && PointCovers(k, pt, e)
    ensures Reaches(k, c.x, c.d, e)
  {
    hide Tail, LoopTail, ItemTakes, Fixed, Span, Takes, Plain, Yields, OnlyMarks;
    var i, d, body := c.x.i, c.d, UnitAt(k.ps, c.x.i);
    var e2 := ReachesElim(k, Spot(pt.i, Start), d - Span(body), e);
    var e3 := d;
    if IsUnit(body) {
      UnitTakesOne(k.g, body, d - 1);
      e3 := StillReached(k.g, body, k.ps, i + 1, d - 1, e2);
    } else {
      MarksTail(k.g, k.ps, i + 1, d - Span(body), e2);
      MarksTail(k.g, k.ps, i + 1, d, d);
    }
    NoneTaken(k.g, body, d);
    LoopIntro(k.g, k.ps, i, d, d, e3);
    ReachesIntro(k, c.x, d, e, e3);
  }

  lemma NoneTaken(g: Input, body: Re, d: nat)
    requires IsBody(body) && d <= |g.text|
    ensures AllTaken(g, body, d, d)
  {
    hide Fixed, Span, Takes;
  }

  /** At the end of the pattern. */
  lemma EndFine(k: Course, c: Config)
    requires Fine(k, c) && c.x.i == |k.ps|
    ensures FineTurned(k, Turn(k, c))
  {
    hide StackCovers, Plain, Retreat, LoopTail;
    assert c.x == Spot(|k.ps|, Start);
    forall e: nat | Wanted(k, e) ensures k.pos <= e <= |k.g.text| { TailBounds(k.g, k.ps, 0, k.pos, e); }
    forall e: nat | Reaches(k, c.x, c.d, e) ensures e <= c.d { var e2 := ReachesElim(k, c.x, c.d, e); }
    if c.d != |k.g.text| && c.stack != [] {
      RetreatFine(k, c.(best := Better(c.best, c.d)));
    } else {
      forall e: nat | Wanted(k, e) && c.stack == [] ensures !StackCovers(k, c.stack, e) { EmptyCovers(k, e); }
    }
  }

  lemma TurnFine(k: Course, c: Config)
    requires Fine(k, c) && Sensible(k)
    ensures FineTurned(k, Turn(k, c))
  {
    hide Fine, FineTurned, Sensible, TopOk;
    FineIs(k, c);
    if c.x.i == |k.ps| { EndFine(k, c); }
    else {
      match c.x.at
      case Start => StartFine(k, c);
      case Head => ForkFine(k, c, Spot(c.x.i, Body), Resume(c.x.i + 1, c.d));
      case Body => BodyFine(k, c);
      case Back => BackFine(k, c);
    }
  }

  lemma {:induction false} TurnsFine(k: Course, c: Config, n: nat)
    requires Fine(k, c) && Sensible(k)
    ensures CourseOk(k) && Orderly(k, c) && FineTurned(k, Turns(k, c, n))
    decreases n
  {
    hide Fine, Sensible, Turn, TopOk, Longest;
    FineIs(k, c);
    if n > 0 {
      TurnFine(k, c);
      TurnOrderly(k, c);
      var t := Turn(k, c);
      if t.On? { TurnsFine(k, t.c, n - 1); }
    }
  }

  lemma FirstFine(k: Course)
    requires CourseOk(k) && Orderly(k, First(k))
    ensures Fine(k, First(k))
  {
    hide Tail;
    forall e: nat | Wanted(k, e) ensures Reaches(k, First(k).x, First(k).d, e) {
      assert Rest(k.g, k.ps, First(k).x, k.pos, e);
    }
  }
}
