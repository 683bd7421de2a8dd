/** The matcher on a pattern taken apart: a small machine that knows neither addresses nor registers, and takes one turn
    for each round of the matching loop on the pattern's code. */
module RegexTurns {
  import opened Wrappers
  import opened RegexTree
  import opened RegexCode
  import opened RegexMachine
  import opened RegexParts

  /** Start is a part's first address (or the end); Head is the on_failure_jump of a `+'; Body is a repetition's operand
      and Back the jump after it. */
  datatype Place = Start | Head | Body | Back

  datatype Spot = Spot(i: nat, at: Place)

  /** A failure point: a dummy, a part to resume at with so many characters used, or one to resume at where the text
      is. */
  datatype Point = Nowhere | Resume(i: nat, d: nat) | Kept(i: nat)

  datatype Config = Config(x: Spot, d: nat, stack: seq<Point>, best: Option<nat>)

  datatype Turned = On(c: Config) | Done(n: int)

  /** What is fixed during a match; pops says which loops end in a pop_failure_jump. */
  datatype Course = Course(g: Input, pos: nat, ps: seq<Part>, pops: seq<bool>)

  predicate Reaching(ps: seq<Part>, i: nat)
    requires i < |ps|
  {
    match ps[i]
    case Fork(over) => i + 1 + over <= |ps|
    case Goto(over) => i + 1 + over <= |ps|
    case _ => true
  }

  predicate CourseOk(k: Course) {
    && AllParts(k.ps) && |k.pops| == |k.ps| && k.pos <= |k.g.text|
    && forall i :: 0 <= i < |k.ps| ==> Reaching(k.ps, i)
  }

  predicate SpotOk(ps: seq<Part>, x: Spot) {
    && x.i <= |ps|
    && (x.at != Start ==> x.i < |ps| && IsPart(ps[x.i]) && HasUnit(ps[x.i]))
    && (x.at == Head ==> ps[x.i].Several?)
    && (x.at == Back ==> IsLoop(ps[x.i]))
  }

  // ---------- One turn ----------

  /** Back to the latest failure point that is not a dummy. */
  function Retreat(k: Course, c: Config): Turned
    decreases |c.stack|
  {
    if c.stack == [] then Done(if c.best.Some? then c.best.value - k.pos else -1)
    else
      var rest := c.stack[..|c.stack| - 1];
      match c.stack[|c.stack| - 1]
      case Nowhere => Retreat(k, c.(stack := rest))
      case Resume(i, d) => On(Config(Spot(i, Start), d, rest, c.best))
      case Kept(i) => On(Config(Spot(i, Start), c.d, rest, c.best))
  }

  function Better(best: Option<nat>, d: nat): Option<nat> {
    if best.None? || d > best.value then Some(d) else best
  }

  /** At the end of the pattern a longer match is looked for as long as there are failure points. */
  function AtEnd(k: Course, c: Config): Turned {
    if c.d != |k.g.text| && c.stack != [] then Retreat(k, c.(best := Better(c.best, c.d)))
    else if c.d != |k.g.text| && c.best.Some? && c.d <= c.best.value then Done(c.best.value - k.pos)
    else Done(c.d - k.pos)
  }

  function Pushed(c: Config, x: Spot, pt: Point): Turned {
    On(c.(x := x, stack := c.stack + [pt]))
  }

  function Turn(k: Course, c: Config): Turned
    requires CourseOk(k) && SpotOk(k.ps, c.x)
  {
    if c.x.i == |k.ps| then AtEnd(k, c)
    else
      match c.x.at
      case Start => TurnStart(k, c)
      case Head => Pushed(c, Spot(c.x.i, Body), Resume(c.x.i + 1, c.d))
      case Body => TurnBody(k, c)
      case Back => TurnBack(k, c)
  }

  function TurnStart(k: Course, c: Config): Turned
    requires CourseOk(k) && c.x.i < |k.ps|
  {
    var i := c.x.i;
    match k.ps[i]
    case Item(re) =>
      if ItemTakes(k.g, re, c.d) then On(c.(x := Spot(i + 1, Start), d := c.d + Width(re))) else Retreat(k, c)
    case Many(_) => Pushed(c, Spot(i, Body), Resume(i + 1, c.d))
    case Maybe(_) => Pushed(c, Spot(i, Body), Resume(i + 1, c.d))
    case Several(_) => Pushed(c, Spot(i, Body), Nowhere)
    case Dots => Pushed(c, Spot(i, Body), Kept(i + 1))
    case Fork(over) => Pushed(c, Spot(i + 1, Start), Resume(i + 1 + over, c.d))
    case Goto(over) => On(c.(x := Spot(i + 1 + over, Start)))
    case Mark(_, _) => On(c.(x := Spot(i + 1, Start)))
    case Blank => Pushed(c, Spot(i + 1, Start), Nowhere)
  }

  /** Where control goes when the operand at i has been taken: to the end of its loop, or out of it if it takes
      nothing. */
  function Behind(ps: seq<Part>, i: nat): Spot
    requires i < |ps| && IsPart(ps[i]) && HasUnit(ps[i])
  {
    if ps[i].Maybe? || Span(BodyOf(ps[i])) == 0 then Spot(i + 1, Start) else Spot(i, Back)
  }

  lemma BehindOk(ps: seq<Part>, i: nat)
    requires SpotOk(ps, Spot(i, Body))
    ensures SpotOk(ps, Behind(ps, i))
    ensures Behind(ps, i).i > i || Span(BodyOf(ps[i])) > 0
  {
    hide Fixed, Span;
    if ps[i].Dots? { UnitSpan(AnyChar); }
  }

  function TurnBody(k: Course, c: Config): Turned
    requires CourseOk(k) && SpotOk(k.ps, c.x) && c.x.at == Body
  {
    var body := BodyOf(k.ps[c.x.i]);
    if Takes(k.g, body, c.d) then On(c.(x := Behind(k.ps, c.x.i), d := c.d + Span(body))) else Retreat(k, c)
  }

  function TurnBack(k: Course, c: Config): Turned
    requires CourseOk(k) && SpotOk(k.ps, c.x) && c.x.at == Back
  {
    var p := k.ps[c.x.i];
    if p.Dots? then On(c.(x := Spot(c.x.i, Body)))
    else On(c.(x := Spot(c.x.i, if p.Several? then Head else Start),
               stack := if k.pops[c.x.i] && c.stack != [] then c.stack[..|c.stack| - 1] else c.stack))
  }

  // ---------- What every turn keeps ----------

  predicate PointOk(k: Course, pt: Point) {
    match pt
    case Nowhere => true
    case Resume(i, d) => i <= |k.ps| && k.pos <= d <= |k.g.text|
    case Kept(_) => false
  }

  predicate Plain(k: Course, stack: seq<Point>) {
    forall j :: 0 <= j < |stack| ==> PointOk(k, stack[j])
  }

  predicate InDots(ps: seq<Part>, x: Spot) {
    (x.at == Body || x.at == Back) && x.i < |ps| && ps[x.i].Dots?
  }

  /** Inside a `*' or `+' the latest failure point is a dummy or the way out from d. */
  predicate WayOut(i: nat, pt: Point, d: int) {
    pt == Nowhere || (pt.Resume? && pt.i == i + 1 && pt.d == d)
  }

  predicate TopOk(k: Course, c: Config)
    requires SpotOk(k.ps, c.x)
  {
    if InDots(k.ps, c.x) then
      c.stack != [] && c.stack[|c.stack| - 1] == Kept(c.x.i + 1) && Plain(k, c.stack[..|c.stack| - 1])
    else
      && Plain(k, c.stack)
      && (c.x.at == Body && IsLoop(k.ps[c.x.i]) ==> c.stack != [] && WayOut(c.x.i, c.stack[|c.stack| - 1], c.d))
      && (c.x.at == Back ==>
            && c.stack != [] && WayOut(c.x.i, c.stack[|c.stack| - 1], c.d - Span(BodyOf(k.ps[c.x.i])))
            && Span(BodyOf(k.ps[c.x.i])) > 0 && c.d >= Span(BodyOf(k.ps[c.x.i]))
            && Takes(k.g, BodyOf(k.ps[c.x.i]), c.d - Span(BodyOf(k.ps[c.x.i]))))
  }

  predicate InText(k: Course, c: Config) {
    k.pos <= c.d <= |k.g.text| && (c.best.Some? ==> k.pos <= c.best.value <= |k.g.text|)
  }

  predicate Orderly(k: Course, c: Config) {
    SpotOk(k.ps, c.x) && InText(k, c) && TopOk(k, c)
  }

  lemma PlainMore(k: Course, stack: seq<Point>, pt: Point)
    ensures Plain(k, stack + [pt]) <==> Plain(k, stack) && PointOk(k, pt)
  {
    if Plain(k, stack + [pt]) {
      assert (stack + [pt])[|stack|] == pt;
      forall j | 0 <= j < |stack| ensures PointOk(k, stack[j]) { assert (stack + [pt])[j] == stack[j]; }
    }
  }

  lemma PlainLess(k: Course, stack: seq<Point>)
    requires Plain(k, stack) && stack != []
    ensures Plain(k, stack[..|stack| - 1]) && PointOk(k, stack[|stack| - 1])
  {
  }

  /** Resuming is in order, from a plain stack or from the kept place of a `.*\n' loop. */
  lemma {:induction false} RetreatOrderly(k: Course, c: Config)
    requires InText(k, c)
    requires Plain(k, c.stack)
          || (c.stack != [] && c.stack[|c.stack| - 1].Kept? && c.stack[|c.stack| - 1].i <= |k.ps|
              && Plain(k, c.stack[..|c.stack| - 1]))
    ensures var t := Retreat(k, c); if t.On? then Orderly(k, t.c) else -1 <= t.n <= |k.g.text| - k.pos
    decreases |c.stack|
  {
    if c.stack != [] && c.stack[|c.stack| - 1] == Nowhere { RetreatOrderly(k, c.(stack := c.stack[..|c.stack| - 1])); }
  }

  lemma TurnOrderly(k: Course, c: Config)
    requires CourseOk(k) && Orderly(k, c)
    ensures var t := Turn(k, c); if t.On? then Orderly(k, t.c) else -1 <= t.n <= |k.g.text| - k.pos
  {
    hide Retreat, ItemTakes, Plain, TurnStart, TurnBody, TurnBack;
    if c.x.i == |k.ps| { RetreatOrderly(k, c.(best := Better(c.best, c.d))); }
    else {
      match c.x.at
      case Start => StartOrderly(k, c);
      case Head => PlainMore(k, c.stack, Resume(c.x.i + 1, c.d));
      case Body => BodyOrderly(k, c);
      case Back => BackOrderly(k, c);
    }
  }

  lemma StartOrderly(k: Course, c: Config)
    requires CourseOk(k) && Orderly(k, c) && c.x.i < |k.ps| && c.x.at == Start
    ensures var t := TurnStart(k, c); if t.On? then Orderly(k, t.c) else -1 <= t.n <= |k.g.text| - k.pos
  {
    hide Retreat, ItemTakes, Plain, Accepts;
    var i := c.x.i;
    assert Reaching(k.ps, i) && IsPart(k.ps[i]);
    match k.ps[i]
    case Item(re) => { TakesSome(k.g, re, c.d); RetreatOrderly(k, c); }
    case Fork(over) => PlainMore(k, c.stack, Resume(i + 1 + over, c.d));
    case Goto(_) =>
    case Mark(_, _) =>
    case Blank => PlainMore(k, c.stack, Nowhere);
    case Many(_) => PlainMore(k, c.stack, Resume(i + 1, c.d));
    case Maybe(_) => PlainMore(k, c.stack, Resume(i + 1, c.d));
    case Several(_) => PlainMore(k, c.stack, Nowhere);
    case Dots => assert (c.stack + [Kept(i + 1)])[..|c.stack|] == c.stack;
  }

  lemma BodyOrderly(k: Course, c: Config)
    requires CourseOk(k) && Orderly(k, c) && c.x.at == Body
    ensures var t := TurnBody(k, c); if t.On? then Orderly(k, t.c) else -1 <= t.n <= |k.g.text| - k.pos
  {
    hide Retreat, Takes, Span, Fixed, Plain;
    var body := BodyOf(k.ps[c.x.i]);
    RetreatOrderly(k, c);
    if Takes(k.g, body, c.d) { TakesBounds(k.g, body, c.d); }
    if k.ps[c.x.i].Dots? { UnitTakesOne(k.g, body, c.d); }
  }

  lemma BackOrderly(k: Course, c: Config)
    requires CourseOk(k) && Orderly(k, c) && c.x.at == Back
    ensures var t := TurnBack(k, c); t.On? && Orderly(k, t.c)
  {
    hide Takes, Span, Fixed, Plain;
    if !k.ps[c.x.i].Dots? { PlainLess(k, c.stack); }
  }

  lemma TakesOne(g: Input, unit: Re, d: nat)
    requires IsUnit(unit) && ItemTakes(g, unit, d)
    ensures d + 1 <= |g.text|
  {
  }

  lemma TakesSome(g: Input, item: Re, d: nat)
    requires IsItem(item)
    ensures ItemTakes(g, item, d) ==> d + Width(item) <= |g.text|
  {
  }
}
