/** Patterns whose `*' and `+' repeat one-character items, or groups with no choice in them, taken apart: single items,
    repetitions, and the forward jumps of groups, alternatives and `?', in the order of their code. */
module RegexParts {
  import opened Wrappers
  import opened RegexTree
  import opened RegexCode
  import opened RegexPaths

  /** Something that takes exactly one character. */
  predicate IsUnit(r: Re) {
    match r
    case Exact(ts) => |ts| == 1
    case AnyChar => true
    case CharSet(_, bits) => |bits| <= 32
    case _ => false
  }

  predicate IsItem(r: Re) {
    IsUnit(r) || (r.Exact? && 1 <= |r.ts| <= 255)
  }

  predicate Accepts(syn: Syntax, unit: Re, c: Byte)
    requires IsUnit(unit)
  {
    match unit
    case Exact(ts) => c == CharOf(ts[0])
    case AnyChar => DotAccepts(syn, c)
    case CharSet(negated, bits) => SetAccepts(negated, bits, c)
  }

  /** How many characters an item takes. */
  function Width(item: Re): nat { if item.Exact? then |item.ts| else 1 }

  predicate ItemTakes(g: Input, item: Re, d: nat)
    requires IsItem(item)
  {
    && d + Width(item) <= |g.text|
    && if item.Exact? then forall k :: 0 <= k < |item.ts| ==> g.text[d + k] == CharOf(item.ts[k])
       else Accepts(g.syn, item, g.text[d])
  }

  lemma ItemMatches(g: Input, item: Re, i: nat, j: nat)
    requires IsItem(item)
    ensures Matches(g, item, i, j) <==> j == i + Width(item) && ItemTakes(g, item, i)
  {
  }

  lemma UnitTakes(g: Input, unit: Re, d: nat)
    requires IsUnit(unit)
    ensures ItemTakes(g, unit, d) <==> d < |g.text| && Accepts(g.syn, unit, g.text[d])
  {
    if unit.Exact? && d < |g.text| { assert g.text[d] == g.text[d + 0]; }
  }

  // ---------- What has no choice in it ----------

  /** Items one after the other, in groups or not. */
  predicate Fixed(r: Re) {
    match r
    case Empty => true
    case Ignored(_) => true
    case Cat(a, b) => Fixed(a) && Fixed(b)
    case Group(_, _, body) => Fixed(body)
    case _ => IsItem(r)
  }

  /** How many characters it takes. */
  function Span(r: Re): nat
    requires Fixed(r)
  {
    match r
    case Empty => 0
    case Ignored(_) => 0
    case Cat(a, b) => Span(a) + Span(b)
    case Group(_, _, body) => Span(body)
    case _ => Width(r)
  }

  predicate Takes(g: Input, r: Re, d: nat)
    requires Fixed(r)
  {
    match r
    case Empty => d <= |g.text|
    case Ignored(_) => d <= |g.text|
    case Cat(a, b) => Takes(g, a, d) && Takes(g, b, d + Span(a))
    case Group(_, _, body) => Takes(g, body, d)
    case _ => ItemTakes(g, r, d)
  }

  /** What a `*' or `+' may repeat here: a one-character item, or a group that has a register and no choice in it. */
  predicate IsBody(r: Re) {
    IsUnit(r) || (r.Group? && r.reg <= MAX_REGNUM && Fixed(r))
  }

  lemma UnitSpan(unit: Re)
    requires IsUnit(unit)
    ensures Fixed(unit) && Span(unit) == 1
  {
  }

  lemma UnitTakesOne(g: Input, unit: Re, d: nat)
    requires IsUnit(unit)
    ensures Fixed(unit) && Span(unit) == Width(unit) == 1 && Takes(g, unit, d) == ItemTakes(g, unit, d)
  {
  }

  lemma BodyFixed(r: Re)
    requires IsBody(r)
    ensures Fixed(r)
  {
  }

  lemma {:induction false} TakesBounds(g: Input, r: Re, d: nat)
    requires Fixed(r) && Takes(g, r, d)
    ensures d + Span(r) <= |g.text|
  {
    match r
    case Cat(a, b) => TakesBounds(g, b, d + Span(a));
    case Group(_, _, body) => TakesBounds(g, body, d);
    case _ =>
  }

  /** Its language is one string of characters that its items take. */
  lemma {:induction false} FixedMatches(g: Input, r: Re, i: nat, j: nat)
    requires Fixed(r)
    ensures Matches(g, r, i, j) <==> j == i + Span(r) && Takes(g, r, i)
    decreases r
  {
    match r
    case Empty =>
    case Ignored(_) =>
    case Cat(a, b) => {
      if Matches(g, r, i, j) {
        var k := CatSplit(g, a, b, i, j);
        FixedMatches(g, a, i, k);
        FixedMatches(g, b, k, j);
      }
      if j == i + Span(r) && Takes(g, r, i) {
        FixedMatches(g, a, i, i + Span(a));
        FixedMatches(g, b, i + Span(a), j);
        TakesBounds(g, a, i);
        TakesBounds(g, b, i + Span(a));
        MatchesCat(g, a, b, i, i + Span(a), j);
      }
    }
    case Group(reg, inner, body) => {
      MatchesGroup(g, reg, inner, body, i, j);
      FixedMatches(g, body, i, j);
    }
    case _ => ItemMatches(g, r, i, j);
  }

  /** The first item, if there is one; there is none exactly if nothing is taken. */
  function FirstItem(r: Re): (first: Option<Re>)
    requires Fixed(r)
    ensures first.Some? ==> IsItem(first.value)
    ensures first.None? <==> Span(r) == 0
  {
    match r
    case Empty => None
    case Ignored(_) => None
    case Cat(a, b) => if FirstItem(a).Some? then FirstItem(a) else FirstItem(b)
    case Group(_, _, body) => FirstItem(body)
    case _ => Some(r)
  }

  lemma {:induction false} FirstItemTakes(g: Input, r: Re, d: nat)
    requires Fixed(r) && Takes(g, r, d)
    ensures FirstItem(r).Some? ==> ItemTakes(g, FirstItem(r).value, d)
  {
    match r
    case Cat(a, b) => { FirstItemTakes(g, a, d); FirstItemTakes(g, b, d + Span(a)); }
    case Group(_, _, body) => FirstItemTakes(g, body, d);
    case _ =>
  }

  /** What takes nothing can do so anywhere. */
  lemma {:induction false} NothingTakes(g: Input, r: Re, d: nat)
    requires Fixed(r) && Span(r) == 0 && d <= |g.text|
    ensures Takes(g, r, d)
  {
    match r
    case Cat(a, b) => { NothingTakes(g, a, d); NothingTakes(g, b, d); }
    case Group(_, _, body) => NothingTakes(g, body, d);
    case _ =>
  }

  /** All of text[i..j] is taken by the operand of a loop, round after round; a round that takes nothing adds
      nothing. */
  predicate AllTaken(g: Input, body: Re, i: nat, j: nat)
    requires IsBody(body)
    decreases j - i
  {
    BodyFixed(body);
    i <= j <= |g.text| && (i < j ==> Span(body) > 0 && Takes(g, body, i) && AllTaken(g, body, i + Span(body), j))
  }

  lemma {:induction false} TakenMore(g: Input, body: Re, i: nat, j: nat)
    requires IsBody(body) && Fixed(body) && AllTaken(g, body, i, j) && Takes(g, body, j)
    ensures AllTaken(g, body, i, j + Span(body))
    decreases j - i
  {
    TakesBounds(g, body, j);
    if i < j { TakenMore(g, body, i + Span(body), j); }
  }

  /** Repeating a body is taking round after round. */
  lemma {:induction false} RepeatsTaken(g: Input, body: Re, i: nat, j: nat)
    requires IsBody(body)
    ensures Repeats(g, body, i, j) <==> AllTaken(g, body, i, j)
    decreases j - i
  {
    hide Matches, Fixed, Takes, Span;
    BodyFixed(body);
    if i < j <= |g.text| {
      var n := i + Span(body);
      FixedMatches(g, body, i, n);
      if Repeats(g, body, i, j) {
        var k := RepeatsFirstOne(g, body, i, j);
        FixedMatches(g, body, i, k);
        RepeatsTaken(g, body, k, j);
      }
      if AllTaken(g, body, i, j) {
        TakenEnd(g, body, n, j);
        RepeatsTaken(g, body, n, j);
      }
    }
  }

  lemma TakenEnd(g: Input, body: Re, i: nat, j: nat)
    requires IsBody(body) && AllTaken(g, body, i, j)
    ensures i <= j <= |g.text|
  {
    hide Fixed, Takes, Span;
  }

  // ---------- Taking a pattern apart ----------

  /** Fork and Goto are an on_failure_jump and a jump over some of the parts that follow. */
  datatype Part =
    | Item(re: Re)
    | Many(unit: Re)
    | Several(unit: Re)
    | Maybe(unit: Re)
    | Dots
    | Fork(over: nat)
    | Goto(over: nat)
    | Mark(op: Byte, reg: Byte)
    | Blank

  predicate IsPart(p: Part) {
    match p
    case Item(re) => IsItem(re)
    case Many(unit) => IsBody(unit)
    case Several(unit) => IsBody(unit)
    case Maybe(unit) => IsUnit(unit)
    case Mark(op, _) => op == START_MEMORY || op == STOP_MEMORY
    case _ => true
  }

  predicate IsLoop(p: Part) { p.Many? || p.Several? || p.Dots? }

  predicate HasUnit(p: Part) { IsLoop(p) || p.Maybe? }

  function UnitOf(p: Part): (unit: Re)
    requires IsPart(p) && HasUnit(p)
    ensures IsBody(unit) && (p.Maybe? || p.Dots? ==> IsUnit(unit))
  {
    if p.Dots? then AnyChar else p.unit
  }

  /** The operand again, as one that takes a string of its own. */
  function BodyOf(p: Part): (body: Re)
    requires IsPart(p) && HasUnit(p)
    ensures body == UnitOf(p) && IsBody(body) && Fixed(body)
  {
    BodyFixed(UnitOf(p));
    UnitOf(p)
  }

  predicate AllParts(ps: seq<Part>) {
    forall i :: 0 <= i < |ps| ==> IsPart(ps[i])
  }

  /** Every `*' and `+' repeats a one-character item or a group with no choice in it; groups, alternatives and `?' of
      anything may be around them. */
  predicate UnitLoops(r: Re) {
    match r
    case Exact(ts) => 1 <= |ts| <= 255
    case CharSet(_, bits) => |bits| <= 32
    case Cat(a, b) => UnitLoops(a) && UnitLoops(b)
    case Alt(pre, last) => UnitLoops(pre) && UnitLoops(last)
    case Group(_, _, body) => UnitLoops(body)
    case ZeroOrMore(body, _) => IsBody(body)
    case OneOrMore(body, _) => IsBody(body)
    case Optional(body, _) => UnitLoops(body)
    case DotLine(body) => body.AnyChar?
    case _ => true
  }

  function Marks(op: Byte, reg: nat): (ps: seq<Part>)
    requires op == START_MEMORY || op == STOP_MEMORY
    ensures AllParts(ps)
  {
    if reg <= MAX_REGNUM then [Mark(op, reg)] else []
  }

  function Blanks(body: Re): (ps: seq<Part>)
    ensures AllParts(ps)
  {
    if body.Alt? then [Blank] else []
  }

  function Parts(r: Re): (ps: seq<Part>)
    requires UnitLoops(r)
    ensures AllParts(ps)
    decreases r, 0
  {
    match r
    case Empty => []
    case Ignored(_) => []
    case Dummy => [Blank]
    case Cat(a, b) => Parts(a) + Parts(b)
    case Alt(pre, last) => PreParts(pre) + [Goto(|Parts(last)|)] + Parts(last)
    case Group(reg, _, body) => Marks(START_MEMORY, reg) + Parts(body) + Blanks(body) + Marks(STOP_MEMORY, reg)
    case ZeroOrMore(body, _) => [Many(body)]
    case OneOrMore(body, _) => [Several(body)]
    case Optional(body, _) => if IsUnit(body) then [Maybe(body)] else [Fork(|Parts(body)|)] + Parts(body)
    case DotLine(_) => [Dots]
    case _ => [Item(r)]
  }

  /** `l' as leading alternatives, up to the jump past the others. */
  function PreParts(l: Re): (ps: seq<Part>)
    requires UnitLoops(l)
    ensures AllParts(ps)
    decreases l, 1
  {
    if l.Alt? then
      PreParts(l.pre) + [Goto(|Parts(l.last)| + 1)] + [Fork(|Parts(l.last)| + 1)] + Parts(l.last)
    else [Fork(|Parts(l)| + 1)] + Parts(l)
  }

  // ---------- Addresses ----------

  function PartLen(p: Part): nat {
    match p
    case Item(re) => Len(re)
    case Many(unit) => 6 + Len(unit)
    case Several(unit) => 9 + Len(unit)
    case Maybe(unit) => 3 + Len(unit)
    case Dots => 7
    case Blank => 1
    case _ => 3
  }

  lemma PartTakesRoom(p: Part)
    requires IsPart(p)
    ensures PartLen(p) > 0
  {
  }

  function Off(ps: seq<Part>, i: nat): nat
    requires i <= |ps|
  {
    if i == 0 then 0 else Off(ps, i - 1) + PartLen(ps[i - 1])
  }

  lemma OffNext(ps: seq<Part>, i: nat)
    requires i < |ps|
    ensures Off(ps, i + 1) == Off(ps, i) + PartLen(ps[i])
  {
  }

  lemma {:induction false} OffGrows(ps: seq<Part>, i: nat, j: nat)
    requires AllParts(ps) && i < j <= |ps|
    ensures Off(ps, i) + PartLen(ps[i]) <= Off(ps, j) && PartLen(ps[i]) > 0
    decreases j
  {
    hide PartLen, IsPart;
    PartTakesRoom(ps[i]);
    if i < j - 1 { OffGrows(ps, i, j - 1); }
  }

  lemma OffUnique(ps: seq<Part>, i: nat, j: nat)
    requires AllParts(ps) && i <= |ps| && j <= |ps| && Off(ps, i) == Off(ps, j)
    ensures i == j
  {
    hide Off, PartLen;
    if i < j { OffGrows(ps, i, j); }
    if j < i { OffGrows(ps, j, i); }
  }

  // ---------- What is at each address ----------

  predicate ItemCode(code: seq<Byte>, p: nat, item: Re) {
    p < |code| && match item
    case Exact(ts) =>
      && code[p] == EXACTN && Get(code, p + 1) == |ts|
      && forall k :: 0 <= k < |ts| ==> Get(code, p + 2 + k) == CharOf(ts[k])
    case AnyChar => code[p] == ANYCHAR
    case CharSet(negated, bits) =>
      && code[p] == (if negated then CHARSET_NOT else CHARSET) && Get(code, p + 1) == |bits|
      && p + 2 + |bits| <= |code| && BitmapAt(code, p) == bits
    case _ => false
  }

  lemma ItemHere(code: seq<Byte>, p: nat, item: Re)
    requires Laid(code, p, item) && IsItem(item)
    ensures ItemCode(code, p, item)
  {
    hide Laid, BitmapAt, Get;
    match item
    case Exact(ts) => LaidExact(code, p, ts);
    case AnyChar => LaidByte(code, p, item);
    case CharSet(negated, bits) => LaidSet(code, p, negated, bits);
  }

  /** The operand of a loop. */
  predicate BodyCode(code: seq<Byte>, p: nat, body: Re) {
    if IsUnit(body) then ItemCode(code, p, body) else Laid(code, p, body)
  }

  predicate JumpHere(code: seq<Byte>, p: nat, op: Byte, to: int) {
    p < |code| && code[p] == op && Target(code, p) == to
  }

  predicate PartCode(code: seq<Byte>, ps: seq<Part>, i: nat)
    requires i < |ps|
  {
    var at := Off(ps, i);
    match ps[i]
    case Item(re) => ItemCode(code, at, re)
    case Many(unit) =>
      && JumpHere(code, at, ON_FAILURE_JUMP, at + 6 + Len(unit)) && BodyCode(code, at + 3, unit)
      && JumpHere(code, at + 3 + Len(unit), MAYBE_POP_JUMP, at)
    case Several(unit) =>
      && JumpHere(code, at, DUMMY_FAILURE_JUMP, at + 6)
      && JumpHere(code, at + 3, ON_FAILURE_JUMP, at + 9 + Len(unit)) && BodyCode(code, at + 6, unit)
      && JumpHere(code, at + 6 + Len(unit), MAYBE_POP_JUMP, at + 3)
    case Maybe(unit) => JumpHere(code, at, ON_FAILURE_JUMP, at + 3 + Len(unit)) && ItemCode(code, at + 3, unit)
    case Dots =>
      && JumpHere(code, at, ON_FAILURE_KEEP_STRING_JUMP, at + 7) && ItemCode(code, at + 3, AnyChar)
      && JumpHere(code, at + 4, JUMP, at + 3)
    case Fork(over) => i + 1 + over <= |ps| && JumpHere(code, at, ON_FAILURE_JUMP, Off(ps, i + 1 + over))
    case Goto(over) => i + 1 + over <= |ps| && JumpHere(code, at, JUMP_PAST_ALT, Off(ps, i + 1 + over))
    case Mark(op, reg) => at < |code| && code[at] == op && Get(code, at + 1) == reg
    case Blank => at < |code| && code[at] == PUSH_DUMMY_FAILURE
  }

  /** Every part's code is where it should be, and nothing follows the last. */
  ghost predicate LaidOut(code: seq<Byte>, ps: seq<Part>) {
    && AllParts(ps) && |code| == Off(ps, |ps|) < MAX_OFFSET_CODE
    && forall i :: 0 <= i < |ps| ==> PartCode(code, ps, i)
  }

  lemma PartHere(code: seq<Byte>, ps: seq<Part>, i: nat)
    requires LaidOut(code, ps) && i < |ps|
    ensures IsPart(ps[i]) && PartCode(code, ps, i)
    ensures Off(ps, i) < Off(ps, i + 1) == Off(ps, i) + PartLen(ps[i]) <= |code|
  {
    hide PartCode, Off, PartLen, IsPart;
    OffNext(ps, i);
    OffGrows(ps, i, i + 1);
    if i + 1 < |ps| { OffGrows(ps, i + 1, |ps|); }
  }

  // ---------- The code of a pattern is that of its parts ----------

  /** ps holds qs from index `from' on. */
  predicate Holds(ps: seq<Part>, from: nat, qs: seq<Part>) {
    from + |qs| <= |ps| && ps[from..from + |qs|] == qs
  }

  lemma HoldsConcat(ps: seq<Part>, from: nat, a: seq<Part>, b: seq<Part>)
    requires Holds(ps, from, a + b)
    ensures Holds(ps, from, a) && Holds(ps, from + |a|, b) && from + |a| + |b| <= |ps|
  {
    var s := ps[from..from + |a + b|];
    assert s[..|a|] == a && s[|a|..] == b;
    assert ps[from..from + |a|] == s[..|a|] && ps[from + |a|..from + |a + b|] == s[|a|..];
  }

  lemma HoldsOne(ps: seq<Part>, from: nat, p: Part)
    requires Holds(ps, from, [p])
    ensures from < |ps| && ps[from] == p
  {
    assert ps[from..from + 1][0] == p;
  }

  lemma HoldsBetween(ps: seq<Part>, from: nat, a: seq<Part>, x: Part, y: Part, b: seq<Part>)
    requires Holds(ps, from, a + [x] + [y] + b)
    ensures var mid := from + |a|;
            Holds(ps, from, a) && mid + 1 < |ps| && ps[mid] == x && ps[mid + 1] == y && Holds(ps, mid + 2, b)
  {
    hide Holds;
    HoldsConcat(ps, from, a + [x] + [y], b);
    HoldsConcat(ps, from, a + [x], [y]);
    HoldsConcat(ps, from, a, [x]);
    HoldsOne(ps, from + |a|, x);
    HoldsOne(ps, from + |a| + 1, y);
  }

  ghost predicate CodeOfParts(code: seq<Byte>, ps: seq<Part>, i: nat, j: nat) {
    j <= |ps| && forall m :: i <= m < j ==> PartCode(code, ps, m)
  }

  lemma {:induction false} PartsLaid(code: seq<Byte>, r: Re, ps: seq<Part>, from: nat)
    requires UnitLoops(r) && Holds(ps, from, Parts(r)) && Laid(code, Off(ps, from), r) && |code| < MAX_OFFSET_CODE
    ensures var to := from + |Parts(r)|; Off(ps, to) == Off(ps, from) + Len(r) && CodeOfParts(code, ps, from, to)
    decreases r, 1
  {
    hide Laid, Len, Off, PartCode, Holds, CodeOfParts;
    match r
    case Cat(a, b) => CatLaid(code, a, b, ps, from);
    case Alt(pre, last) => AltLaid(code, pre, last, ps, from);
    case Group(reg, inner, body) => GroupLaid(code, reg, inner, body, ps, from);
    case Optional(body, ops) => {
      if IsUnit(body) {
        MaybeLaid(code, body, ops, ps, from);
      } else {
        ForkLaid(code, body, ops, ps, from);
      }
    }
    case ZeroOrMore(body, ops) => StarLaid(code, body, ops, ps, from);
    case OneOrMore(body, ops) => PlusLaid(code, body, ops, ps, from);
    case DotLine(body) => DotsLaid(code, body, ps, from);
    case _ => LeafLaid(code, r, ps, from);
  }

  lemma {:induction false} LeafLaid(code: seq<Byte>, r: Re, ps: seq<Part>, from: nat)
    requires r.Empty? || r.Ignored? || r.Dummy? || IsItem(r)
    requires UnitLoops(r) && Holds(ps, from, Parts(r)) && Laid(code, Off(ps, from), r) && |code| < MAX_OFFSET_CODE
    ensures var to := from + |Parts(r)|; Off(ps, to) == Off(ps, from) + Len(r) && CodeOfParts(code, ps, from, to)
  {
    hide Laid;
    if IsItem(r) {
      HoldsOne(ps, from, Item(r));
      ItemHere(code, Off(ps, from), r);
    } else if r.Dummy? {
      HoldsOne(ps, from, Blank);
      LaidByte(code, Off(ps, from), r);
    }
  }

  lemma {:induction false} CatLaid(code: seq<Byte>, a: Re, b: Re, ps: seq<Part>, from: nat)
    requires UnitLoops(a) && UnitLoops(b) && Holds(ps, from, Parts(a) + Parts(b))
    requires Laid(code, Off(ps, from), Cat(a, b)) && |code| < MAX_OFFSET_CODE
    ensures var to := from + |Parts(a) + Parts(b)|;
            Off(ps, to) == Off(ps, from) + Len(Cat(a, b)) && CodeOfParts(code, ps, from, to)
    decreases Cat(a, b), 0
  {
    hide Laid, Len, Off, Parts, PartCode, Holds;
    HoldsConcat(ps, from, Parts(a), Parts(b));
    LaidCat(code, Off(ps, from), a, b);
    LenCat(a, b);
    PartsLaid(code, a, ps, from);
    PartsLaid(code, b, ps, from + |Parts(a)|);
  }

  lemma JumpLaid(code: seq<Byte>, p: nat, op: Byte, offset: int)
    requires JumpAt(code, p, op, offset) && 0 <= p + 3 + offset <= |code| < MAX_OFFSET_CODE
    ensures JumpHere(code, p, op, p + 3 + offset)
  {
    hide Target;
    JumpByte(code, p, op, offset);
  }

  lemma StarLaid(code: seq<Byte>, body: Re, ops: seq<Token>, ps: seq<Part>, from: nat)
    requires IsBody(body) && Holds(ps, from, [Many(body)])
    requires Laid(code, Off(ps, from), ZeroOrMore(body, ops)) && |code| < MAX_OFFSET_CODE
    ensures Off(ps, from + 1) == Off(ps, from) + Len(ZeroOrMore(body, ops)) && CodeOfParts(code, ps, from, from + 1)
  {
    hide Laid, JumpAt, Target, Off, JumpHere, ItemCode, Fixed;
    var at := Off(ps, from);
    HoldsOne(ps, from, Many(body));
    OffNext(ps, from);
    LaidZeroOrMore(code, at, body, ops);
    JumpLaid(code, at, ON_FAILURE_JUMP, Len(body) + 3);
    JumpLaid(code, at + 3 + Len(body), MAYBE_POP_JUMP, -(Len(body) + 6));
    if IsUnit(body) { ItemHere(code, at + 3, body); }
  }

  lemma PlusLaid(code: seq<Byte>, body: Re, ops: seq<Token>, ps: seq<Part>, from: nat)
    requires IsBody(body) && Holds(ps, from, [Several(body)])
    requires Laid(code, Off(ps, from), OneOrMore(body, ops)) && |code| < MAX_OFFSET_CODE
    ensures Off(ps, from + 1) == Off(ps, from) + Len(OneOrMore(body, ops)) && CodeOfParts(code, ps, from, from + 1)
  {
    hide Laid, JumpAt, Target, Off, JumpHere, ItemCode, Fixed;
    var at := Off(ps, from);
    HoldsOne(ps, from, Several(body));
    OffNext(ps, from);
    LaidOneOrMore(code, at, body, ops);
    JumpLaid(code, at, DUMMY_FAILURE_JUMP, 3);
    JumpLaid(code, at + 3, ON_FAILURE_JUMP, Len(body) + 3);
    JumpLaid(code, at + 6 + Len(body), MAYBE_POP_JUMP, -(Len(body) + 6));
    if IsUnit(body) { ItemHere(code, at + 6, body); }
  }

  lemma MaybeLaid(code: seq<Byte>, body: Re, ops: seq<Token>, ps: seq<Part>, from: nat)
    requires IsUnit(body) && Holds(ps, from, [Maybe(body)])
    requires Laid(code, Off(ps, from), Optional(body, ops)) && |code| < MAX_OFFSET_CODE
    ensures Off(ps, from + 1) == Off(ps, from) + Len(Optional(body, ops)) && CodeOfParts(code, ps, from, from + 1)
  {
    hide Laid, JumpAt, Target, Off, JumpHere, ItemCode;
    var at := Off(ps, from);
    HoldsOne(ps, from, Maybe(body));
    OffNext(ps, from);
    LaidOptional(code, at, body, ops);
    JumpLaid(code, at, ON_FAILURE_JUMP, Len(body));
    ItemHere(code, at + 3, body);
  }

  lemma DotsLaid(code: seq<Byte>, body: Re, ps: seq<Part>, from: nat)
    requires body.AnyChar? && Holds(ps, from, [Dots])
    requires Laid(code, Off(ps, from), DotLine(body)) && |code| < MAX_OFFSET_CODE
    ensures Off(ps, from + 1) == Off(ps, from) + Len(DotLine(body)) && CodeOfParts(code, ps, from, from + 1)
  {
    hide Laid, JumpAt, Target, Off, JumpHere, ItemCode;
    var at := Off(ps, from);
    HoldsOne(ps, from, Dots);
    OffNext(ps, from);
    LaidDotLine(code, at, body);
    JumpLaid(code, at, ON_FAILURE_KEEP_STRING_JUMP, 4);
    JumpLaid(code, at + 4, JUMP, -4);
    ItemHere(code, at + 3, body);
  }

  lemma {:induction false} ForkLaid(code: seq<Byte>, body: Re, ops: seq<Token>, ps: seq<Part>, from: nat)
    requires UnitLoops(body) && Holds(ps, from, [Fork(|Parts(body)|)] + Parts(body))
    requires Laid(code, Off(ps, from), Optional(body, ops)) && |code| < MAX_OFFSET_CODE
    ensures var to := from + 1 + |Parts(body)|;
            Off(ps, to) == Off(ps, from) + Len(Optional(body, ops)) && CodeOfParts(code, ps, from, to)
    decreases body, 2
  {
    hide Laid, JumpAt, Target, Off, JumpHere, Len, Parts, Holds;
    var n := |Parts(body)|;
    HoldsConcat(ps, from, [Fork(n)], Parts(body));
    var at := Off(ps, from);
    LenOptional(body, ops);
    HoldsOne(ps, from, Fork(n));
    OffNext(ps, from);
    LaidOptional(code, at, body, ops);
    PartsLaid(code, body, ps, from + 1);
    JumpLaid(code, at, ON_FAILURE_JUMP, Len(body));
  }

  lemma MarkLaid(code: seq<Byte>, op: Byte, reg: nat, inner: nat, ps: seq<Part>, from: nat)
    requires op == START_MEMORY || op == STOP_MEMORY
    requires Holds(ps, from, Marks(op, reg)) && At(code, Off(ps, from), MemoryCode(op, reg, inner))
    ensures var to := from + |Marks(op, reg)|;
            Off(ps, to) == Off(ps, from) + MemoryLen(reg) && CodeOfParts(code, ps, from, to)
  {
    hide At, MemoryCode;
    if reg <= MAX_REGNUM {
      HoldsOne(ps, from, Mark(op, reg));
      MemoryBytes(code, Off(ps, from), op, reg, inner);
    }
  }

  lemma {:induction false} BlankLaid(code: seq<Byte>, body: Re, ps: seq<Part>, from: nat)
    requires Holds(ps, from, Blanks(body)) && (body.Alt? ==> At(code, Off(ps, from), [PUSH_DUMMY_FAILURE]))
    ensures var to := from + |Blanks(body)|;
            Off(ps, to) == Off(ps, from) + DummyLen(body) && CodeOfParts(code, ps, from, to)
  {
    if body.Alt? {
      HoldsOne(ps, from, Blank);
      assert [PUSH_DUMMY_FAILURE][0] == code[Off(ps, from) + 0];
    }
  }

  lemma {:induction false} GroupLaid(code: seq<Byte>, reg: nat, inner: nat, body: Re, ps: seq<Part>, from: nat)
    requires UnitLoops(body)
    requires Holds(ps, from, Marks(START_MEMORY, reg) + Parts(body) + Blanks(body) + Marks(STOP_MEMORY, reg))
    requires Laid(code, Off(ps, from), Group(reg, inner, body)) && |code| < MAX_OFFSET_CODE
    ensures var to := from + |Marks(START_MEMORY, reg) + Parts(body) + Blanks(body) + Marks(STOP_MEMORY, reg)|;
            Off(ps, to) == Off(ps, from) + Len(Group(reg, inner, body)) && CodeOfParts(code, ps, from, to)
    decreases body, 2
  {
    hide Laid, Off, Len, Parts, Holds, Marks, Blanks, MemoryLen, DummyLen, MemoryCode, At, PartCode;
    var a, b, c, d := Marks(START_MEMORY, reg), Parts(body), Blanks(body), Marks(STOP_MEMORY, reg);
    HoldsConcat(ps, from, a + b + c, d);
    HoldsConcat(ps, from, a + b, c);
    HoldsConcat(ps, from, a, b);
    LenGroup(reg, inner, body);
    LaidGroup(code, Off(ps, from), reg, inner, body);
    MarkLaid(code, START_MEMORY, reg, inner, ps, from);
    PartsLaid(code, body, ps, from + |a|);
    BlankLaid(code, body, ps, from + |a + b|);
    MarkLaid(code, STOP_MEMORY, reg, inner, ps, from + |a + b + c|);
  }

  lemma {:induction false} AltLaid(code: seq<Byte>, pre: Re, last: Re, ps: seq<Part>, from: nat)
    requires UnitLoops(pre) && UnitLoops(last) && Holds(ps, from, PreParts(pre) + [Goto(|Parts(last)|)] + Parts(last))
    requires Laid(code, Off(ps, from), Alt(pre, last)) && |code| < MAX_OFFSET_CODE
    ensures var to := from + |PreParts(pre) + [Goto(|Parts(last)|)] + Parts(last)|;
            Off(ps, to) == Off(ps, from) + Len(Alt(pre, last)) && CodeOfParts(code, ps, from, to)
    decreases Alt(pre, last), 0
  {
    hide Laid, Off, Len, PreLen, Parts, PreParts, Holds, At, PreCode, JumpAt, JumpHere, Target;
    var n := |Parts(last)|;
    var mid := from + |PreParts(pre)|;
    HoldsConcat(ps, from, PreParts(pre) + [Goto(n)], Parts(last));
    HoldsConcat(ps, from, PreParts(pre), [Goto(n)]);
    var at := Off(ps, from);
    LenAlt(pre, last);
    LaidAlt(code, at, pre, last);
    HoldsOne(ps, mid, Goto(n));
    PreLaid(code, pre, ps, from);
    OffNext(ps, mid);
    PartsLaid(code, last, ps, mid + 1);
    JumpLaid(code, at + PreLen(pre) - 3, JUMP_PAST_ALT, Len(last));
  }

  /** Leading alternatives, in front of the jump past the others. */
  lemma {:induction false} PreLaid(code: seq<Byte>, l: Re, ps: seq<Part>, from: nat)
    requires UnitLoops(l) && Holds(ps, from, PreParts(l)) && At(code, Off(ps, from), PreCode(l))
             && |code| < MAX_OFFSET_CODE
    requires from + |PreParts(l)| < |ps| && ps[from + |PreParts(l)|].Goto? && Off(ps, from) + PreLen(l) <= |code|
    ensures var to := from + |PreParts(l)|;
            Off(ps, to) + 3 == Off(ps, from) + PreLen(l) && CodeOfParts(code, ps, from, to)
    decreases l, 3
  {
    hide Laid, Off, Len, PreLen, Parts, PreParts, Holds, At, PreCode, JumpAt, JumpHere, Target;
    if l.Alt? {
      PreAltLaid(code, l.pre, l.last, ps, from);
    } else {
      BranchLaid(code, l, ps, from);
    }
  }

  lemma {:induction false} PreLenOf(l: Re)
    ensures PreLen(l) == if l.Alt? then PreLen(l.pre) + 6 + Len(l.last) else 6 + Len(l)
  {
  }

  lemma PrePartsOf(l: Re)
    requires UnitLoops(l)
    ensures PreParts(l) == if l.Alt? then
                             PreParts(l.pre) + [Goto(|Parts(l.last)| + 1)] + [Fork(|Parts(l.last)| + 1)] + Parts(l.last)
                           else [Fork(|Parts(l)| + 1)] + Parts(l)
  {
  }

  lemma {:induction false} BranchLaid(code: seq<Byte>, l: Re, ps: seq<Part>, from: nat)
    requires UnitLoops(l) && !l.Alt? && Holds(ps, from, PreParts(l)) && At(code, Off(ps, from), PreCode(l))
    requires |code| < MAX_OFFSET_CODE
    requires from + |PreParts(l)| < |ps| && ps[from + |PreParts(l)|].Goto? && Off(ps, from) + PreLen(l) <= |code|
    ensures var to := from + |PreParts(l)|;
            Off(ps, to) + 3 == Off(ps, from) + PreLen(l) && CodeOfParts(code, ps, from, to)
    decreases l, 2
  {
    hide Laid, Off, Len, PreLen, Parts, PreParts, Holds, At, PreCode, JumpAt, JumpHere, Target;
    var at, n := Off(ps, from), |Parts(l)|;
    PreLenOf(l);
    PrePartsOf(l);
    PreOfBranch(code, at, l);
    HoldsConcat(ps, from, [Fork(n + 1)], Parts(l));
    HoldsOne(ps, from, Fork(n + 1));
    OffNext(ps, from);
    PartsLaid(code, l, ps, from + 1);
    OffNext(ps, from + 1 + n);
    JumpLaid(code, at, ON_FAILURE_JUMP, Len(l) + 3);
  }

  lemma ThreeLong(ps: seq<Part>, i: nat)
    requires i < |ps| && (ps[i].Fork? || ps[i].Goto?)
    ensures Off(ps, i + 1) == Off(ps, i) + 3
  {
    hide Off;
    OffNext(ps, i);
  }

  lemma OnePart(code: seq<Byte>, ps: seq<Part>, i: nat)
    requires i < |ps| && PartCode(code, ps, i)
    ensures CodeOfParts(code, ps, i, i + 1)
  {
    hide PartCode;
  }

  lemma MoreParts(code: seq<Byte>, ps: seq<Part>, i: nat, j: nat, k: nat)
    requires i <= j <= k && CodeOfParts(code, ps, i, j) && CodeOfParts(code, ps, j, k)
    ensures CodeOfParts(code, ps, i, k)
  {
    hide PartCode;
  }

  /** The jump past the other branches, the fork in front of the next one, and that branch. */
  lemma JoinBranch(code: seq<Byte>, ps: seq<Part>, from: nat, mid: nat, n: nat)
    requires from <= mid && mid + 2 + n < |ps| && ps[mid] == Goto(n + 1) && ps[mid + 1] == Fork(n + 1)
    requires CodeOfParts(code, ps, from, mid) && CodeOfParts(code, ps, mid + 2, mid + 2 + n)
    requires JumpHere(code, Off(ps, mid), JUMP_PAST_ALT, Off(ps, mid + 2 + n))
    requires JumpHere(code, Off(ps, mid + 1), ON_FAILURE_JUMP, Off(ps, mid + 3 + n))
    ensures CodeOfParts(code, ps, from, mid + 2 + n)
  {
    hide JumpHere, Off, CodeOfParts;
    OnePart(code, ps, mid);
    OnePart(code, ps, mid + 1);
    MoreParts(code, ps, from, mid, mid + 1);
    MoreParts(code, ps, from, mid + 1, mid + 2);
    MoreParts(code, ps, from, mid + 2, mid + 2 + n);
  }

  lemma {:induction false} PreAltLaid(code: seq<Byte>, pre: Re, last: Re, ps: seq<Part>, from: nat)
    requires UnitLoops(pre) && UnitLoops(last) && |code| < MAX_OFFSET_CODE
    requires var l := Alt(pre, last);
             && Holds(ps, from, PreParts(l)) && At(code, Off(ps, from), PreCode(l))
             && from + |PreParts(l)| < |ps| && ps[from + |PreParts(l)|].Goto? && Off(ps, from) + PreLen(l) <= |code|
    ensures var to := from + |PreParts(Alt(pre, last))|;
            Off(ps, to) + 3 == Off(ps, from) + PreLen(Alt(pre, last)) && CodeOfParts(code, ps, from, to)
    decreases Alt(pre, last), 2
  {
    hide Laid, Off, Len, PreLen, Parts, PreParts, Holds, At, PreCode, JumpAt, JumpHere, Target, CodeOfParts, PartLen,
         IsPart, AllParts, UnitLoops, PartCode;
    var l, at, n := Alt(pre, last), Off(ps, from), |Parts(last)|;
    var mid := from + |PreParts(pre)|;
    PreLenOf(l);
    PrePartsOf(l);
    PreOfAlt(code, at, pre, last);
    HoldsBetween(ps, from, PreParts(pre), Goto(n + 1), Fork(n + 1), Parts(last));
    assert UnitLoops(pre) && UnitLoops(last);
    PreLaid(code, pre, ps, from);
    ThreeLong(ps, mid);
    ThreeLong(ps, mid + 1);
    PartsLaid(code, last, ps, mid + 2);
    ThreeLong(ps, mid + 2 + n);
    JumpLaid(code, at + PreLen(pre) - 3, JUMP_PAST_ALT, Len(last) + 3);
    JumpLaid(code, at + PreLen(pre), ON_FAILURE_JUMP, Len(last) + 3);
    JoinBranch(code, ps, from, mid, n);
  }

  lemma ProgramLaidOut(code: seq<Byte>, r: Re, syn: Syntax)
    requires UnitLoops(r) && Program(code, r, syn) && !syn.noBacktrack && |code| < MAX_OFFSET_CODE
    ensures LaidOut(code, Parts(r))
  {
    hide Code, Len, Off, PartCode;
    var ps := Parts(r);
    assert Off(ps, 0) == 0 by { OffZero(ps); }
    assert ps[0..0 + |ps|] == ps;
    PartsLaid(code, r, ps, 0);
  }

  lemma OffZero(ps: seq<Part>)
    ensures Off(ps, 0) == 0
  {
  }
}
