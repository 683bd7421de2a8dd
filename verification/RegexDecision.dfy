/** When the decision to turn a maybe_pop_jump into a pop_failure_jump is right. At the end of a loop over a
    one-character item it is wrong in exactly two cases, both of which look at a count byte where a character or a width
    is meant; at the end of a loop over a group it is made only where nothing is left. */
module RegexDecision {
  import opened Wrappers
  import opened RegexTree
  import opened RegexCode
  import opened RegexPaths
  import opened RegexMachine
  import opened RegexMarks
  import opened RegexForced
  import opened RegexParts
  import opened RegexTurns
  import opened RegexRounds
  import opened RegexRepeats
  import opened RegexReturns
  import opened RegexLongest
  import opened RegexMeaning

  /** What the code finds behind a loop: the end, an item that must match, or something else. */
  datatype Next = Ended | Must(item: Re) | Other

  /** The first part from j on that is not a mark of a group. */
  function PastMarks(ps: seq<Part>, j: nat): (m: nat)
    requires j <= |ps|
    ensures j <= m <= |ps| && (m < |ps| ==> !ps[m].Mark?) && forall n :: j <= n < m ==> ps[n].Mark?
    decreases |ps| - j
  {
    if j < |ps| && ps[j].Mark? then PastMarks(ps, j + 1) else j
  }

  /** Groups are looked into, and a `+' is looked at by the first item of its operand. */
  function Following(ps: seq<Part>, j: nat): Next
    requires j <= |ps| && AllParts(ps)
  {
    var m := PastMarks(ps, j);
    if m == |ps| then Ended
    else match ps[m]
      case Item(re) => Must(re)
      case Several(_) => if FirstItem(UnitAt(ps, m)).Some? then Must(FirstItem(UnitAt(ps, m)).value) else Other
      case _ => Other
  }

  /** A literal loop before a bracket expression: the literal's count, 1, is looked up instead of the literal. */
  predicate CountTaken(unit: Re, next: Re) {
    && unit.Exact? && |unit.ts| == 1 && next.CharSet? && !next.negated
    && !InBitmap(next.bits, 1) && InBitmap(next.bits, CharOf(unit.ts[0]))
  }

  /** A loop over a bracket expression with a full 32-byte map before a literal: the map's width in bits is cut to a
      byte. */
  predicate WidthLost(unit: Re, next: Re) {
    && unit.CharSet? && !unit.negated && |unit.bits| == 32 && next.Exact? && next.ts != []
    && InBitmap(unit.bits, CharOf(next.ts[0]))
  }

  predicate Misjudged(unit: Re, next: Next) {
    next.Must? && (CountTaken(unit, next.item) || WidthLost(unit, next.item))
  }

  predicate IsStar(p: Part) { p.Many? || p.Several? }

  // ---------- Where the code looks ----------

  /** How much code is in front of the first item, or all of it. */
  function FirstAt(u: Re): nat
    requires Fixed(u)
  {
    match u
    case Empty => 0
    case Ignored(_) => 0
    case Cat(a, b) => if FirstItem(a).Some? then FirstAt(a) else Len(a) + FirstAt(b)
    case Group(reg, _, body) => if FirstItem(body).Some? then MemoryLen(reg) + FirstAt(body) else Len(u)
    case _ => 0
  }

  /** Where the item looked at is. */
  function LookAddr(ps: seq<Part>, j: nat): nat
    requires j <= |ps| && AllParts(ps)
  {
    var m := PastMarks(ps, j);
    Off(ps, m) + if m < |ps| && ps[m].Several? then 6 + FirstAt(UnitAt(ps, m)) else 0
  }

  /** The marks in front of the first item are skipped, or all marks if there is no item. */
  lemma {:induction false} SkipFixed(code: seq<Byte>, p: nat, u: Re)
    requires Fixed(u) && Laid(code, p, u) && p + Len(u) <= |code|
    ensures FirstItem(u).Some? ==>
      SkipGroups(code, p) == p + FirstAt(u) && ItemCode(code, p + FirstAt(u), FirstItem(u).value)
    ensures FirstItem(u).None? ==> FirstAt(u) == Len(u) && SkipGroups(code, p) == SkipGroups(code, p + Len(u))
    decreases u
  {
    hide Laid, Len, MemoryCode, ItemCode, SkipGroups;
    match u
    case Empty => LenNone(u);
    case Ignored(_) => LenNone(u);
    case Cat(a, b) => {
      LaidCat(code, p, a, b);
      LenCat(a, b);
      SkipFixed(code, p, a);
      SkipFixed(code, p + Len(a), b);
    }
    case Group(reg, inner, body) => {
      LaidGroup(code, p, reg, inner, body);
      LenGroup(reg, inner, body);
      NoAlt(body);
      SkipFixed(code, p + MemoryLen(reg), body);
      if reg <= MAX_REGNUM {
        MemoryBytes(code, p, START_MEMORY, reg, inner);
        MemoryBytes(code, p + 3 + Len(body), STOP_MEMORY, reg, inner);
        SkipMark(code, p);
        SkipMark(code, p + 3 + Len(body));
      }
    }
    case _ => {
      ItemHere(code, p, u);
      ItemStays(code, p, u);
    }
  }

  lemma ItemStays(code: seq<Byte>, p: nat, u: Re)
    requires ItemCode(code, p, u) && IsItem(u)
    ensures SkipGroups(code, p) == p
  {
    hide BitmapAt;
  }

  lemma {:induction false} SkipHere(code: seq<Byte>, ps: seq<Part>, j: nat)
    requires LaidOut(code, ps) && j <= |ps|
    ensures AllParts(ps) && SkipGroups(code, Off(ps, j)) == LookAddr(ps, j) <= |code|
    ensures match Following(ps, j)
            case Ended => LookAddr(ps, j) == |code|
            case Must(item) => IsItem(item) && ItemCode(code, LookAddr(ps, j), item)
            case Other => LookAddr(ps, j) < |code| && code[LookAddr(ps, j)] !in {EXACTN, CHARSET}
    decreases |ps| - j
  {
    hide LaidOut, Off, PartLen, BitmapAt, Get, Target, Fixed, FirstItem, FirstAt, Laid, SkipGroups;
    PartsOf(code, ps);
    if j == |ps| {
      EndHere(code, ps);
      SkipAtEnd(code);
    } else {
      PartHere(code, ps, j);
      if ps[j].Mark? {
        assert Off(ps, j + 1) == Off(ps, j) + 3 by { MarkRoom(ps[j]); }
        SkipMark(code, Off(ps, j));
        SkipHere(code, ps, j + 1);
      } else if ps[j].Several? {
        SkipPlus(code, ps, j);
      } else {
        SkipOther(code, ps, j);
      }
    }
  }

  lemma SkipAtEnd(code: seq<Byte>)
    ensures SkipGroups(code, |code|) == |code|
  {
  }

  lemma SkipMark(code: seq<Byte>, p: nat)
    requires p + 3 <= |code| && (code[p] == START_MEMORY || code[p] == STOP_MEMORY)
    ensures SkipGroups(code, p) == SkipGroups(code, p + 3)
  {
  }

  /** What is neither a mark nor a `+' is not skipped. */
  lemma SkipOther(code: seq<Byte>, ps: seq<Part>, j: nat)
    requires LaidOut(code, ps) && j < |ps| && AllParts(ps) && !ps[j].Mark? && !ps[j].Several?
    ensures SkipGroups(code, Off(ps, j)) == Off(ps, j) < |code|
    ensures if ps[j].Item? then IsItem(ps[j].re) && ItemCode(code, Off(ps, j), ps[j].re)
            else code[Off(ps, j)] !in {EXACTN, CHARSET}
  {
    hide LaidOut, Off, PartLen, BitmapAt, Get, Target, Laid, Len;
    PartHere(code, ps, j);
    if ps[j].Item? { ItemStays(code, Off(ps, j), ps[j].re); }
  }

  /** The start of a `+' is skipped, and the marks in front of its first item. */
  lemma SkipPlus(code: seq<Byte>, ps: seq<Part>, j: nat)
    requires LaidOut(code, ps) && j < |ps| && AllParts(ps) && ps[j].Several?
    ensures var body, at := UnitAt(ps, j), Off(ps, j) + 6 + FirstAt(UnitAt(ps, j));
            && SkipGroups(code, Off(ps, j)) == at < |code|
            && if FirstItem(body).Some? then ItemCode(code, at, FirstItem(body).value)
               else code[at] !in {EXACTN, CHARSET}
  {
    hide LaidOut, Off, BitmapAt, Get, Target, Laid, Len, Fixed, FirstItem, FirstAt;
    PartHere(code, ps, j);
    var body, p := UnitAt(ps, j), Off(ps, j) + 6;
    assert SkipGroups(code, Off(ps, j)) == SkipGroups(code, p);
    if IsUnit(body) {
      UnitFirst(body);
      ItemStays(code, p, body);
    } else {
      SkipFixed(code, p, body);
      var back := p + Len(body);
      assert code[back] == MAYBE_POP_JUMP && SkipGroups(code, back) == back;
    }
  }

  lemma UnitFirst(unit: Re)
    requires IsUnit(unit)
    ensures Fixed(unit) && FirstItem(unit) == Some(unit) && FirstAt(unit) == 0
  {
  }

  lemma MarkRoom(p: Part)
    ensures p.Mark? ==> PartLen(p) == 3
  {
  }

  /** What Pops comes to at the end of the loop over a one-character item at i. */
  lemma PopsHere(code: seq<Byte>, ps: seq<Part>, i: nat)
    requires LaidOut(code, ps) && i < |ps| && IsStar(ps[i])
    ensures AllParts(ps)
    ensures IsUnit(UnitAt(ps, i)) ==>
      var p1, p2 := Off(ps, i) + BodyOff(ps[i]) - 3, LookAddr(ps, i + 1);
      && ItemCode(code, p1 + 3, UnitAt(ps, i))
      && (Pops(code, BackAddr(ps, i)) <==>
            if p2 == |code| then true
            else if Get(code, p2) == EXACTN then CannotMatchChar(code, p1, Get(code, p2 + 2))
            else Get(code, p2) == CHARSET && CannotMatchSet(code, p1, p2))
    ensures !IsUnit(UnitAt(ps, i)) ==> (Pops(code, BackAddr(ps, i)) <==> LookAddr(ps, i + 1) == |code|)
  {
    hide LaidOut, Off, BitmapAt, SkipGroups, Target, Get, LookAddr, Laid, Len, Fixed;
    PartsOf(code, ps);
    PartHere(code, ps, i);
    SkipHere(code, ps, i + 1);
    if IsUnit(UnitAt(ps, i)) {
      hide CannotMatchChar, CannotMatchSet;
    } else {
      LoopHere(code, ps, i);
    }
  }

  /** At the end of a loop over a group the latest failure point is thrown away exactly where only marks are left. */
  lemma GroupDecision(code: seq<Byte>, ps: seq<Part>, i: nat)
    requires LaidOut(code, ps) && i < |ps| && IsStar(ps[i]) && AllParts(ps) && !IsUnit(UnitAt(ps, i))
    ensures Pops(code, BackAddr(ps, i)) <==> OnlyMarks(ps, i + 1)
  {
    hide LaidOut, Off, BitmapAt, SkipGroups, Pops, Get, LookAddr, Laid, Len, Fixed, BackAddr, Following;
    PopsHere(code, ps, i);
    SkipHere(code, ps, i + 1);
    EndedMarks(code, ps, i + 1);
  }

  lemma EndedMarks(code: seq<Byte>, ps: seq<Part>, j: nat)
    requires AllParts(ps) && j <= |ps|
    requires match Following(ps, j)
             case Ended => LookAddr(ps, j) == |code|
             case Must(item) => LookAddr(ps, j) < |code|
             case Other => LookAddr(ps, j) < |code|
    ensures LookAddr(ps, j) == |code| <==> OnlyMarks(ps, j)
  {
    hide LookAddr, Fixed, FirstItem;
    if !OnlyMarks(ps, j) { assert PastMarks(ps, j) < |ps|; }
  }

  lemma PartsOf(code: seq<Byte>, ps: seq<Part>)
    requires LaidOut(code, ps)
    ensures AllParts(ps)
  {
  }

  lemma ListedHere(code: seq<Byte>, p: nat, negated: bool, bits: seq<Byte>, c: Byte)
    requires ItemCode(code, p, CharSet(negated, bits)) && c < 8 * |bits|
    ensures Bit(Get(code, p + 2 + c / 8), c % 8) == InBitmap(bits, c)
  {
    MapBytes(code, p, negated, bits, c / 8);
  }

  lemma MapBytes(code: seq<Byte>, p: nat, negated: bool, bits: seq<Byte>, k: nat)
    requires ItemCode(code, p, CharSet(negated, bits)) && k < |bits|
    ensures Get(code, p + 2 + k) == bits[k]
  {
    assert BitmapAt(code, p)[k] == code[p + 2 + k];
  }

  // ---------- A literal follows ----------

  lemma CharRight(code: seq<Byte>, syn: Syntax, p1: nat, unit: Re, c: Byte)
    requires IsUnit(unit) && ItemCode(code, p1 + 3, unit)
    ensures !(unit.CharSet? && !unit.negated && |unit.bits| == 32) ==>
      CannotMatchChar(code, p1, c) ==> !Accepts(syn, unit, c)
    ensures unit.CharSet? && !unit.negated && |unit.bits| == 32 ==> CannotMatchChar(code, p1, c)
  {
    hide BitmapAt, InBitmap, Bit;
    match unit
    case Exact(ts) => {
      assert Get(code, p1 + 5) == CharOf(ts[0]) by { assert Get(code, p1 + 3 + 2 + 0) == CharOf(ts[0]); }
    }
    case CharSet(negated, bits) => {
      WidthByte(|bits|);
      if c < 8 * |bits| { ListedHere(code, p1 + 3, negated, bits, c); }
      assert c >= 8 * |bits| ==> !InBitmap(bits, c) by { Beyond(bits, c); }
    }
    case AnyChar =>
  }

  lemma Beyond(bits: seq<Byte>, c: Byte)
    ensures c >= 8 * |bits| ==> !InBitmap(bits, c)
  {
  }

  lemma WidthByte(n: nat)
    requires n <= 32
    ensures (n * 8) % 256 == if n == 32 then 0 else n * 8
  {
  }

  lemma FollowedByChar(syn: Syntax, code: seq<Byte>, p1: nat, p2: nat, unit: Re, item: Re)
    requires IsUnit(unit) && IsItem(item) && item.Exact?
    requires ItemCode(code, p1 + 3, unit) && ItemCode(code, p2, item)
    ensures (CannotMatchChar(code, p1, Get(code, p2 + 2)) ==> Apart(syn, unit, item)) <==> !WidthLost(unit, item)
  {
    hide BitmapAt, InBitmap, CannotMatchChar;
    var ch := CharOf(item.ts[0]);
    assert Get(code, p2 + 2 + 0) == ch;
    CharRight(code, syn, p1, unit, ch);
    assert Apart(syn, unit, item) <==> !Accepts(syn, unit, ch) by {
      assert Accepts(syn, unit, ch) ==> Accepts(syn, unit, ch) && Begins(syn, item, ch);
    }
  }

  // ---------- A bracket expression follows ----------

  lemma SetRight(code: seq<Byte>, syn: Syntax, p1: nat, unit: Re, p2: nat, bits: seq<Byte>, c: Byte)
    requires IsUnit(unit) && ItemCode(code, p1 + 3, unit) && ItemCode(code, p2, CharSet(false, bits)) && |bits| <= 32
    ensures unit.Exact? ==> (CannotMatchSet(code, p1, p2) <==> !InBitmap(bits, 1))
    ensures !unit.Exact? && CannotMatchSet(code, p1, p2) && InBitmap(bits, c) ==> !Accepts(syn, unit, c)
  {
    hide BitmapAt, InBitmap, Bit, ByteExcluded, ByteDisjoint;
    match unit
    case Exact(ts) => {
      Beyond(bits, 1);
      if 1 < 8 * |bits| { ListedHere(code, p2, false, bits, 1); }
    }
    case CharSet(negated, listed) => {
      if CannotMatchSet(code, p1, p2) && InBitmap(bits, c) {
        Beyond(bits, c);
        var k := c / 8;
        assert k < |bits|;
        if negated {
          assert ByteExcluded(code, p1, p2, k);
          ExcludedRight(code, p1, p2, bits, listed, c);
        } else if InBitmap(listed, c) {
          Beyond(listed, c);
          assert ByteDisjoint(code, p1, p2, k);
          ListedHere(code, p2, false, bits, c);
          ListedHere(code, p1 + 3, false, listed, c);
          NoBitInCommon(Get(code, p2 + 2 + k), Get(code, p1 + 5 + k), c % 8) by { DisjointByte(code, p1, p2, k); }
        }
      }
    }
    case AnyChar =>
  }

  lemma DisjointByte(code: seq<Byte>, p1: int, p2: int, k: nat)
    requires ByteDisjoint(code, p1, p2, k)
    ensures NoCommonBit(Get(code, p2 + 2 + k), Get(code, p1 + 5 + k))
  {
  }

  lemma NoBitInCommon(x: Byte, y: Byte, b: nat)
    requires NoCommonBit(x, y) && b < 8
    ensures !(Bit(x, b) && Bit(y, b))
  {
  }

  lemma ExcludedRight(code: seq<Byte>, p1: nat, p2: nat, bits: seq<Byte>, listed: seq<Byte>, c: Byte)
    requires ItemCode(code, p1 + 3, CharSet(true, listed)) && ItemCode(code, p2, CharSet(false, bits))
    requires c < 8 * |bits| && InBitmap(bits, c) && ByteExcluded(code, p1, p2, c / 8)
    ensures InBitmap(listed, c)
  {
    hide BitmapAt, InBitmap;
    ListedHere(code, p2, false, bits, c);
    var k := c / 8;
    assert Bit(Get(code, p2 + 2 + k), c % 8);
    NoBitInZero(c % 8);
    assert k < |listed|;
    ListedHere(code, p1 + 3, true, listed, c);
  }

  lemma NoBitInZero(b: nat)
    requires b < 8
    ensures !Bit(0, b)
  {
  }

  lemma FollowedBySet(syn: Syntax, code: seq<Byte>, p1: nat, p2: nat, unit: Re, item: Re)
    requires IsUnit(unit) && IsItem(item) && item.CharSet? && !item.negated
    requires ItemCode(code, p1 + 3, unit) && ItemCode(code, p2, item)
    ensures (CannotMatchSet(code, p1, p2) ==> Apart(syn, unit, item)) <==> !CountTaken(unit, item)
  {
    hide BitmapAt, InBitmap, CannotMatchSet;
    var bits := item.bits;
    forall c: Byte
      ensures !unit.Exact? && CannotMatchSet(code, p1, p2) && InBitmap(bits, c) ==> !Accepts(syn, unit, c)
    {
      SetRight(code, syn, p1, unit, p2, bits, c);
    }
    SetRight(code, syn, p1, unit, p2, bits, 0);
    if unit.Exact? {
      var a := CharOf(unit.ts[0]);
      assert Apart(syn, unit, item) <==> !InBitmap(bits, a) by {
        if InBitmap(bits, a) { assert Accepts(syn, unit, a) && Begins(syn, item, a); }
      }
    }
  }

  // ---------- Exactly when it is right ----------

  lemma {:induction false} YieldsPastMarks(syn: Syntax, unit: Re, ps: seq<Part>, j: nat)
    requires IsUnit(unit) && AllParts(ps) && j <= |ps|
    ensures match Following(ps, j)
            case Ended => Yields(syn, unit, ps, j)
            case Must(item) => IsItem(item) && (Yields(syn, unit, ps, j) <==> Apart(syn, unit, item))
            case Other => true
    decreases |ps| - j
  {
    hide Apart, Fixed, FirstItem;
    if j < |ps| {
      assert IsPart(ps[j]);
      if ps[j].Mark? { YieldsPastMarks(syn, unit, ps, j + 1); }
    }
  }

  /** The decision at the end of a `*' or `+' throws away only what cannot matter, except in the two misjudged cases. */
  lemma DecisionRight(syn: Syntax, code: seq<Byte>, ps: seq<Part>, i: nat)
    requires LaidOut(code, ps) && i < |ps| && IsStar(ps[i])
    ensures AllParts(ps)
    ensures (Pops(code, BackAddr(ps, i)) ==> Spares(syn, ps, i)) <==> !Misjudged(UnitAt(ps, i), Following(ps, i + 1))
  {
    hide LaidOut, Off, Pops, Get, BitmapAt, InBitmap, Apart, CannotMatchChar, CannotMatchSet, Yields, LookAddr,
         Following, BackAddr, OnlyMarks, Fixed;
    PartsOf(code, ps);
    if !IsUnit(UnitAt(ps, i)) {
      GroupDecision(code, ps, i);
      return;
    }
    PopsHere(code, ps, i);
    SkipHere(code, ps, i + 1);
    YieldsPastMarks(syn, UnitAt(ps, i), ps, i + 1);
    var unit, p1, p2 := UnitAt(ps, i), Off(ps, i) + BodyOff(ps[i]) - 3, LookAddr(ps, i + 1);
    var next := Following(ps, i + 1);
    if next.Must? {
      GetOp(code, p2, next.item);
      if next.item.Exact? {
        FollowedByChar(syn, code, p1, p2, unit, next.item);
      } else if next.item.CharSet? && !next.item.negated {
        FollowedBySet(syn, code, p1, p2, unit, next.item);
      }
    } else if next.Other? {
      GetIs(code, p2);
    }
  }

  lemma GetIs(code: seq<Byte>, p: nat)
    requires p < |code|
    ensures Get(code, p) == code[p]
  {
  }

  lemma GetOp(code: seq<Byte>, p: nat, item: Re)
    requires ItemCode(code, p, item)
    ensures p < |code| && match item
                          case Exact(_) => Get(code, p) == EXACTN
                          case AnyChar => Get(code, p) == ANYCHAR
                          case CharSet(negated, _) => Get(code, p) == if negated then CHARSET_NOT else CHARSET
                          case _ => false
  {
    hide BitmapAt;
  }

  // ---------- The longest rule ----------

  /** What a caller can check of a pattern: no loop is misjudged, and the first item that must match behind a `.*\n'
      loop cannot start with a character that `.' takes. */
  predicate WellFollowed(syn: Syntax, ps: seq<Part>)
    requires AllParts(ps)
  {
    && (forall i :: 0 <= i < |ps| && IsStar(ps[i]) ==> !Misjudged(UnitAt(ps, i), Following(ps, i + 1)))
    && (forall i :: 0 <= i < |ps| && ps[i].Dots? ==> Yields(syn, AnyChar, ps, i + 1))
  }

  /** That is exactly what makes the run of the code throw away only what cannot matter. */
  lemma WellFollowedSensible(job: Job, r: Re)
    requires UnitLoops(r) && Program(job.code, r, job.g.syn) && !job.g.syn.noBacktrack && |job.code| < MAX_OFFSET_CODE
    requires job.pos <= |job.g.text|
    ensures CourseOk(CourseOf(job, r)) && (Sensible(CourseOf(job, r)) <==> WellFollowed(job.g.syn, Parts(r)))
  {
    hide Program, Pops, BackAddr, PartCode, Yields, OnlyMarks, Misjudged, Following, Parts, LaidOut, Fixed;
    CourseFollows(job, r);
    ProgramLaidOut(job.code, r, job.g.syn);
    var ps, k := Parts(r), CourseOf(job, r);
    forall i | 0 <= i < |ps| && IsStar(ps[i])
      ensures k.pops[i] == Pops(job.code, BackAddr(ps, i))
      ensures (k.pops[i] ==> Spares(job.g.syn, ps, i)) <==> !Misjudged(UnitAt(ps, i), Following(ps, i + 1))
    {
      DecisionRight(job.g.syn, job.code, ps, i);
    }
    forall i | 0 <= i < |ps| && ps[i].Dots? ensures UnitAt(ps, i) == AnyChar && IsUnit(AnyChar) { }
  }

  /** n is what the longest rule asks a match of r at pos to return. */
  ghost predicate IsLongest(g: Input, r: Re, pos: nat, n: int) {
    forall e: nat :: Matches(g, r, pos, e) ==> n >= 0 && e <= pos + n
  }

  /** The longest rule, for every pattern whose `*' and `+' repeat one-character items or groups with no choice in them,
      with groups, alternatives and `?' of anything elsewhere, and whose loops are well followed: the matcher returns
      within a bound, and a returned length is that of the longest match, and -1 means nothing matches. */
  lemma LongestRule(job: Job, r: Re, nsub: nat, rounds: nat)
    requires UnitLoops(r) && Program(job.code, r, job.g.syn) && !job.g.syn.noBacktrack && |job.code| < MAX_OFFSET_CODE
    requires job.pos <= |job.g.text| && WellFollowed(job.g.syn, Parts(r)) && Ordered(r, nsub)
    ensures var o := Match(job, nsub, rounds); o.Finished? && o.n != -2 ==> IsLongest(job.g, r, job.pos, o.n)
    ensures CourseOk(CourseOf(job, r)) && (rounds >= Bound(job, r) ==> Match(job, nsub, rounds).Finished?)
  {
    hide Match, Matches, WellFollowed, Program, Sensible, Follows, Orderly, Longest, Run, Turns, Wanted, Ordered;
    MatchReturns(job, r, nsub, rounds);
    CourseFollows(job, r);
    WellFollowedSensible(job, r);
    var k := CourseOf(job, r);
    FirstFollows(job, k, nsub);
    FirstFine(k);
    var t := MatchTurns(job, r, nsub, rounds);
    TurnsFine(k, First(k), t);
    var o := Match(job, nsub, rounds);
    if o.Finished? && o.n != -2 { LongestMeans(k, r, o.n); }
  }

  /** A match gives what some number of turns does, unless it has no room or has not returned yet. */
  lemma MatchTurns(job: Job, r: Re, nsub: nat, rounds: nat) returns (t: nat)
    requires UnitLoops(r) && Follows(job, CourseOf(job, r)) && Ordered(r, nsub)
    requires Program(job.code, r, job.g.syn) && !job.g.syn.noBacktrack && |job.code| < MAX_OFFSET_CODE
    ensures var k := CourseOf(job, r);
            && CourseOk(k) && Orderly(k, First(k))
            && var o, u := Match(job, nsub, rounds), Turns(k, First(k), t);
               || (o == Finished(-2) && job.limit < Left(k, First(k)))
               || (if o.Finished? then u.Done? && o == Finished(u.n) else o.Running? && rounds < Bound(job, r))
  {
    hide CourseOf, Follows, Run, Turns, Left, Same, Program, Ordered, Trusted;
    var k := CourseOf(job, r);
    CourseParts(job, r);
    FirstFollows(job, k, nsub);
    assert job.pos <= |job.g.text| by { PosInText(job, k); }
    FirstTrusted(job, k, r, nsub);
    t := RunTurns(job, k, r, nsub, Initial(job, nsub), FirstLog(nsub), First(k), rounds);
  }

  lemma PosInText(job: Job, k: Course)
    requires Follows(job, k)
    ensures job.pos <= |job.g.text|
  {
  }

  lemma LongestMeans(k: Course, r: Re, n: int)
    requires CourseOk(k) && UnitLoops(r) && k.ps == Parts(r)
    ensures Longest(k, n) <==> IsLongest(k.g, r, k.pos, n)
  {
    hide Tail, Matches, Parts;
    forall e: nat ensures Wanted(k, e) <==> Matches(k.g, r, k.pos, e) { PartsMean(k.g, r, k.pos, e); }
  }
}
