/** Which groups each address of compiled code is inside, and that control enters and leaves groups only by their
    start_memory and stop_memory. */
module RegexGroups {
  import opened RegexTree
  import opened RegexCode
  import opened RegexPaths
  import opened RegexLayout
  import opened RegexGrammar

  /** The numbered groups around an address, outermost first; and a bound: groups entered from here on while in none
      have at least this number. */
  datatype Zone = Zone(open: seq<nat>, first: nat)

  /** A `*' or `+' repeats a group or something without groups, as the compiler makes them. */
  predicate AtomLoops(r: Re) {
    match r
    case Cat(a, b) => AtomLoops(a) && AtomLoops(b)
    case Alt(pre, last) => AtomLoops(pre) && AtomLoops(last)
    case Group(_, _, body) => AtomLoops(body)
    case ZeroOrMore(body, _) => AtomLoops(body) && (body.Group? || GroupCount(body) == 0)
    case OneOrMore(body, _) => AtomLoops(body) && (body.Group? || GroupCount(body) == 0)
    case Optional(body, _) => AtomLoops(body)
    case DotLine(body) => AtomLoops(body) && GroupCount(body) == 0
    case _ => true
  }

  /** The zone of pc in `r', laid out at `base' behind lo groups. */
  function ZoneOf(r: Re, lo: nat, base: nat, pc: int): Zone
    decreases r, 1
  {
    if pc >= base + Len(r) then Zone([], lo + GroupCount(r) + 1)
    else
      match r
      case Cat(a, b) =>
        if pc < base + Len(a) then ZoneOf(a, lo, base, pc) else ZoneOf(b, lo + GroupCount(a), base + Len(a), pc)
      case Alt(pre, last) =>
        if pc < base + PreLen(pre) then PreZone(pre, lo, base, pc)
        else ZoneOf(last, lo + GroupCount(pre), base + PreLen(pre), pc)
      case Group(reg, _, body) => Zone(GroupOpen(reg, body, lo, base, pc), lo + 1)
      case ZeroOrMore(body, _) => Zone(ZoneOf(body, lo, base + 3, pc).open, lo + 1)
      case OneOrMore(body, _) => Zone(ZoneOf(body, lo, base + 6, pc).open, lo + 1)
      case Optional(body, _) => ZoneOf(body, lo, base + 3, pc)
      case DotLine(body) => Zone(ZoneOf(body, lo, base + 3, pc).open, lo + 1)
      case _ => Zone([], lo + 1)
  }

  function GroupOpen(reg: nat, body: Re, lo: nat, base: nat, pc: int): seq<nat>
    decreases body, 2
  {
    if pc <= base then []
    else (if reg <= MAX_REGNUM then [reg] else []) + ZoneOf(body, lo + 1, base + MemoryLen(reg), pc).open
  }

  function PreZone(l: Re, lo: nat, base: nat, pc: int): Zone
    decreases l, 2
  {
    if l.Alt? then
      var m := base + PreLen(l.pre);
      if pc < m then PreZone(l.pre, lo, base, pc) else ZoneOf(l.last, lo + GroupCount(l.pre), m + 3, pc)
    else ZoneOf(l, lo, base + 3, pc)
  }

  lemma LenLoops(body: Re, ops: seq<Token>)
    ensures Len(ZeroOrMore(body, ops)) == 6 + Len(body) && Len(OneOrMore(body, ops)) == 9 + Len(body)
    ensures Len(DotLine(body)) == 6 + Len(body)
  {
  }

  // ---------- One level of the zones ----------

  lemma ZoneAtEnd(r: Re, lo: nat, base: nat, pc: int)
    requires pc >= base + Len(r)
    ensures ZoneOf(r, lo, base, pc) == Zone([], lo + GroupCount(r) + 1)
  {
  }

  lemma ZoneCat(a: Re, b: Re, lo: nat, base: nat, pc: int)
    ensures ZoneOf(Cat(a, b), lo, base, pc) ==
      if pc < base + Len(a) then ZoneOf(a, lo, base, pc) else ZoneOf(b, lo + GroupCount(a), base + Len(a), pc)
  {
    hide GroupCount, Len, PreLen, MemoryLen, GroupOpen, PreZone;
    LenCat(a, b);
    CountCat(a, b);
  }

  lemma CountCat(a: Re, b: Re)
    ensures GroupCount(Cat(a, b)) == GroupCount(a) + GroupCount(b)
    ensures GroupCount(Alt(a, b)) == GroupCount(a) + GroupCount(b)
  {
  }

  lemma {:induction false} ZoneAlt(pre: Re, last: Re, lo: nat, base: nat, pc: int)
    ensures ZoneOf(Alt(pre, last), lo, base, pc) ==
      if pc < base + PreLen(pre) then PreZone(pre, lo, base, pc)
      else ZoneOf(last, lo + GroupCount(pre), base + PreLen(pre), pc)
  {
    hide GroupCount, Len, PreLen, MemoryLen, GroupOpen, PreZone;
    LenAlt(pre, last);
    CountCat(pre, last);
  }

  lemma ZoneGroup(reg: nat, inner: nat, body: Re, lo: nat, base: nat, pc: int)
    requires pc < base + 2 * MemoryLen(reg) + Len(body) + DummyLen(body)
    ensures ZoneOf(Group(reg, inner, body), lo, base, pc) == Zone(GroupOpen(reg, body, lo, base, pc), lo + 1)
  {
  }

  lemma ZoneZeroOrMore(body: Re, ops: seq<Token>, lo: nat, base: nat, pc: int)
    requires pc < base + 6 + Len(body)
    ensures ZoneOf(ZeroOrMore(body, ops), lo, base, pc) == Zone(ZoneOf(body, lo, base + 3, pc).open, lo + 1)
  {
  }

  lemma ZoneOneOrMore(body: Re, ops: seq<Token>, lo: nat, base: nat, pc: int)
    requires pc < base + 9 + Len(body)
    ensures ZoneOf(OneOrMore(body, ops), lo, base, pc) == Zone(ZoneOf(body, lo, base + 6, pc).open, lo + 1)
  {
  }

  lemma ZoneOptional(body: Re, ops: seq<Token>, lo: nat, base: nat, pc: int)
    ensures ZoneOf(Optional(body, ops), lo, base, pc) == ZoneOf(body, lo, base + 3, pc)
  {
  }

  lemma ZoneDotLine(body: Re, lo: nat, base: nat, pc: int)
    requires pc < base + 6 + Len(body)
    ensures ZoneOf(DotLine(body), lo, base, pc) == Zone(ZoneOf(body, lo, base + 3, pc).open, lo + 1)
  {
  }

  lemma ZoneLeaf(r: Re, lo: nat, base: nat, pc: int)
    requires pc < base + Len(r) && !r.Cat? && !r.Alt? && !r.Group? && !r.ZeroOrMore? && !r.OneOrMore? && !r.Optional?
    requires !r.DotLine?
    ensures ZoneOf(r, lo, base, pc) == Zone([], lo + 1)
  {
  }

  lemma {:induction false} PreZoneIs(l: Re, lo: nat, base: nat, pc: int)
    ensures PreZone(l, lo, base, pc) ==
      if l.Alt? then
        var m := base + PreLen(l.pre);
        if pc < m then PreZone(l.pre, lo, base, pc) else ZoneOf(l.last, lo + GroupCount(l.pre), m + 3, pc)
      else ZoneOf(l, lo, base + 3, pc)
  {
    hide GroupCount, ZoneOf;
  }

  // ---------- What zones are like ----------

  predicate Rising(open: seq<nat>, lo: nat, hi: nat) {
    && (forall i, j :: 0 <= i < j < |open| ==> open[i] < open[j])
    && (forall i :: 0 <= i < |open| ==> lo < open[i] <= hi && open[i] <= MAX_REGNUM)
  }

  lemma RisingWithin(open: seq<nat>, lo: nat, hi: nat, lo2: nat, hi2: nat)
    requires Rising(open, lo, hi) && lo2 <= lo && hi <= hi2
    ensures Rising(open, lo2, hi2)
  {
  }

  /** In front of a tree's code and behind it no group of the tree is open. */
  lemma {:induction false} NoneOpen(r: Re, lo: nat, base: nat, pc: int)
    requires pc <= base || pc >= base + Len(r)
    ensures ZoneOf(r, lo, base, pc).open == []
    decreases r, 1
  {
    hide Len, PreLen, ZoneOf, GroupCount;
    if pc >= base + Len(r) {
      ZoneAtEnd(r, lo, base, pc);
    } else {
      match r
      case Cat(a, b) => {
        ZoneCat(a, b, lo, base, pc);
        if pc < base + Len(a) {
          NoneOpen(a, lo, base, pc);
        } else {
          NoneOpen(b, lo + GroupCount(a), base + Len(a), pc);
        }
      }
      case Alt(pre, last) => {
        ZoneAlt(pre, last, lo, base, pc);
        if pc < base + PreLen(pre) { NoneOpenPre(pre, lo, base, pc); }
        else { NoneOpen(last, lo + GroupCount(pre), base + PreLen(pre), pc); }
      }
      case ZeroOrMore(body, ops) => {
        LenLoops(body, ops);
        ZoneZeroOrMore(body, ops, lo, base, pc);
        NoneOpen(body, lo, base + 3, pc);
      }
      case OneOrMore(body, ops) => {
        LenLoops(body, ops);
        ZoneOneOrMore(body, ops, lo, base, pc);
        NoneOpen(body, lo, base + 6, pc);
      }
      case Optional(body, ops) => {
        ZoneOptional(body, ops, lo, base, pc);
        NoneOpen(body, lo, base + 3, pc);
      }
      case DotLine(body) => {
        LenLoops(body, []);
        ZoneDotLine(body, lo, base, pc);
        NoneOpen(body, lo, base + 3, pc);
      }
      case Group(reg, inner, body) => {
        LenGroup(reg, inner, body);
        ZoneGroup(reg, inner, body, lo, base, pc);
      }
      case _ => ZoneLeaf(r, lo, base, pc);
    }
  }

  lemma {:induction false} NoneOpenPre(l: Re, lo: nat, base: nat, pc: int)
    requires pc <= base || pc >= base + PreLen(l) - 3
    ensures PreZone(l, lo, base, pc).open == []
    decreases l, 2
  {
    hide Len, ZoneOf;
    if l.Alt? {
      var m := base + PreLen(l.pre);
      if pc < m { NoneOpenPre(l.pre, lo, base, pc); } else { NoneOpen(l.last, lo + GroupCount(l.pre), m + 3, pc); }
    } else {
      NoneOpen(l, lo, base + 3, pc);
    }
  }

  predicate ZoneFits(z: Zone, lo: nat, n: nat) {
    && Rising(z.open, lo, lo + n) && lo + 1 <= z.first <= lo + n + 1
    && (z.open != [] ==> z.first <= z.open[0])
  }

  /** The numbers of open groups rise inwards, and lie behind those of the groups in front of the tree. */
  lemma {:induction false} ZoneIsFit(r: Re, lo: nat, base: nat, pc: int)
    requires Numbered(r, lo)
    ensures ZoneFits(ZoneOf(r, lo, base, pc), lo, GroupCount(r))
    decreases r, 1
  {
    hide Len, PreLen, Rising, ZoneOf;
    RisingNone(lo, lo + GroupCount(r));
    if pc >= base + Len(r) {
      ZoneAtEnd(r, lo, base, pc);
    } else {
      match r
      case Cat(a, b) => {
        ZoneCat(a, b, lo, base, pc);
        var z := ZoneOf(r, lo, base, pc);
        if pc < base + Len(a) {
          ZoneIsFit(a, lo, base, pc);
          RisingWithin(z.open, lo, lo + GroupCount(a), lo, lo + GroupCount(r));
        } else {
          ZoneIsFit(b, lo + GroupCount(a), base + Len(a), pc);
          RisingWithin(z.open, lo + GroupCount(a), lo + GroupCount(r), lo, lo + GroupCount(r));
        }
      }
      case Alt(pre, last) => {
        ZoneAlt(pre, last, lo, base, pc);
        var z := ZoneOf(r, lo, base, pc);
        if pc < base + PreLen(pre) {
          PreZoneFit(pre, lo, base, pc);
          RisingWithin(z.open, lo, lo + GroupCount(pre), lo, lo + GroupCount(r));
        } else {
          ZoneIsFit(last, lo + GroupCount(pre), base + PreLen(pre), pc);
          RisingWithin(z.open, lo + GroupCount(pre), lo + GroupCount(r), lo, lo + GroupCount(r));
        }
      }
      case Group(reg, inner, body) => {
        LenGroup(reg, inner, body);
        ZoneGroup(reg, inner, body, lo, base, pc);
        GroupOpenFit(reg, body, lo, base, pc);
      }
      case ZeroOrMore(body, ops) => {
        LenLoops(body, ops);
        ZoneZeroOrMore(body, ops, lo, base, pc);
        ZoneIsFit(body, lo, base + 3, pc);
      }
      case OneOrMore(body, ops) => {
        LenLoops(body, ops);
        ZoneOneOrMore(body, ops, lo, base, pc);
        ZoneIsFit(body, lo, base + 6, pc);
      }
      case Optional(body, ops) => {
        ZoneOptional(body, ops, lo, base, pc);
        ZoneIsFit(body, lo, base + 3, pc);
      }
      case DotLine(body) => {
        LenLoops(body, []);
        ZoneDotLine(body, lo, base, pc);
        ZoneIsFit(body, lo, base + 3, pc);
      }
      case _ => ZoneLeaf(r, lo, base, pc);
    }
  }

  lemma RisingNone(lo: nat, hi: nat)
    ensures Rising([], lo, hi)
  {
  }

  lemma {:induction false} GroupOpenFit(reg: nat, body: Re, lo: nat, base: nat, pc: int)
    requires reg == lo + 1 && Numbered(body, lo + 1)
    ensures var open := GroupOpen(reg, body, lo, base, pc);
            Rising(open, lo, lo + 1 + GroupCount(body)) && (open != [] ==> lo + 1 <= open[0])
    decreases body, 2
  {
    hide ZoneOf, Rising, Numbered, GroupCount, GroupOpen;
    GroupOpenIs(reg, body, lo, base, pc);
    ZoneIsFit(body, lo + 1, base + MemoryLen(reg), pc);
    var open, hi := ZoneOf(body, lo + 1, base + MemoryLen(reg), pc).open, lo + 1 + GroupCount(body);
    RisingNone(lo, hi);
    if reg <= MAX_REGNUM {
      RisingFront(open, reg, lo, hi);
    } else {
      RisingWithin(open, lo + 1, hi, lo, hi);
      if open != [] { RisingFirst(open, lo, hi); }
    }
  }

  lemma GroupOpenIs(reg: nat, body: Re, lo: nat, base: nat, pc: int)
    ensures var open := ZoneOf(body, lo + 1, base + MemoryLen(reg), pc).open;
            GroupOpen(reg, body, lo, base, pc)
            == if pc <= base then [] else if reg <= MAX_REGNUM then [reg] + open else open
  {
    hide ZoneOf;
  }

  lemma RisingFirst(open: seq<nat>, lo: nat, hi: nat)
    requires Rising(open, lo, hi) && open != []
    ensures lo < open[0] <= hi
  {
  }

  lemma RisingFront(open: seq<nat>, reg: nat, lo: nat, hi: nat)
    requires Rising(open, lo + 1, hi) && reg == lo + 1 <= MAX_REGNUM && reg <= hi
    ensures Rising([reg] + open, lo, hi)
  {
    var all := [reg] + open;
    assert forall i :: 1 <= i < |all| ==> all[i] == open[i - 1];
  }

  lemma {:induction false} PreZoneFit(l: Re, lo: nat, base: nat, pc: int)
    requires Numbered(l, lo)
    ensures ZoneFits(PreZone(l, lo, base, pc), lo, GroupCount(l))
    decreases l, 2
  {
    hide PreLen, Rising, ZoneOf;
    if l.Alt? {
      var m := base + PreLen(l.pre);
      CountCat(l.pre, l.last);
      var z := PreZone(l, lo, base, pc);
      if pc < m {
        PreZoneFit(l.pre, lo, base, pc);
        RisingWithin(z.open, lo, lo + GroupCount(l.pre), lo, lo + GroupCount(l));
      } else {
        ZoneIsFit(l.last, lo + GroupCount(l.pre), m + 3, pc);
        RisingWithin(z.open, lo + GroupCount(l.pre), lo + GroupCount(l), lo, lo + GroupCount(l));
      }
    } else {
      ZoneIsFit(l, lo, base + 3, pc);
    }
  }

  // ---------- Control and zones ----------

  /** What a move from pc, between these zones, does to the open groups. */
  predicate Crosses(code: seq<Byte>, pc: int, z: Zone, z2: Zone) {
    && z.first <= z2.first
    && if Get(code, pc) == START_MEMORY then
         z2.open == z.open + [Get(code, pc + 1)] && (z.open == [] ==> z.first == Get(code, pc + 1))
       else if Get(code, pc) == STOP_MEMORY then z.open == z2.open + [Get(code, pc + 1)]
       else z2.open == z.open
  }

  /** A fork's two ways, by what is bounded behind them. */
  predicate ForkFirst(code: seq<Byte>, pc: int, pc2: int, behind: Zone, z2: Zone) {
    IsFork(Get(code, pc)) && pc2 == Target(code, pc) ==> behind.first <= z2.first
  }

  lemma {:induction false} BeforeFirst(r: Re, lo: nat, base: nat, pc: int)
    requires pc < base
    ensures ZoneOf(r, lo, base, pc).first == lo + 1
    decreases r, 1
  {
    hide Len, PreLen, GroupCount;
    match r
    case Cat(a, _) => BeforeFirst(a, lo, base, pc);
    case Alt(pre, _) => BeforeFirstPre(pre, lo, base, pc);
    case Optional(body, _) => BeforeFirst(body, lo, base + 3, pc);
    case _ =>
  }

  lemma {:induction false} BeforeFirstPre(l: Re, lo: nat, base: nat, pc: int)
    requires pc < base + 3
    ensures PreZone(l, lo, base, pc).first == lo + 1
    decreases l, 2
  {
    hide Len, GroupCount, ZoneOf;
    if l.Alt? { BeforeFirstPre(l.pre, lo, base, pc); } else { BeforeFirst(l, lo, base + 3, pc); }
  }

  /** Every move keeps control in the same groups, but for the marks that open and close one. */
  lemma {:induction false} NextZone(code: seq<Byte>, r: Re, lo: nat, base: nat, pc: int, pc2: int)
    requires Laid(code, base, r) && Sized(r) && |code| < MAX_OFFSET_CODE && Numbered(r, lo) && AtomLoops(r)
    requires Depth(r, base, pc) >= 0 && pc < base + Len(r) && Next(code, pc, pc2)
    ensures Crosses(code, pc, ZoneOf(r, lo, base, pc), ZoneOf(r, lo, base, pc2))
    ensures ForkFirst(code, pc, pc2, ZoneOf(r, lo, base, pc + 3), ZoneOf(r, lo, base, pc2))
    decreases r, 1
  {
    hide ZoneOf, Crosses, ForkFirst, Len, Depth, Laid, Next;
    match r
    case Cat(a, b) => CatZone(code, a, b, lo, base, pc, pc2);
    case Alt(pre, last) => AltZone(code, pre, last, lo, base, pc, pc2);
    case Group(reg, inner, body) => GroupZone(code, reg, inner, body, lo, base, pc, pc2);
    case ZeroOrMore(body, ops) => StarZone(code, body, ops, lo, base, pc, pc2);
    case OneOrMore(body, ops) => PlusZone(code, body, ops, lo, base, pc, pc2);
    case Optional(body, ops) => OptionalZone(code, body, ops, lo, base, pc, pc2);
    case DotLine(body) => DotLineZone(code, body, lo, base, pc, pc2);
    case _ => LeafZone(code, r, lo, base, pc, pc2);
  }

  lemma {:induction false} LeafZone(code: seq<Byte>, r: Re, lo: nat, base: nat, pc: int, pc2: int)
    requires !r.Cat? && !r.Alt? && !r.Group? && !r.ZeroOrMore? && !r.OneOrMore? && !r.Optional? && !r.DotLine?
    requires Laid(code, base, r) && Sized(r) && |code| < MAX_OFFSET_CODE
    requires Depth(r, base, pc) >= 0 && pc < base + Len(r) && Next(code, pc, pc2)
    ensures Crosses(code, pc, ZoneOf(r, lo, base, pc), ZoneOf(r, lo, base, pc2))
    ensures ForkFirst(code, pc, pc2, ZoneOf(r, lo, base, pc + 3), ZoneOf(r, lo, base, pc2))
  {
    match r
    case Dummy => LaidByte(code, base, r);
    case AnyChar => LaidByte(code, base, r);
    case Exact(ts) => LaidExact(code, base, ts);
    case CharSet(negated, bits) => LaidSet(code, base, negated, bits);
    case _ =>
  }

  lemma {:induction false} CatZone(code: seq<Byte>, a: Re, b: Re, lo: nat, base: nat, pc: int, pc2: int)
    requires Laid(code, base, Cat(a, b)) && Sized(a) && Sized(b) && |code| < MAX_OFFSET_CODE
    requires Numbered(Cat(a, b), lo) && AtomLoops(a) && AtomLoops(b)
    requires Depth(Cat(a, b), base, pc) >= 0 && pc < base + Len(Cat(a, b)) && Next(code, pc, pc2)
    ensures Crosses(code, pc, ZoneOf(Cat(a, b), lo, base, pc), ZoneOf(Cat(a, b), lo, base, pc2))
    ensures ForkFirst(code, pc, pc2, ZoneOf(Cat(a, b), lo, base, pc + 3), ZoneOf(Cat(a, b), lo, base, pc2))
    decreases Cat(a, b), 0
  {
    hide ZoneOf, Len, Depth, Laid, Next, Sized, AtomLoops, GroupCount, Target;
    LenCat(a, b);
    DepthBounds(Cat(a, b), base, pc);
    LaidCat(code, base, a, b);
    DepthCat(a, b, base, pc);
    ZoneCat(a, b, lo, base, pc);
    ZoneCat(a, b, lo, base, pc2);
    ZoneCat(a, b, lo, base, pc + 3);
    var mid, lo2 := base + Len(a), lo + GroupCount(a);
    if pc < mid {
      NextZone(code, a, lo, base, pc, pc2);
      NextBoundary(code, a, base, pc, pc2);
      DepthBounds(a, base, pc2);
      if pc2 == mid {
        ZoneAtEnd(a, lo, base, mid);
        NoneOpen(b, lo2, mid, mid);
        ZoneIsFit(b, lo2, mid, mid);
      }
      if IsFork(Get(code, pc)) { ForkAhead(code, a, lo, base, pc); }
    } else {
      NextZone(code, b, lo2, mid, pc, pc2);
      NextBoundary(code, b, mid, pc, pc2);
      DepthBounds(b, mid, pc2);
    }
  }

  /** Forks lead forward. */
  lemma ForkAhead(code: seq<Byte>, r: Re, lo: nat, base: nat, pc: int)
    requires Laid(code, base, r) && Sized(r) && |code| < MAX_OFFSET_CODE && Numbered(r, lo)
    requires Depth(r, base, pc) >= 0 && pc < base + Len(r) && IsFork(Get(code, pc))
    ensures Target(code, pc) >= pc + 3
  {
    hide Depth, Len, Laid, Sized, Numbered;
    NumberedWithin(r, lo, lo + GroupCount(r));
    Opcode(code, r, base, pc, lo + GroupCount(r), pc);
  }

  function Around(reg: nat): seq<nat> { if reg <= MAX_REGNUM then [reg] else [] }

  /** The zones of a group: in front of it, inside it, and behind it. */
  lemma GroupZoneAt(reg: nat, inner: nat, body: Re, lo: nat, base: nat, pc: int)
    ensures var r, m, open := Group(reg, inner, body), base + MemoryLen(reg), ZoneOf(body, lo + 1,
              base + MemoryLen(reg), pc).open;
            && (m <= pc < base + Len(r) ==> ZoneOf(r, lo, base, pc) == Zone(Around(reg) + open, lo + 1))
            && (pc == base < m ==> ZoneOf(r, lo, base, pc) == Zone([], lo + 1))
            && (pc >= base + Len(r) ==> ZoneOf(r, lo, base, pc) == Zone([], lo + 2 + GroupCount(body)))
            && (pc < base + Len(r) ==> ZoneOf(r, lo, base, pc).first == lo + 1)
  {
    hide ZoneOf, Len, GroupCount;
    var r := Group(reg, inner, body);
    LenGroup(reg, inner, body);
    assert GroupCount(r) == 1 + GroupCount(body) by { CountGroup(reg, inner, body); }
    if pc >= base + Len(r) {
      ZoneAtEnd(r, lo, base, pc);
    } else {
      ZoneGroup(reg, inner, body, lo, base, pc);
      if pc == base { NoneOpen(body, lo + 1, base + MemoryLen(reg), pc); }
    }
  }

  lemma CountGroup(reg: nat, inner: nat, body: Re)
    ensures GroupCount(Group(reg, inner, body)) == 1 + GroupCount(body)
  {
  }

  lemma {:induction false} GroupZone(code: seq<Byte>, reg: nat, inner: nat, body: Re, lo: nat, base: nat, pc: int,
                                     pc2: int)
    requires Laid(code, base, Group(reg, inner, body)) && Sized(body) && |code| < MAX_OFFSET_CODE
    requires reg == lo + 1 && Numbered(body, lo + 1) && AtomLoops(body)
    requires var r := Group(reg, inner, body); Depth(r, base, pc) >= 0 && pc < base + Len(r) && Next(code, pc, pc2)
    ensures var r := Group(reg, inner, body);
            && Crosses(code, pc, ZoneOf(r, lo, base, pc), ZoneOf(r, lo, base, pc2))
            && ForkFirst(code, pc, pc2, ZoneOf(r, lo, base, pc + 3), ZoneOf(r, lo, base, pc2))
    decreases body, 3
  {
    hide ZoneOf, Len, Depth, Laid, Next, Sized, AtomLoops, GroupCount, Target, Crosses, GroupOpen, Numbered, IsFork;
    var r := Group(reg, inner, body);
    LenGroup(reg, inner, body);
    DepthBounds(r, base, pc);
    GroupZoneAt(reg, inner, body, lo, base, pc);
    GroupZoneAt(reg, inner, body, lo, base, pc2);
    GroupZoneAt(reg, inner, body, lo, base, pc + 3);
    var m := base + MemoryLen(reg);
    LaidGroup(code, base, reg, inner, body);
    DepthGroup(reg, inner, body, base, pc);
    if m <= pc < m + Len(body) {
      NextZone(code, body, lo + 1, m, pc, pc2);
      NextBoundary(code, body, m, pc, pc2);
      DepthBounds(body, m, pc2);
      if IsFork(Get(code, pc)) { ForkAhead(code, body, lo + 1, m, pc); }
      var y, y2 := ZoneOf(body, lo + 1, m, pc), ZoneOf(body, lo + 1, m, pc2);
      NoStartHigh(code, body, lo + 1, m, pc, pc2);
      if pc2 == base + Len(r) { NoneOpen(body, lo + 1, m, pc2); }
      InsidePiece(code, pc, ZoneOf(r, lo, base, pc), ZoneOf(r, lo, base, pc2), y, y2, Around(reg));
    } else {
      NoneOpen(body, lo + 1, m, pc);
      MarkMoves(code, reg, inner, body, base, pc, pc2);
      NoneOpen(body, lo + 1, m, pc2);
      MarkCrosses(code, pc, ZoneOf(r, lo, base, pc), ZoneOf(r, lo, base, pc2), reg, Get(code, pc));
    }
  }

  /** A body somewhere in a larger piece, with the same groups around. */
  lemma InsidePiece(code: seq<Byte>, pc: int, z: Zone, z2: Zone, y: Zone, y2: Zone, around: seq<nat>)
    requires Crosses(code, pc, y, y2) && z.open == around + y.open && z2.open == around + y2.open && z.first <= z2.first
    requires Get(code, pc) == START_MEMORY && z.open == [] ==> z.first == y.first
    ensures Crosses(code, pc, z, z2)
  {
  }

  /** A group that has no register has no marked group in it. */
  lemma NoStartHigh(code: seq<Byte>, body: Re, lo: nat, base: nat, pc: int, pc2: int)
    requires Numbered(body, lo) && Crosses(code, pc, ZoneOf(body, lo, base, pc), ZoneOf(body, lo, base, pc2))
    ensures lo > MAX_REGNUM ==> Get(code, pc) != START_MEMORY
  {
    hide ZoneOf, Numbered, GroupCount;
    ZoneIsFit(body, lo, base, pc2);
    LastWithin(ZoneOf(body, lo, base, pc2).open, lo, lo + GroupCount(body));
  }

  lemma LastWithin(open: seq<nat>, lo: nat, hi: nat)
    requires Rising(open, lo, hi)
    ensures open != [] ==> lo < open[|open| - 1] <= MAX_REGNUM
  {
  }

  /** What a group adds to its body: marks, and a dummy. */
  lemma MarkMoves(code: seq<Byte>, reg: nat, inner: nat, body: Re, base: nat, pc: int, pc2: int)
    requires Laid(code, base, Group(reg, inner, body)) && |code| < MAX_OFFSET_CODE && Next(code, pc, pc2)
    requires Depth(Group(reg, inner, body), base, pc) >= 0 && pc < base + Len(Group(reg, inner, body))
    requires var m := base + MemoryLen(reg); !(m <= pc < m + Len(body))
    ensures var m, op := base + MemoryLen(reg), Get(code, pc);
            var stop := m + Len(body) + DummyLen(body);
            || (reg <= MAX_REGNUM && pc == base && op == START_MEMORY && Get(code, pc + 1) == reg && pc2 == m)
            || (pc == stop - 1 == m + Len(body) && op == PUSH_DUMMY_FAILURE && pc2 == stop)
            || (reg <= MAX_REGNUM && pc == stop && op == STOP_MEMORY && Get(code, pc + 1) == reg && pc2 == stop + 3)
  {
    hide Depth, Len, Laid, MemoryCode;
    LenGroup(reg, inner, body);
    LaidGroup(code, base, reg, inner, body);
    DepthBounds(Group(reg, inner, body), base, pc);
    DepthGroup(reg, inner, body, base, pc);
    var m := base + MemoryLen(reg);
    var stop := m + Len(body) + DummyLen(body);
    if pc < m {
      MemoryBytes(code, base, START_MEMORY, reg, inner);
    } else if pc < stop {
      assert [PUSH_DUMMY_FAILURE][0] == code[pc + 0];
    } else {
      MemoryBytes(code, stop, STOP_MEMORY, reg, inner);
    }
  }

  lemma MarkCrosses(code: seq<Byte>, pc: int, z: Zone, z2: Zone, reg: nat, op: Byte)
    requires op == Get(code, pc) && z.first <= z2.first
    requires op == START_MEMORY ==> z.open == [] && z2.open == [reg] && Get(code, pc + 1) == reg && z.first == reg
    requires op == STOP_MEMORY ==> z.open == [reg] && z2.open == [] && Get(code, pc + 1) == reg
    requires op != START_MEMORY && op != STOP_MEMORY ==> z2.open == z.open
    ensures Crosses(code, pc, z, z2)
  {
  }

  /** What a `*' or `+' makes of its body's zones. */
  lemma LoopZone(body: Re, ops: seq<Token>, lo: nat, base: nat, pc: int)
    ensures var r := ZeroOrMore(body, ops);
            ZoneOf(r, lo, base, pc)
            == Zone(ZoneOf(body, lo, base + 3, pc).open, if pc < base + 6 + Len(body) then lo + 1
                    else lo + GroupCount(body) + 1)
    ensures var r := OneOrMore(body, ops);
            ZoneOf(r, lo, base, pc)
            == Zone(ZoneOf(body, lo, base + 6, pc).open, if pc < base + 9 + Len(body) then lo + 1
                    else lo + GroupCount(body) + 1)
    ensures ZoneOf(DotLine(body), lo, base, pc)
            == Zone(ZoneOf(body, lo, base + 3, pc).open, if pc < base + 6 + Len(body) then lo + 1
                    else lo + GroupCount(body) + 1)
  {
    hide ZoneOf, Len, GroupCount;
    LenLoops(body, ops);
    LenLoops(body, []);
    CountLoops(body, ops);
    if pc < base + 6 + Len(body) { ZoneZeroOrMore(body, ops, lo, base, pc); ZoneDotLine(body, lo, base, pc); }
    else { ZoneAtEnd(ZeroOrMore(body, ops), lo, base, pc); ZoneAtEnd(DotLine(body), lo, base, pc);
           NoneOpen(body, lo, base + 3, pc); }
    if pc < base + 9 + Len(body) { ZoneOneOrMore(body, ops, lo, base, pc); }
    else { ZoneAtEnd(OneOrMore(body, ops), lo, base, pc); NoneOpen(body, lo, base + 6, pc); }
  }

  lemma CountLoops(body: Re, ops: seq<Token>)
    ensures GroupCount(ZeroOrMore(body, ops)) == GroupCount(OneOrMore(body, ops)) == GroupCount(DotLine(body))
            == GroupCount(body)
  {
  }

  /** A loop over a group, or over something without groups, starts where its body's groups do. */
  lemma AtomFirst(body: Re, lo: nat, base: nat, pc: int)
    requires Numbered(body, lo) && (body.Group? || GroupCount(body) == 0) && pc < base + Len(body)
    ensures ZoneOf(body, lo, base, pc).first == lo + 1
  {
    hide ZoneOf, Numbered, Len, GroupCount;
    ZoneIsFit(body, lo, base, pc);
    if body.Group? { GroupZoneAt(body.reg, body.inner, body.body, lo, base, pc); }
  }

  /** Inside a loop's body, and at its jumps. */
  lemma {:induction false} LoopCrosses(code: seq<Byte>, body: Re, lo: nat, base: nat, pc: int, pc2: int, z: Zone,
                                       z2: Zone)
    requires Laid(code, base, body) && Sized(body) && |code| < MAX_OFFSET_CODE && Numbered(body, lo) && AtomLoops(body)
    requires body.Group? || GroupCount(body) == 0
    requires Next(code, pc, pc2) && z.first == lo + 1 <= z2.first
    requires z.open == ZoneOf(body, lo, base, pc).open && z2.open == ZoneOf(body, lo, base, pc2).open
    requires if Depth(body, base, pc) >= 0 && pc < base + Len(body) then true
             else (pc <= base || pc >= base + Len(body)) && (pc2 <= base || pc2 >= base + Len(body))
                  && Get(code, pc) != START_MEMORY && Get(code, pc) != STOP_MEMORY
    ensures Crosses(code, pc, z, z2)
    decreases body, 2
  {
    hide ZoneOf, Len, Depth, Laid, Next, Sized, AtomLoops, GroupCount, Target, Numbered, Crosses;
    if Depth(body, base, pc) >= 0 && pc < base + Len(body) {
      NextZone(code, body, lo, base, pc, pc2);
      AtomFirst(body, lo, base, pc);
      InsidePiece(code, pc, z, z2, ZoneOf(body, lo, base, pc), ZoneOf(body, lo, base, pc2), []);
    } else {
      NoneOpen(body, lo, base, pc);
      NoneOpen(body, lo, base, pc2);
      MarkCrosses(code, pc, z, z2, 0, Get(code, pc));
    }
  }

  lemma {:induction false} StarZone(code: seq<Byte>, body: Re, ops: seq<Token>, lo: nat, base: nat, pc: int, pc2: int)
    requires Laid(code, base, ZeroOrMore(body, ops)) && Sized(body) && |code| < MAX_OFFSET_CODE && Numbered(body, lo)
    requires AtomLoops(body) && (body.Group? || GroupCount(body) == 0)
    requires var r := ZeroOrMore(body, ops); Depth(r, base, pc) >= 0 && pc < base + Len(r) && Next(code, pc, pc2)
    ensures var r := ZeroOrMore(body, ops);
            && Crosses(code, pc, ZoneOf(r, lo, base, pc), ZoneOf(r, lo, base, pc2))
            && ForkFirst(code, pc, pc2, ZoneOf(r, lo, base, pc + 3), ZoneOf(r, lo, base, pc2))
    decreases body, 3
  {
    hide ZoneOf, Len, Depth, Laid, Next, Sized, AtomLoops, GroupCount, Target, Crosses, Numbered, JumpAt, BodyDepth;
    var r := ZeroOrMore(body, ops);
    LenLoops(body, ops);
    DepthBounds(r, base, pc);
    LaidZeroOrMore(code, base, body, ops);
    DepthZeroOrMore(body, ops, base, pc);
    NextZeroOrMore(code, body, ops, base, pc, pc2);
    DepthBounds(r, base, pc2);
    LoopZone(body, ops, lo, base, pc);
    LoopZone(body, ops, lo, base, pc2);
    LoopZone(body, ops, lo, base, pc + 3);
    BodyEnds(body, base + 3, pc);
    if pc == base {
      JumpMoves(code, pc, pc2, ON_FAILURE_JUMP, Len(body) + 3);
    } else if pc < base + 3 + Len(body) {
      BodyStays(code, body, lo, base + 3, pc, pc2);
    } else {
      JumpMoves(code, pc, pc2, MAYBE_POP_JUMP, -(Len(body) + 6));
    }
    LoopCrosses(code, body, lo, base + 3, pc, pc2, ZoneOf(r, lo, base, pc), ZoneOf(r, lo, base, pc2));
  }

  lemma JumpMoves(code: seq<Byte>, pc: int, pc2: int, op: Byte, offset: int)
    requires pc >= 0 && JumpAt(code, pc, op, offset) && 0 <= pc + 3 + offset <= |code| < MAX_OFFSET_CODE
    requires IsPlainJump(op) || IsFork(op)
    requires Next(code, pc, pc2)
    ensures Get(code, pc) == op && Target(code, pc) == pc + 3 + offset
    ensures pc2 == pc + 3 + offset || (IsFork(op) && pc2 == pc + 3) || (op == JUMP && pc2 == pc + offset)
    ensures !IsFork(op) ==> !IsFork(Get(code, pc))
  {
    hide JumpAt, Target;
    NextJump(code, pc, pc2, op, offset);
    JumpByte(code, pc, op, offset);
  }

  /** Forks in a loop's body stay in it, and so does all other control. */
  lemma {:induction false} BodyStays(code: seq<Byte>, body: Re, lo: nat, base: nat, pc: int, pc2: int)
    requires Laid(code, base, body) && Sized(body) && |code| < MAX_OFFSET_CODE && Numbered(body, lo)
    requires BodyDepth(body, base, pc) >= 0 && pc < base + Len(body) && Next(code, pc, pc2)
    ensures Depth(body, base, pc) >= 0 && base <= pc2 <= base + Len(body)
    ensures IsFork(Get(code, pc)) && pc2 == Target(code, pc) ==> pc + 3 <= pc2
  {
    hide Depth, Len, Laid, Sized, Numbered, Next, Target, IsFork;
    NextBody(code, body, base, pc, pc2);
    if IsFork(Get(code, pc)) { ForkAhead(code, body, lo, base, pc); }
  }

  lemma {:induction false} PlusZone(code: seq<Byte>, body: Re, ops: seq<Token>, lo: nat, base: nat, pc: int, pc2: int)
    requires Laid(code, base, OneOrMore(body, ops)) && Sized(body) && |code| < MAX_OFFSET_CODE && Numbered(body, lo)
    requires AtomLoops(body) && (body.Group? || GroupCount(body) == 0)
    requires var r := OneOrMore(body, ops); Depth(r, base, pc) >= 0 && pc < base + Len(r) && Next(code, pc, pc2)
    ensures var r := OneOrMore(body, ops);
            && Crosses(code, pc, ZoneOf(r, lo, base, pc), ZoneOf(r, lo, base, pc2))
            && ForkFirst(code, pc, pc2, ZoneOf(r, lo, base, pc + 3), ZoneOf(r, lo, base, pc2))
    decreases body, 3
  {
    hide ZoneOf, Len, Depth, Laid, Next, Sized, AtomLoops, GroupCount, Target, Crosses, Numbered, JumpAt, BodyDepth;
    var r := OneOrMore(body, ops);
    LenLoops(body, ops);
    DepthBounds(r, base, pc);
    LaidOneOrMore(code, base, body, ops);
    DepthOneOrMore(body, ops, base, pc);
    NextOneOrMore(code, body, ops, base, pc, pc2);
    DepthBounds(r, base, pc2);
    LoopZone(body, ops, lo, base, pc);
    LoopZone(body, ops, lo, base, pc2);
    LoopZone(body, ops, lo, base, pc + 3);
    BodyEnds(body, base + 6, pc);
    if pc == base {
      JumpMoves(code, pc, pc2, DUMMY_FAILURE_JUMP, 3);
    } else if pc == base + 3 {
      JumpMoves(code, pc, pc2, ON_FAILURE_JUMP, Len(body) + 3);
    } else if pc < base + 6 + Len(body) {
      BodyStays(code, body, lo, base + 6, pc, pc2);
    } else {
      JumpMoves(code, pc, pc2, MAYBE_POP_JUMP, -(Len(body) + 6));
    }
    LoopCrosses(code, body, lo, base + 6, pc, pc2, ZoneOf(r, lo, base, pc), ZoneOf(r, lo, base, pc2));
  }

  lemma {:induction false} DotLineZone(code: seq<Byte>, body: Re, lo: nat, base: nat, pc: int, pc2: int)
    requires Laid(code, base, DotLine(body)) && Sized(body) && |code| < MAX_OFFSET_CODE && Numbered(body, lo)
    requires AtomLoops(body) && GroupCount(body) == 0
    requires var r := DotLine(body); Depth(r, base, pc) >= 0 && pc < base + Len(r) && Next(code, pc, pc2)
    ensures var r := DotLine(body);
            && Crosses(code, pc, ZoneOf(r, lo, base, pc), ZoneOf(r, lo, base, pc2))
            && ForkFirst(code, pc, pc2, ZoneOf(r, lo, base, pc + 3), ZoneOf(r, lo, base, pc2))
    decreases body, 3
  {
    hide ZoneOf, Len, Depth, Laid, Next, Sized, AtomLoops, GroupCount, Target, Crosses, Numbered, JumpAt, BodyDepth;
    var r := DotLine(body);
    LenLoops(body, []);
    DepthBounds(r, base, pc);
    LaidDotLine(code, base, body);
    DepthDotLine(body, base, pc);
    NextDotLine(code, body, base, pc, pc2);
    DepthBounds(r, base, pc2);
    LoopZone(body, [], lo, base, pc);
    LoopZone(body, [], lo, base, pc2);
    LoopZone(body, [], lo, base, pc + 3);
    BodyEnds(body, base + 3, pc);
    if pc == base {
      JumpMoves(code, pc, pc2, ON_FAILURE_KEEP_STRING_JUMP, Len(body) + 3);
    } else if pc < base + 3 + Len(body) {
      BodyStays(code, body, lo, base + 3, pc, pc2);
    } else {
      JumpMoves(code, pc, pc2, JUMP, -(Len(body) + 3));
    }
    LoopCrosses(code, body, lo, base + 3, pc, pc2, ZoneOf(r, lo, base, pc), ZoneOf(r, lo, base, pc2));
  }

  lemma {:induction false} OptionalZone(code: seq<Byte>, body: Re, ops: seq<Token>, lo: nat, base: nat, pc: int,
                                        pc2: int)
    requires Laid(code, base, Optional(body, ops)) && Sized(body) && |code| < MAX_OFFSET_CODE && Numbered(body, lo)
    requires AtomLoops(body)
    requires var r := Optional(body, ops); Depth(r, base, pc) >= 0 && pc < base + Len(r) && Next(code, pc, pc2)
    ensures var r := Optional(body, ops);
            && Crosses(code, pc, ZoneOf(r, lo, base, pc), ZoneOf(r, lo, base, pc2))
            && ForkFirst(code, pc, pc2, ZoneOf(r, lo, base, pc + 3), ZoneOf(r, lo, base, pc2))
    decreases body, 3
  {
    hide ZoneOf, Len, Depth, Laid, Next, Sized, AtomLoops, GroupCount, Target, Crosses, Numbered, JumpAt;
    var r := Optional(body, ops);
    LenOptional(body, ops);
    DepthBounds(r, base, pc);
    LaidOptional(code, base, body, ops);
    DepthOptional(body, ops, base, pc);
    ZoneOptional(body, ops, lo, base, pc);
    ZoneOptional(body, ops, lo, base, pc2);
    ZoneOptional(body, ops, lo, base, pc + 3);
    if pc == base {
      JumpMoves(code, pc, pc2, ON_FAILURE_JUMP, Len(body));
      ForkZone(code, body, lo, base, pc, pc2);
    } else {
      DepthBounds(body, base + 3, pc);
      NextZone(code, body, lo, base + 3, pc, pc2);
    }
  }

  /** In front of a piece lies the fork over it. */
  lemma ForkZone(code: seq<Byte>, body: Re, lo: nat, base: nat, pc: int, pc2: int)
    requires Numbered(body, lo) && pc == base && Get(code, pc) == ON_FAILURE_JUMP
    requires pc2 == base + 3 || pc2 >= base + 3 + Len(body)
    ensures Crosses(code, pc, ZoneOf(body, lo, base + 3, pc), ZoneOf(body, lo, base + 3, pc2))
    ensures pc2 >= base + 3 + Len(body) ==>
      ZoneOf(body, lo, base + 3, pc + 3).first <= ZoneOf(body, lo, base + 3, pc2).first
  {
    hide ZoneOf, Numbered, GroupCount, Len;
    NoneOpen(body, lo, base + 3, pc);
    NoneOpen(body, lo, base + 3, pc2);
    BeforeFirst(body, lo, base + 3, pc);
    ZoneIsFit(body, lo, base + 3, pc2);
    ZoneIsFit(body, lo, base + 3, pc + 3);
    if pc2 >= base + 3 + Len(body) { ZoneAtEnd(body, lo, base + 3, pc2); }
  }

  lemma {:induction false} AltZone(code: seq<Byte>, pre: Re, last: Re, lo: nat, base: nat, pc: int, pc2: int)
    requires Laid(code, base, Alt(pre, last)) && Sized(pre) && Sized(last) && |code| < MAX_OFFSET_CODE
    requires Numbered(Alt(pre, last), lo) && AtomLoops(pre) && AtomLoops(last)
    requires var r := Alt(pre, last); Depth(r, base, pc) >= 0 && pc < base + Len(r) && Next(code, pc, pc2)
    ensures var r := Alt(pre, last);
            && Crosses(code, pc, ZoneOf(r, lo, base, pc), ZoneOf(r, lo, base, pc2))
            && ForkFirst(code, pc, pc2, ZoneOf(r, lo, base, pc + 3), ZoneOf(r, lo, base, pc2))
    decreases Alt(pre, last), 0
  {
    hide ZoneOf, PreZone, Len, PreLen, Depth, PreDepth, Laid, Next, Sized, AtomLoops, GroupCount, Target, JumpAt,
         PreCode;
    LenAlt(pre, last);
    DepthBounds(Alt(pre, last), base, pc);
    LaidAlt(code, base, pre, last);
    DepthAlt(pre, last, base, pc);
    var mid, lo2 := base + PreLen(pre), lo + GroupCount(pre);
    ZoneAlt(pre, last, lo, base, pc);
    ZoneAlt(pre, last, lo, base, pc2);
    ZoneAlt(pre, last, lo, base, pc + 3);
    if pc < mid {
      PreDepthBounds(pre, base, pc);
      NoneOpen(last, lo2, mid, mid);
      ZoneIsFit(last, lo2, mid, mid);
      PreZoneFit(pre, lo, base, pc);
      PreZoneFit(pre, lo, base, pc + 3);
      if pc < mid - 3 {
        PreNextZone(code, pre, lo, base, pc, pc2);
      } else {
        JumpMoves(code, pc, pc2, JUMP_PAST_ALT, Len(last));
        NoneOpenPre(pre, lo, base, pc);
        ZoneAtEnd(last, lo2, mid, pc2);
      }
    } else {
      NextZone(code, last, lo2, mid, pc, pc2);
      NextBoundary(code, last, mid, pc, pc2);
      DepthBounds(last, mid, pc2);
    }
  }

  /** Control in leading alternatives stays there, or goes to what is behind them. */
  lemma {:induction false} PreNextZone(code: seq<Byte>, l: Re, lo: nat, base: nat, pc: int, pc2: int)
    requires At(code, base, PreCode(l)) && base + PreLen(l) <= |code| < MAX_OFFSET_CODE && Sized(l)
    requires Numbered(l, lo) && AtomLoops(l)
    requires PreDepth(l, base, pc) >= 0 && base <= pc < base + PreLen(l) - 3 && Next(code, pc, pc2)
    ensures base <= pc2 <= base + PreLen(l) - 3 || pc2 == base + PreLen(l)
    ensures pc2 != base + PreLen(l) ==>
      && Crosses(code, pc, PreZone(l, lo, base, pc), PreZone(l, lo, base, pc2))
      && ForkFirst(code, pc, pc2, PreZone(l, lo, base, pc + 3), PreZone(l, lo, base, pc2))
    ensures pc2 == base + PreLen(l) ==>
      && PreZone(l, lo, base, pc).open == [] && Get(code, pc) != START_MEMORY && Get(code, pc) != STOP_MEMORY
    decreases l, 2
  {
    hide ZoneOf, PreZone, Len, PreLen, Depth, PreDepth, Laid, Next, GroupCount, Target, JumpAt, PreCode, Crosses;
    NextPre(code, l, base, pc, pc2);
    PreZoneIs(l, lo, base, pc);
    PreZoneIs(l, lo, base, pc2);
    PreZoneIs(l, lo, base, pc + 3);
    if l.Alt? {
      PreLenOfAlt(l.pre, l.last);
      PreAltZone(code, l.pre, l.last, lo, base, pc, pc2);
    } else {
      PreOfBranch(code, base, l);
      PreDepthBranch(l, base, pc);
      if pc == base {
        JumpMoves(code, pc, pc2, ON_FAILURE_JUMP, Len(l) + 3);
        NoneOpen(l, lo, base + 3, pc);
        if pc2 == base + 3 { ForkZone(code, l, lo, base, pc, pc2); }
      } else {
        NextZone(code, l, lo, base + 3, pc, pc2);
        NextBoundary(code, l, base + 3, pc, pc2);
        DepthBounds(l, base + 3, pc2);
      }
    }
  }

  lemma {:induction false} PreAltZone(code: seq<Byte>, pre: Re, last: Re, lo: nat, base: nat, pc: int, pc2: int)
    requires var l := Alt(pre, last);
             && At(code, base, PreCode(l)) && Sized(pre) && Sized(last) && Numbered(l, lo)
             && base + PreLen(pre) + 6 + Len(last) <= |code| < MAX_OFFSET_CODE
             && PreDepth(l, base, pc) >= 0 && base <= pc < base + PreLen(pre) + 3 + Len(last) && Next(code, pc, pc2)
             && (base <= pc2 <= base + PreLen(pre) + 3 + Len(last) || pc2 == base + PreLen(pre) + 6 + Len(last))
    requires AtomLoops(pre) && AtomLoops(last)
    ensures var l, end := Alt(pre, last), base + PreLen(pre) + 6 + Len(last);
            && (pc2 != end ==>
                  && Crosses(code, pc, PreZone(l, lo, base, pc), PreZone(l, lo, base, pc2))
                  && ForkFirst(code, pc, pc2, PreZone(l, lo, base, pc + 3), PreZone(l, lo, base, pc2)))
            && (pc2 == end ==>
                  PreZone(l, lo, base, pc).open == [] && Get(code, pc) != START_MEMORY && Get(code, pc) != STOP_MEMORY)
    decreases Alt(pre, last), 1
  {
    hide ZoneOf, PreZone, Len, PreLen, Depth, PreDepth, Laid, Next, Sized, AtomLoops, GroupCount, Target, JumpAt,
         PreCode;
    PreOfAlt(code, base, pre, last);
    PreDepthAlt(pre, last, base, pc);
    var l, m, lo2 := Alt(pre, last), base + PreLen(pre), lo + GroupCount(pre);
    PreZoneIs(l, lo, base, pc);
    PreZoneIs(l, lo, base, pc2);
    PreZoneIs(l, lo, base, pc + 3);
    if pc < m {
      PreDepthBounds(pre, base, pc);
      PreZoneFit(pre, lo, base, pc);
      PreZoneFit(pre, lo, base, pc + 3);
      if pc < m - 3 {
        PreNextZone(code, pre, lo, base, pc, pc2);
        if pc2 == m { NoneOpen(last, lo2, m + 3, pc2); ZoneIsFit(last, lo2, m + 3, pc2); }
      } else {
        JumpMoves(code, pc, pc2, JUMP_PAST_ALT, Len(last) + 3);
        NoneOpenPre(pre, lo, base, pc);
        NoneOpen(last, lo2, m + 3, pc2);
        ZoneIsFit(last, lo2, m + 3, pc2);
      }
    } else if pc == m {
      JumpMoves(code, pc, pc2, ON_FAILURE_JUMP, Len(last) + 3);
      NoneOpen(last, lo2, m + 3, pc);
      if pc2 == m + 3 { ForkZone(code, last, lo2, m, pc, pc2); }
    } else {
      NextZone(code, last, lo2, m + 3, pc, pc2);
      NextBoundary(code, last, m + 3, pc, pc2);
      DepthBounds(last, m + 3, pc2);
    }
  }
}
