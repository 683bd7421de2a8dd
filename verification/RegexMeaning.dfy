/** What is left to match at the start of a pattern's parts is the pattern's language. */
module RegexMeaning {
  import RegexCode
  import opened RegexTree
  import opened RegexPaths
  import opened RegexParts
  import opened RegexTurns
  import opened RegexLongest

  lemma PartsOfCat(a: Re, b: Re)
    requires UnitLoops(Cat(a, b))
    ensures UnitLoops(a) && UnitLoops(b) && Parts(Cat(a, b)) == Parts(a) + Parts(b)
  {
  }

  lemma PartsOfAlt(pre: Re, last: Re)
    requires UnitLoops(Alt(pre, last))
    ensures UnitLoops(pre) && UnitLoops(last)
    ensures Parts(Alt(pre, last)) == PreParts(pre) + [Goto(|Parts(last)|)] + Parts(last)
  {
  }

  lemma PartsOfGroup(reg: nat, inner: nat, body: Re)
    requires UnitLoops(Group(reg, inner, body))
    ensures UnitLoops(body)
    ensures Parts(Group(reg, inner, body)) == Marks(START, reg) + Parts(body) + Blanks(body) + Marks(STOP, reg)
  {
  }

  /** A member of the language, and then what is left behind the pattern's parts. */
  lemma {:induction false} TailOfMatch(g: Input, r: Re, ps: seq<Part>, from: nat, i: nat, j: nat, e: nat)
    requires UnitLoops(r) && AllParts(ps) && Holds(ps, from, Parts(r)) && Matches(g, r, i, j)
    requires Tail(g, ps, from + |Parts(r)|, j, e)
    ensures Tail(g, ps, from, i, e)
    decreases r, 1
  {
    hide Holds, Tail, Matches, Repeats, ItemTakes, Parts, PreParts, UnitLoops;
    match r
    case Cat(a, b) => { PartsOfCat(a, b); CatOfMatch(g, a, b, ps, from, i, j, e); }
    case Alt(pre, last) => { PartsOfAlt(pre, last); AltOfMatch(g, pre, last, ps, from, i, j, e); }
    case Group(reg, inner, body) => {
      PartsOfGroup(reg, inner, body);
      MatchesGroup(g, reg, inner, body, i, j);
      GroupOfMatch(g, reg, body, ps, from, i, j, e);
    }
    case Optional(body, ops) => {
      MatchesOptional(g, body, ops, i, j);
      OptionalOfMatch(g, body, ops, ps, from, i, j, e);
    }
    case _ => PartOfMatch(g, r, ps, from, i, j, e);
  }

  lemma {:induction false} CatOfMatch(g: Input, a: Re, b: Re, ps: seq<Part>, from: nat, i: nat, j: nat, e: nat)
    requires UnitLoops(a) && UnitLoops(b) && AllParts(ps) && Holds(ps, from, Parts(a) + Parts(b))
    requires Matches(g, Cat(a, b), i, j) && Tail(g, ps, from + |Parts(a)| + |Parts(b)|, j, e)
    ensures Tail(g, ps, from, i, e)
    decreases Cat(a, b), 0
  {
    hide Holds, Tail, Matches, Repeats, ItemTakes, Parts, UnitLoops;
    HoldsConcat(ps, from, Parts(a), Parts(b));
    var k := CatSplit(g, a, b, i, j);
    TailOfMatch(g, b, ps, from + |Parts(a)|, k, j, e);
    TailOfMatch(g, a, ps, from, i, k, e);
  }

  lemma {:induction false} OptionalOfMatch(g: Input, body: Re, ops: seq<Token>, ps: seq<Part>, from: nat, i: nat,
                                           j: nat, e: nat)
    requires UnitLoops(Optional(body, ops)) && AllParts(ps) && Holds(ps, from, Parts(Optional(body, ops)))
    requires i == j || Matches(g, body, i, j)
    requires Tail(g, ps, from + |Parts(Optional(body, ops))|, j, e)
    ensures Tail(g, ps, from, i, e)
    decreases body, 2
  {
    hide Holds, Tail, Matches, Repeats, ItemTakes;
    if IsUnit(body) {
      HoldsOne(ps, from, Maybe(body));
      TailIs(g, ps, from, i, e);
      if i != j { ItemMatches(g, body, i, j); }
    } else {
      var n := |Parts(body)|;
      HoldsConcat(ps, from, [Fork(n)], Parts(body));
      HoldsOne(ps, from, Fork(n));
      TailIs(g, ps, from, i, e);
      if i != j { TailOfMatch(g, body, ps, from + 1, i, j, e); }
    }
  }

  lemma {:induction false} PartOfMatch(g: Input, r: Re, ps: seq<Part>, from: nat, i: nat, j: nat, e: nat)
    requires UnitLoops(r) && AllParts(ps) && Holds(ps, from, Parts(r)) && Matches(g, r, i, j)
    requires !r.Cat? && !r.Alt? && !r.Group? && !r.Optional?
    requires Tail(g, ps, from + |Parts(r)|, j, e)
    ensures Tail(g, ps, from, i, e)
  {
    hide Holds, Tail, ItemTakes, Fixed, Span, Takes, Repeats;
    match r
    case Empty =>
    case Ignored(_) =>
    case Dummy => { HoldsOne(ps, from, Blank); TailIs(g, ps, from, i, e); }
    case ZeroOrMore(body, _) => {
      HoldsOne(ps, from, Many(body));
      TailIs(g, ps, from, i, e);
      RepeatsTaken(g, body, i, j);
      LoopIntro(g, ps, from, i, j, e);
    }
    case DotLine(body) => {
      HoldsOne(ps, from, Dots);
      TailIs(g, ps, from, i, e);
      RepeatsTaken(g, body, i, j);
      LoopIntro(g, ps, from, i, j, e);
    }
    case OneOrMore(body, ops) => {
      HoldsOne(ps, from, Several(body));
      TailIs(g, ps, from, i, e);
      PlusOfMatch(g, body, ops, ps, from, i, j, e);
    }
    case _ => {
      HoldsOne(ps, from, Item(r));
      TailIs(g, ps, from, i, e);
      ItemMatches(g, r, i, j);
    }
  }

  lemma PlusOfMatch(g: Input, body: Re, ops: seq<Token>, ps: seq<Part>, from: nat, i: nat, j: nat, e: nat)
    requires IsBody(body) && AllParts(ps) && from < |ps| && ps[from] == Several(body)
    requires Matches(g, OneOrMore(body, ops), i, j) && Tail(g, ps, from + 1, j, e)
    ensures LoopTail(g, ps, from, 1, i, e)
  {
    hide Tail, ItemTakes, Fixed, Span, Takes, Repeats, Matches, AllTaken;
    BodyFixed(body);
    var m := OneOrMoreSplit(g, body, ops, i, j);
    RepeatsTaken(g, body, i, m);
    FixedMatches(g, body, m, j);
    OneThenAll(g, body, i, m);
    LoopIntro(g, ps, from, i + Span(body), j, e);
    LoopTake(g, ps, from, i, e);
  }

  /** Rounds and then one more are one round and then the others. */
  lemma OneThenAll(g: Input, body: Re, i: nat, m: nat)
    requires IsBody(body) && Fixed(body) && AllTaken(g, body, i, m) && Takes(g, body, m)
    ensures Takes(g, body, i) && AllTaken(g, body, i + Span(body), m + Span(body))
  {
    hide Fixed, Span, Takes;
    TakesBounds(g, body, m);
    if i < m { TakenMore(g, body, i + Span(body), m); }
  }

  /** The other way round: the last round can be told from those before. */
  lemma {:induction false} AllThenOne(g: Input, body: Re, i: nat, j: nat) returns (m: nat)
    requires IsBody(body) && Fixed(body) && Takes(g, body, i) && AllTaken(g, body, i + Span(body), j)
    ensures i <= m && j == m + Span(body) && AllTaken(g, body, i, m) && Takes(g, body, m)
    decreases j - i
  {
    hide Fixed, Span, Takes;
    TakesBounds(g, body, i);
    TakenEnd(g, body, i + Span(body), j);
    m := i;
    if i + Span(body) < j {
      m := AllThenOne(g, body, i + Span(body), j);
    }
  }

  /** Over the marks of a group and the dummy behind alternatives. */
  lemma TailOverMarks(g: Input, ps: seq<Part>, from: nat, qs: seq<Part>, d: nat, e: nat)
    requires AllParts(ps) && Holds(ps, from, qs) && |qs| <= 1 && (|qs| == 1 ==> qs[0].Mark? || qs[0].Blank?)
    ensures Tail(g, ps, from, d, e) <==> Tail(g, ps, from + |qs|, d, e)
  {
    hide Tail, Holds;
    if |qs| == 1 {
      assert qs == [qs[0]];
      HoldsOne(ps, from, qs[0]);
      TailIs(g, ps, from, d, e);
    }
  }

  /** The parts of a group are those of its body but for marks. */
  lemma GroupParts(g: Input, reg: nat, body: Re, ps: seq<Part>, from: nat, d: nat, e: nat)
    requires UnitLoops(body) && AllParts(ps)
    requires Holds(ps, from, Marks(START, reg) + Parts(body) + Blanks(body) + Marks(STOP, reg))
    ensures var m := from + |Marks(START, reg)|;
            && Holds(ps, m, Parts(body))
            && (Tail(g, ps, from, d, e) <==> Tail(g, ps, m, d, e))
            && (Tail(g, ps, m + |Parts(body)|, d, e) <==>
                  Tail(g, ps, from + |Marks(START, reg) + Parts(body) + Blanks(body) + Marks(STOP, reg)|, d, e))
  {
    hide Tail, Holds, Parts;
    var a, b, c, z := Marks(START, reg), Parts(body), Blanks(body), Marks(STOP, reg);
    HoldsConcat(ps, from, a + b + c, z);
    HoldsConcat(ps, from, a + b, c);
    HoldsConcat(ps, from, a, b);
    TailOverMarks(g, ps, from, a, d, e);
    TailOverMarks(g, ps, from + |a + b|, c, d, e);
    TailOverMarks(g, ps, from + |a + b + c|, z, d, e);
  }

  const START := RegexCode.START_MEMORY
  const STOP := RegexCode.STOP_MEMORY

  lemma {:induction false} GroupOfMatch(g: Input, reg: nat, body: Re, ps: seq<Part>, from: nat, i: nat, j: nat, e: nat)
    requires UnitLoops(body) && AllParts(ps) && Matches(g, body, i, j)
    requires Holds(ps, from, Marks(START, reg) + Parts(body) + Blanks(body) + Marks(STOP, reg))
    requires Tail(g, ps, from + |Marks(START, reg) + Parts(body) + Blanks(body) + Marks(STOP, reg)|, j, e)
    ensures Tail(g, ps, from, i, e)
    decreases body, 2
  {
    hide Tail, Holds, Parts, Matches;
    GroupParts(g, reg, body, ps, from, i, e);
    GroupParts(g, reg, body, ps, from, j, e);
    TailOfMatch(g, body, ps, from + |Marks(START, reg)|, i, j, e);
  }

  lemma {:induction false} AltOfMatch(g: Input, pre: Re, last: Re, ps: seq<Part>, from: nat, i: nat, j: nat, e: nat)
    requires UnitLoops(pre) && UnitLoops(last) && AllParts(ps) && Matches(g, Alt(pre, last), i, j)
    requires Holds(ps, from, PreParts(pre) + [Goto(|Parts(last)|)] + Parts(last))
    requires Tail(g, ps, from + |PreParts(pre) + [Goto(|Parts(last)|)] + Parts(last)|, j, e)
    ensures Tail(g, ps, from, i, e)
    decreases Alt(pre, last), 0
  {
    hide Tail, Holds, Parts, PreParts, Matches;
    var n, mid := |Parts(last)|, from + |PreParts(pre)|;
    MatchesAlt(g, pre, last, i, j);
    HoldsConcat(ps, from, PreParts(pre) + [Goto(n)], Parts(last));
    HoldsConcat(ps, from, PreParts(pre), [Goto(n)]);
    HoldsOne(ps, mid, Goto(n));
    if Matches(g, pre, i, j) {
      PreOfMatch(g, pre, ps, from, i, j, e);
    } else {
      TailOfMatch(g, last, ps, mid + 1, i, j, e);
      PreSkip(g, pre, ps, from, i, e);
    }
  }

  /** Leading alternatives, in front of the jump past the others. */
  lemma {:induction false} PreOfMatch(g: Input, l: Re, ps: seq<Part>, from: nat, i: nat, j: nat, e: nat)
    requires UnitLoops(l) && AllParts(ps) && Holds(ps, from, PreParts(l)) && Matches(g, l, i, j)
    requires var to := from + |PreParts(l)|; to < |ps| && ps[to].Goto? && Tail(g, ps, to + 1 + ps[to].over, j, e)
    ensures Tail(g, ps, from, i, e)
    decreases l, 2
  {
    hide Tail, Holds, Parts, PreParts, Matches;
    var to := from + |PreParts(l)|;
    PrePartsOf(l);
    TailIs(g, ps, to, j, e);
    if l.Alt? {
      PreAltHolds(l.pre, l.last, ps, from);
      var n, mid := |Parts(l.last)|, from + |PreParts(l.pre)|;
      MatchesAlt(g, l.pre, l.last, i, j);
      if Matches(g, l.pre, i, j) {
        PreOfMatch(g, l.pre, ps, from, i, j, e);
      } else {
        TailOfMatch(g, l.last, ps, mid + 2, i, j, e);
        TailIs(g, ps, mid + 1, i, e);
        PreSkip(g, l.pre, ps, from, i, e);
      }
    } else {
      var n := |Parts(l)|;
      HoldsConcat(ps, from, [Fork(n + 1)], Parts(l));
      HoldsOne(ps, from, Fork(n + 1));
      TailOfMatch(g, l, ps, from + 1, i, j, e);
      TailIs(g, ps, from, i, e);
    }
  }

  lemma PreAltHolds(pre: Re, last: Re, ps: seq<Part>, from: nat)
    requires UnitLoops(pre) && UnitLoops(last) && Holds(ps, from, PreParts(Alt(pre, last)))
    ensures var n, mid := |Parts(last)|, from + |PreParts(pre)|;
            && Holds(ps, from, PreParts(pre)) && mid + 1 < |ps| && ps[mid] == Goto(n + 1) && ps[mid + 1] == Fork(n + 1)
            && Holds(ps, mid + 2, Parts(last)) && from + |PreParts(Alt(pre, last))| == mid + 2 + n
  {
    hide Holds, Parts, PreParts;
    var n := |Parts(last)|;
    PrePartsOf(Alt(pre, last));
    HoldsBetween(ps, from, PreParts(pre), Goto(n + 1), Fork(n + 1), Parts(last));
  }

  /** Past leading alternatives to the one behind them. */
  lemma {:induction false} PreSkip(g: Input, l: Re, ps: seq<Part>, from: nat, i: nat, e: nat)
    requires UnitLoops(l) && AllParts(ps) && Holds(ps, from, PreParts(l)) && Tail(g, ps, from + |PreParts(l)| + 1, i, e)
    ensures Tail(g, ps, from, i, e)
    decreases l
  {
    hide Tail, Holds, Parts, PreParts;
    PrePartsOf(l);
    if l.Alt? {
      PreAltHolds(l.pre, l.last, ps, from);
      TailIs(g, ps, from + |PreParts(l.pre)| + 1, i, e);
      PreSkip(g, l.pre, ps, from, i, e);
    } else {
      HoldsConcat(ps, from, [Fork(|Parts(l)| + 1)], Parts(l));
      HoldsOne(ps, from, Fork(|Parts(l)| + 1));
      TailIs(g, ps, from, i, e);
    }
  }

  // ---------- The other direction ----------

  lemma {:induction false} MatchOfTail(g: Input, r: Re, ps: seq<Part>, from: nat, i: nat, e: nat) returns (j: nat)
    requires UnitLoops(r) && AllParts(ps) && Holds(ps, from, Parts(r)) && i <= |g.text| && Tail(g, ps, from, i, e)
    ensures Matches(g, r, i, j) && Tail(g, ps, from + |Parts(r)|, j, e)
    decreases r, 1
  {
    hide Holds, Tail, Matches, Repeats, ItemTakes, Parts, PreParts, UnitLoops;
    match r
    case Cat(a, b) => { PartsOfCat(a, b); j := MatchOfCat(g, a, b, ps, from, i, e); }
    case Alt(pre, last) => { PartsOfAlt(pre, last); j := MatchOfAlt(g, pre, last, ps, from, i, e); }
    case Group(reg, inner, body) => {
      PartsOfGroup(reg, inner, body);
      GroupParts(g, reg, body, ps, from, i, e);
      j := MatchOfTail(g, body, ps, from + |Marks(START, reg)|, i, e);
      GroupParts(g, reg, body, ps, from, j, e);
      MatchesGroup(g, reg, inner, body, i, j);
    }
    case Optional(body, ops) => {
      j := MatchOfOptional(g, body, ops, ps, from, i, e);
      MatchesOptional(g, body, ops, i, j);
    }
    case _ => { j := MatchOfPart(g, r, ps, from, i, e); }
  }

  lemma {:induction false} MatchOfCat(g: Input, a: Re, b: Re, ps: seq<Part>, from: nat, i: nat, e: nat)
    returns (j: nat)
    requires UnitLoops(a) && UnitLoops(b) && AllParts(ps) && Holds(ps, from, Parts(a) + Parts(b)) && i <= |g.text|
             && Tail(g, ps, from, i, e)
    ensures Matches(g, Cat(a, b), i, j) && Tail(g, ps, from + |Parts(a)| + |Parts(b)|, j, e)
    decreases Cat(a, b), 0
  {
    hide Holds, Tail, Matches, Repeats, ItemTakes, Parts, UnitLoops;
    HoldsConcat(ps, from, Parts(a), Parts(b));
    var k := MatchOfTail(g, a, ps, from, i, e);
    MatchBounds(g, a, i, k);
    j := MatchOfTail(g, b, ps, from + |Parts(a)|, k, e);
    MatchBounds(g, b, k, j);
    MatchesCat(g, a, b, i, k, j);
  }

  lemma {:induction false} MatchOfOptional(g: Input, body: Re, ops: seq<Token>, ps: seq<Part>, from: nat, i: nat,
                                           e: nat) returns (j: nat)
    requires UnitLoops(Optional(body, ops)) && AllParts(ps) && Holds(ps, from, Parts(Optional(body, ops)))
    requires i <= |g.text| && Tail(g, ps, from, i, e)
    ensures i <= j <= |g.text| && (i == j || Matches(g, body, i, j))
    ensures Tail(g, ps, from + |Parts(Optional(body, ops))|, j, e)
    decreases body, 2
  {
    hide Holds, Tail, Matches, Repeats, ItemTakes;
    if IsUnit(body) {
      HoldsOne(ps, from, Maybe(body));
      TailIs(g, ps, from, i, e);
      j := if Tail(g, ps, from + 1, i, e) then i else i + 1;
      ItemMatches(g, body, i, i + 1);
      if j != i { TakesOne(g, body, i); }
    } else {
      var n := |Parts(body)|;
      HoldsConcat(ps, from, [Fork(n)], Parts(body));
      HoldsOne(ps, from, Fork(n));
      TailIs(g, ps, from, i, e);
      if Tail(g, ps, from + 1, i, e) {
        j := MatchOfTail(g, body, ps, from + 1, i, e);
        MatchBounds(g, body, i, j);
      } else {
        j := i;
      }
    }
  }

  lemma {:induction false} MatchOfPart(g: Input, r: Re, ps: seq<Part>, from: nat, i: nat, e: nat) returns (j: nat)
    requires UnitLoops(r) && AllParts(ps) && Holds(ps, from, Parts(r)) && i <= |g.text| && Tail(g, ps, from, i, e)
    requires !r.Cat? && !r.Alt? && !r.Group? && !r.Optional?
    ensures Matches(g, r, i, j) && Tail(g, ps, from + |Parts(r)|, j, e)
  {
    hide Holds, Tail, ItemTakes, Fixed, Span, Takes, Repeats;
    j := if IsItem(r) then i + Width(r) else i;
    match r
    case Empty =>
    case Ignored(_) =>
    case Dummy => { HoldsOne(ps, from, Blank); TailIs(g, ps, from, i, e); }
    case ZeroOrMore(body, _) => {
      HoldsOne(ps, from, Many(body));
      TailIs(g, ps, from, i, e);
      j := LoopElim(g, ps, from, i, e);
      RepeatsTaken(g, body, i, j);
    }
    case DotLine(body) => {
      HoldsOne(ps, from, Dots);
      TailIs(g, ps, from, i, e);
      j := LoopElim(g, ps, from, i, e);
      RepeatsTaken(g, body, i, j);
    }
    case OneOrMore(body, ops) => {
      HoldsOne(ps, from, Several(body));
      TailIs(g, ps, from, i, e);
      j := MatchOfPlus(g, body, ops, ps, from, i, e);
    }
    case _ => {
      HoldsOne(ps, from, Item(r));
      TailIs(g, ps, from, i, e);
      ItemMatches(g, r, i, j);
    }
  }

  lemma MatchOfPlus(g: Input, body: Re, ops: seq<Token>, ps: seq<Part>, from: nat, i: nat, e: nat) returns (j: nat)
    requires IsBody(body) && AllParts(ps) && from < |ps| && ps[from] == Several(body) && LoopTail(g, ps, from, 1, i, e)
    ensures Matches(g, OneOrMore(body, ops), i, j) && Tail(g, ps, from + 1, j, e)
  {
    hide Tail, ItemTakes, Fixed, Span, Takes, Repeats, Matches, AllTaken, LoopTail;
    LoopTake(g, ps, from, i, e);
    j := LoopElim(g, ps, from, i + Span(UnitAt(ps, from)), e);
    var m := AllThenOne(g, body, i, j);
    RepeatsTaken(g, body, i, m);
    FixedMatches(g, body, m, j);
    MatchesOneOrMore(g, body, ops, i, m, j);
  }

  lemma {:induction false} MatchOfAlt(g: Input, pre: Re, last: Re, ps: seq<Part>, from: nat, i: nat, e: nat)
          returns (j: nat)
    requires UnitLoops(pre) && UnitLoops(last) && AllParts(ps) && i <= |g.text| && Tail(g, ps, from, i, e)
    requires Holds(ps, from, PreParts(pre) + [Goto(|Parts(last)|)] + Parts(last))
    ensures Matches(g, Alt(pre, last), i, j)
    ensures Tail(g, ps, from + |PreParts(pre) + [Goto(|Parts(last)|)] + Parts(last)|, j, e)
    decreases Alt(pre, last), 0
  {
    hide Tail, Holds, Parts, PreParts, Matches;
    var n, mid := |Parts(last)|, from + |PreParts(pre)|;
    HoldsConcat(ps, from, PreParts(pre) + [Goto(n)], Parts(last));
    HoldsConcat(ps, from, PreParts(pre), [Goto(n)]);
    HoldsOne(ps, mid, Goto(n));
    var found;
    found, j := MatchOfPre(g, pre, ps, from, i, e);
    if !found { j := MatchOfTail(g, last, ps, mid + 1, i, e); }
    MatchesAlt(g, pre, last, i, j);
  }

  lemma {:induction false} MatchOfPre(g: Input, l: Re, ps: seq<Part>, from: nat, i: nat, e: nat)
          returns (found: bool, j: nat)
    requires UnitLoops(l) && AllParts(ps) && Holds(ps, from, PreParts(l)) && i <= |g.text| && Tail(g, ps, from, i, e)
    requires var to := from + |PreParts(l)|; to < |ps| && ps[to].Goto?
    ensures var to := from + |PreParts(l)|;
            if found then Matches(g, l, i, j) && Tail(g, ps, to + 1 + ps[to].over, j, e) else Tail(g, ps, to + 1, i, e)
    decreases l, 2
  {
    hide Tail, Holds, Parts, PreParts, Matches;
    var to := from + |PreParts(l)|;
    PrePartsOf(l);
    found, j := true, i;
    if l.Alt? {
      PreAltHolds(l.pre, l.last, ps, from);
      var mid := from + |PreParts(l.pre)|;
      found, j := MatchOfPre(g, l.pre, ps, from, i, e);
      if !found {
        TailIs(g, ps, mid + 1, i, e);
        if Tail(g, ps, mid + 2, i, e) {
          found := true;
          j := MatchOfTail(g, l.last, ps, mid + 2, i, e);
        }
      }
      MatchesAlt(g, l.pre, l.last, i, j);
    } else {
      var n := |Parts(l)|;
      HoldsConcat(ps, from, [Fork(n + 1)], Parts(l));
      HoldsOne(ps, from, Fork(n + 1));
      TailIs(g, ps, from, i, e);
      if Tail(g, ps, from + 1, i, e) { j := MatchOfTail(g, l, ps, from + 1, i, e); } else { found := false; }
    }
    TailIs(g, ps, to, j, e);
  }

  /** What is left at the start is what the pattern matches. */
  lemma PartsMean(g: Input, r: Re, i: nat, e: nat)
    requires UnitLoops(r) && i <= |g.text|
    ensures Tail(g, Parts(r), 0, i, e) <==> Matches(g, r, i, e)
  {
    hide Tail, Parts, Matches;
    var ps := Parts(r);
    assert ps[0..0 + |ps|] == ps;
    if Tail(g, ps, 0, i, e) {
      var j := MatchOfTail(g, r, ps, 0, i, e);
      NothingLeft(g, ps, j, e);
    }
    if Matches(g, r, i, e) {
      NothingLeft(g, ps, e, e);
      TailOfMatch(g, r, ps, 0, i, e, e);
    }
  }

  lemma NothingLeft(g: Input, ps: seq<Part>, d: nat, e: nat)
    requires AllParts(ps)
    ensures Tail(g, ps, |ps|, d, e) <==> d == e
  {
  }
}
