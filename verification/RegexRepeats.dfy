/** The rounds in which the matcher passes through the group that a loop repeats, when there is no choice in it, are one
    turn of the small machine together. That the loop goes on is what the register's mark is for. */
module RegexRepeats {
  import opened Wrappers
  import opened RegexTree
  import opened RegexCode
  import opened RegexPaths
  import opened RegexLayout
  import opened RegexGrammar
  import opened RegexGroups
  import opened RegexMachine
  import opened RegexSoundness
  import opened RegexMarks
  import opened RegexForced
  import opened RegexParts
  import opened RegexTurns
  import opened RegexRounds

  /** What every round keeps of state and log. */
  ghost predicate Held(job: Job, r: Re, nsub: nat, s: State, l: Log) {
    Compiled(job, r, nsub) && Regular(r) && Inv(job, r, nsub, s) && RegexMarks.Marks(job, r, nsub, s, l)
  }

  lemma HeldOn(job: Job, r: Re, nsub: nat, s: State, l: Log)
    requires Held(job, r, nsub, s, l)
    ensures var o := Step(job, s); o.Running? ==> Held(job, r, nsub, o.s, Noted(job, s, l))
  {
    hide Compiled, Regular, Inv, RegexMarks.Marks, Step, Noted;
    StepGood(job, r, nsub, s);
    StepMarks(job, r, nsub, s, l);
  }

  lemma {:induction false} AfterSum(job: Job, s: State, l: Log, m: nat, n: nat)
    requires After(job, s, l, m).Some?
    ensures var a := After(job, s, l, m).value; After(job, s, l, m + n) == After(job, a.0, a.1, n)
    decreases m
  {
    hide Step, Noted;
    if m > 0 { AfterSum(job, Step(job, s).s, Noted(job, s, l), m - 1, n); }
  }

  lemma OneRound(job: Job, s: State, l: Log)
    requires Step(job, s).Running?
    ensures After(job, s, l, 1) == Some((Step(job, s).s, Noted(job, s, l)))
  {
    hide Step, Noted;
    assert After(job, Step(job, s).s, Noted(job, s, l), 0) == Some((Step(job, s).s, Noted(job, s, l)));
  }

  // ---------- Through items and groups ----------

  /** What is behind is no jump back, and so no end of a loop. */
  predicate NotBack(code: seq<Byte>, q: nat) {
    q < |code| ==> !IsBackJump(code[q]) && (code[q] == DUMMY_FAILURE_JUMP ==> Offset(code, q) >= 0)
  }

  lemma {:induction false} FixedStarts(code: seq<Byte>, p: nat, u: Re)
    requires Fixed(u) && Laid(code, p, u) && Len(u) > 0
    ensures NotBack(code, p) && p < |code|
  {
    hide Laid, Len, MemoryCode, Offset;
    match u
    case Cat(a, b) => {
      LaidCat(code, p, a, b);
      LenCat(a, b);
      if Len(a) > 0 { FixedStarts(code, p, a); } else { FixedStarts(code, p, b); }
    }
    case Group(reg, inner, body) => {
      LaidGroup(code, p, reg, inner, body);
      LenGroup(reg, inner, body);
      if reg <= MAX_REGNUM { MemoryBytes(code, p, START_MEMORY, reg, inner); } else { FixedStarts(code, p, body); }
    }
    case Empty => LenNone(u);
    case Ignored(_) => LenNone(u);
    case _ => ItemHere(code, p, u);
  }

  lemma LenNone(u: Re)
    requires u.Empty? || u.Ignored?
    ensures Len(u) == 0
  {
  }

  /** The state and the log after a stretch of code without choices, and where the groups around it were entered. */
  ghost predicate Passed(job: Job, r: Re, nsub: nat, s: State, l: Log, t: State, l2: Log, len: nat, taken: nat) {
    && Held(job, r, nsub, t, l2) && t.p == s.p + len && t.d == s.d + taken && t.stack == s.stack && t.best == s.best
    && l2.saved == l.saved && l2.now.taken == l.now.taken + taken
    && ZoneOf(r, 0, 0, t.p).open == ZoneOf(r, 0, 0, s.p).open
    && SameBegan(ZoneOf(r, 0, 0, s.p).open, l.now, l2.now)
    && (t.justPast == s.justPast || s.p < t.justPast < t.p)
  }

  predicate SameBegan(open: seq<nat>, a: Note, b: Note) {
    |a.began| == |b.began| && forall k :: 0 <= k < |open| && open[k] < |a.began| ==>
      b.began[open[k]] == a.began[open[k]]
  }

  /** An item in it could not take the text. */
  ghost predicate Stuck(job: Job, s: State, t: State) {
    t.stack == s.stack && t.best == s.best && exists d: nat :: Step(job, t) == Fail(job, t.(d := d))
  }

  lemma PassedSum(job: Job, r: Re, nsub: nat, s: State, l: Log, t: State, l2: Log, u: State, l3: Log, len: nat,
                  taken: nat, len2: nat, taken2: nat)
    requires Passed(job, r, nsub, s, l, t, l2, len, taken) && Passed(job, r, nsub, t, l2, u, l3, len2, taken2)
    ensures Passed(job, r, nsub, s, l, u, l3, len + len2, taken + taken2)
  {
    hide Held, ZoneOf;
  }

  lemma StuckLater(job: Job, s: State, t: State, u: State)
    requires t.stack == s.stack && t.best == s.best && Stuck(job, t, u)
    ensures Stuck(job, s, u)
  {
  }

  /** One round that goes on in the same groups. */
  lemma StepZone(job: Job, r: Re, nsub: nat, s: State, l: Log, p2: nat)
    requires Held(job, r, nsub, s, l) && s.p < Len(r) && Next(job.code, s.p, p2)
    ensures Crosses(job.code, s.p, ZoneOf(r, 0, 0, s.p), ZoneOf(r, 0, 0, p2))
    ensures |s.stack| == |l.saved| && |l.now.began| == nsub + 1 && l.saved[..|s.stack|] == l.saved
  {
    hide Compiled, Regular, ZoneOf, Agrees, Crosses, ForkFirst, StackOk, BestOk, Here, Len, Next;
    HereIs(job, r, nsub, s);
    ZoneMove(job, r, nsub, s.p, s.d, p2, |s.stack|);
    SameSaved(r, nsub, s, l);
    NoteLength(ZoneOf(r, 0, 0, s.p), s, l.now, nsub);
  }

  lemma HereIs(job: Job, r: Re, nsub: nat, s: State)
    requires Inv(job, r, nsub, s)
    ensures Here(job, r, s.p, s.d, |s.stack|)
  {
  }

  lemma NoteLength(z: Zone, s: State, note: Note, nsub: nat)
    requires Agrees(z, s.low, s.high, s.info, note, nsub)
    ensures |note.began| == nsub + 1
  {
  }

  lemma ItemPass(job: Job, r: Re, nsub: nat, u: Re, s: State, l: Log) returns (m: nat, t: State, l2: Log)
    requires Held(job, r, nsub, s, l) && IsItem(u) && Laid(job.code, s.p, u) && s.p + Len(u) <= Len(r)
    ensures After(job, s, l, m) == Some((t, l2))
    ensures if ItemTakes(job.g, u, s.d) then m <= Len(u) && Passed(job, r, nsub, s, l, t, l2, Len(u), Width(u))
            else m < Len(u) && Stuck(job, s, t)
  {
    hide Held, ZoneOf, Laid, ItemTakes, Fail, SetRegsMatched, Len, Step, Crosses, ItemCode;
    ItemHere(job.code, s.p, u);
    ItemNext(job.code, s.p, u);
    var d := ItemStep(job, s, u);
    m, t, l2 := 0, s, l;
    if ItemTakes(job.g, u, s.d) {
      var s2 := s.(p := s.p + Len(u), d := s.d + Width(u));
      m, t, l2 := 1, SetRegsMatched(s2), Noted(job, s, l);
      SameButRegs(s2);
      SameJustPast(s2);
      StepZone(job, r, nsub, s, l, s.p + Len(u));
      PlainCrosses(job.code, s.p, ZoneOf(r, 0, 0, s.p), ZoneOf(r, 0, 0, s.p + Len(u)));
      HeldOn(job, r, nsub, s, l);
      OneRound(job, s, l);
    }
  }

  lemma SameJustPast(s: State)
    ensures SetRegsMatched(s).justPast == s.justPast
  {
  }

  lemma ItemNext(code: seq<Byte>, p: nat, u: Re)
    requires ItemCode(code, p, u) && IsItem(u)
    ensures Next(code, p, p + Len(u)) && Len(u) > 0 && Width(u) > 0
    ensures Get(code, p) in {EXACTN, ANYCHAR, CHARSET, CHARSET_NOT}
  {
    hide BitmapAt;
  }

  /** Into a group. */
  lemma StartPass(job: Job, r: Re, nsub: nat, s: State, l: Log) returns (t: State, l2: Log)
    requires Held(job, r, nsub, s, l) && s.p < Len(r) && Get(job.code, s.p) == START_MEMORY
    ensures var reg := Get(job.code, s.p + 1);
            && After(job, s, l, 1) == Some((t, l2)) && Held(job, r, nsub, t, l2)
            && t.p == s.p + 3 && t.d == s.d && t.stack == s.stack && t.best == s.best && t.justPast == s.p + 3
            && l2.saved == l.saved && l2.now == Entered(l.now, reg) && reg < |l.now.began|
            && ZoneOf(r, 0, 0, t.p).open == ZoneOf(r, 0, 0, s.p).open + [reg]
            && forall k :: 0 <= k < |ZoneOf(r, 0, 0, s.p).open| ==> ZoneOf(r, 0, 0, s.p).open[k] != reg
  {
    hide Held, ZoneOf, Len, Rising;
    t, l2 := StepStart(job, s).s, Noted(job, s, l);
    Starts(job, s);
    StepZone(job, r, nsub, s, l, s.p + 3);
    HeldOn(job, r, nsub, s, l);
    OneRound(job, s, l);
    HeldRegular(job, r, nsub, s, l);
    ZoneHere(r, s.p + 3);
    NewLast(ZoneOf(r, 0, 0, s.p).open, Get(job.code, s.p + 1), GroupCount(r));
  }

  lemma HeldRegular(job: Job, r: Re, nsub: nat, s: State, l: Log)
    requires Held(job, r, nsub, s, l) && s.p < Len(r)
    ensures Regular(r) && s.p < |job.code|
    ensures Get(job.code, s.p) in {START_MEMORY, STOP_MEMORY} ==> Get(job.code, s.p + 1) <= nsub
  {
    hide Compiled, Regular, RegexMarks.Marks, Here, BestOk, StackOk, Len, Inv;
    HereOpcodeInv(job, r, nsub, s);
  }

  lemma Starts(job: Job, s: State)
    requires Get(job.code, s.p) == START_MEMORY
    ensures Step(job, s) == StepStart(job, s) && s.p < |job.code| && Next(job.code, s.p, s.p + 3)
  {
    hide StepStart;
  }

  /** Out of a group that no loop is directly around. */
  lemma StopPass(job: Job, r: Re, nsub: nat, s: State, l: Log) returns (t: State, l2: Log)
    requires Held(job, r, nsub, s, l) && s.p < Len(r) && Get(job.code, s.p) == STOP_MEMORY && NotBack(job.code, s.p + 3)
    ensures var reg := Get(job.code, s.p + 1);
            && After(job, s, l, 1) == Some((t, l2)) && Held(job, r, nsub, t, l2)
            && t.p == s.p + 3 && t.d == s.d && t.stack == s.stack && t.best == s.best && t.justPast == s.justPast
            && l2 == l && ZoneOf(r, 0, 0, s.p).open == ZoneOf(r, 0, 0, t.p).open + [reg]
  {
    hide Held, ZoneOf, Len, Stopped, LoopHead;
    var reg := Get(job.code, s.p + 1);
    HeldRegular(job, r, nsub, s, l);
    Stops(job, s);
    RegexSoundness.StoppedSame(s, reg);
    StoppedKeeps(s, reg);
    NoHead(job.code, s.p);
    t, l2 := Stopped(s, reg).(p := s.p + 3), Noted(job, s, l);
    assert Step(job, s) == Running(t);
    StepZone(job, r, nsub, s, l, s.p + 3);
    HeldOn(job, r, nsub, s, l);
    OneRound(job, s, l);
    assert l.now.(taken := l.now.taken + 0) == l.now;
  }

  lemma NoHead(code: seq<Byte>, p: nat)
    requires NotBack(code, p + 3) && p < |code| && code[p] == STOP_MEMORY
    ensures p + 3 < |code| ==> LoopHead(code, p) == None
    ensures Next(code, p, p + 3)
  {
    hide Offset, Target;
  }

  /** Through code without choices, to its end or until an item cannot take the text. */
  lemma {:induction false} FixedPass(job: Job, r: Re, nsub: nat, u: Re, s: State, l: Log)
    returns (m: nat, t: State, l2: Log)
    requires Held(job, r, nsub, s, l) && Fixed(u) && Laid(job.code, s.p, u) && s.p + Len(u) <= Len(r)
    requires NotBack(job.code, s.p + Len(u))
    ensures After(job, s, l, m) == Some((t, l2))
    ensures if Takes(job.g, u, s.d) then m <= Len(u) && Passed(job, r, nsub, s, l, t, l2, Len(u), Span(u))
            else m < Len(u) && Stuck(job, s, t)
    decreases u, 1
  {
    hide Held, Passed, Stuck, Laid, Len, NotBack, MemoryCode, Step, After, ZoneOf;
    match u
    case Empty => { LenNone(u); m, t, l2 := NoPass(job, r, nsub, s, l); }
    case Ignored(_) => { LenNone(u); m, t, l2 := NoPass(job, r, nsub, s, l); }
    case Cat(a, b) => { m, t, l2 := CatPass(job, r, nsub, a, b, s, l); }
    case Group(reg, inner, body) => { m, t, l2 := GroupPass(job, r, nsub, reg, inner, body, s, l); }
    case _ => { m, t, l2 := ItemPass(job, r, nsub, u, s, l); }
  }

  lemma AfterNone(job: Job, s: State, l: Log)
    ensures After(job, s, l, 0) == Some((s, l))
  {
  }

  lemma NoPass(job: Job, r: Re, nsub: nat, s: State, l: Log) returns (m: nat, t: State, l2: Log)
    requires Held(job, r, nsub, s, l)
    ensures m == 0 && After(job, s, l, m) == Some((t, l2)) && Passed(job, r, nsub, s, l, t, l2, 0, 0)
    ensures s.d <= |job.g.text|
  {
    hide Held, ZoneOf;
    m, t, l2 := 0, s, l;
    HeldText(job, r, nsub, s, l);
  }

  lemma HeldText(job: Job, r: Re, nsub: nat, s: State, l: Log)
    requires Held(job, r, nsub, s, l)
    ensures s.d <= |job.g.text| && s.p <= Len(r)
  {
    hide Compiled, Regular, RegexMarks.Marks, Depth, Len, Inside, StackOk, BestOk;
    InsideBounds(job.g, r, 0, s.p, job.pos, s.d);
  }

  lemma {:induction false} CatPass(job: Job, r: Re, nsub: nat, a: Re, b: Re, s: State, l: Log)
    returns (m: nat, t: State, l2: Log)
    requires Held(job, r, nsub, s, l) && Fixed(a) && Fixed(b) && Laid(job.code, s.p, Cat(a, b))
    requires s.p + Len(Cat(a, b)) <= Len(r) && NotBack(job.code, s.p + Len(Cat(a, b)))
    ensures After(job, s, l, m) == Some((t, l2))
    ensures var u := Cat(a, b);
            if Takes(job.g, u, s.d) then m <= Len(u) && Passed(job, r, nsub, s, l, t, l2, Len(u), Span(u))
            else m < Len(u) && Stuck(job, s, t)
    decreases Cat(a, b), 0
  {
    hide Held, Stuck, Laid, Len, NotBack, After, ZoneOf, Fixed, Passed, Takes, Span;
    LaidCat(job.code, s.p, a, b);
    LenCat(a, b);
    TakesCat(job.g, a, b, s.d);
    if Len(b) > 0 { FixedStarts(job.code, s.p + Len(a), b); }
    m, t, l2 := FixedPass(job, r, nsub, a, s, l);
    if Takes(job.g, a, s.d) {
      PassedTo(job, r, nsub, s, l, t, l2, Len(a), Span(a));
      var n, t2, l3 := FixedPass(job, r, nsub, b, t, l2);
      AfterSum(job, s, l, m, n);
      if Takes(job.g, b, t.d) {
        PassedSum(job, r, nsub, s, l, t, l2, t2, l3, Len(a), Span(a), Len(b), Span(b));
      } else {
        StuckLater(job, s, t, t2);
      }
      m, t, l2 := m + n, t2, l3;
    }
  }

  lemma TakesCat(g: Input, a: Re, b: Re, d: nat)
    requires Fixed(a) && Fixed(b)
    ensures Fixed(Cat(a, b)) && Span(Cat(a, b)) == Span(a) + Span(b)
    ensures Takes(g, Cat(a, b), d) <==> Takes(g, a, d) && Takes(g, b, d + Span(a))
  {
  }

  lemma PassedTo(job: Job, r: Re, nsub: nat, s: State, l: Log, t: State, l2: Log, len: nat, taken: nat)
    requires Passed(job, r, nsub, s, l, t, l2, len, taken)
    ensures Held(job, r, nsub, t, l2) && t.p == s.p + len && t.d == s.d + taken && t.stack == s.stack &&
        t.best == s.best
  {
    hide Held, ZoneOf;
  }

  lemma {:induction false} GroupPass(job: Job, r: Re, nsub: nat, reg: nat, inner: nat, body: Re, s: State, l: Log)
    returns (m: nat, t: State, l2: Log)
    requires Held(job, r, nsub, s, l) && Fixed(body) && Laid(job.code, s.p, Group(reg, inner, body))
    requires s.p + Len(Group(reg, inner, body)) <= Len(r) && NotBack(job.code, s.p + Len(Group(reg, inner, body)))
    ensures After(job, s, l, m) == Some((t, l2))
    ensures var u := Group(reg, inner, body);
            if Takes(job.g, u, s.d) then m <= Len(u) && Passed(job, r, nsub, s, l, t, l2, Len(u), Span(u))
            else m < Len(u) && Stuck(job, s, t)
    decreases body, 2
  {
    hide Held, Stuck, Laid, Len, NotBack, After, ZoneOf, MemoryCode, Fixed;
    LaidGroup(job.code, s.p, reg, inner, body);
    LenGroup(reg, inner, body);
    NoAlt(body);
    if reg <= MAX_REGNUM {
      MemoryBytes(job.code, s.p, START_MEMORY, reg, inner);
      MemoryBytes(job.code, s.p + 3 + Len(body), STOP_MEMORY, reg, inner);
      StopNotBack(job.code, s.p + 3 + Len(body));
      var t1, l1 := StartPass(job, r, nsub, s, l);
      var n, tn, ln := FixedPass(job, r, nsub, body, t1, l1);
      AfterSum(job, s, l, 1, n);
      m, t, l2 := 1 + n, tn, ln;
      if Takes(job.g, body, s.d) {
        var t3, l3 := StopPass(job, r, nsub, tn, ln);
        AfterSum(job, s, l, m, 1);
        m, t, l2 := m + 1, t3, l3;
        GroupPassed(job, r, nsub, s, l, t1, l1, tn, ln, t, l2, reg, Len(body), Span(body));
      } else {
        StuckLater(job, s, t1, tn);
      }
    } else {
      m, t, l2 := FixedPass(job, r, nsub, body, s, l);
    }
  }

  lemma NoAlt(body: Re)
    requires Fixed(body)
    ensures !body.Alt? && DummyLen(body) == 0
  {
  }

  lemma StopNotBack(code: seq<Byte>, p: nat)
    requires p < |code| && code[p] == STOP_MEMORY
    ensures NotBack(code, p)
  {
  }

  lemma GroupPassed(job: Job, r: Re, nsub: nat, s: State, l: Log, t1: State, l1: Log, t2: State, l2: Log, t: State,
                    l3: Log, reg: nat, len: nat, taken: nat)
    requires Passed(job, r, nsub, t1, l1, t2, l2, len, taken)
    requires t1.p == s.p + 3 && t1.d == s.d && t1.stack == s.stack && t1.best == s.best && t1.justPast == s.p + 3
    requires l1.saved == l.saved && l1.now == Entered(l.now, reg)
    requires ZoneOf(r, 0, 0, t1.p).open == ZoneOf(r, 0, 0, s.p).open + [reg]
    requires forall k :: 0 <= k < |ZoneOf(r, 0, 0, s.p).open| ==> ZoneOf(r, 0, 0, s.p).open[k] != reg
    requires Held(job, r, nsub, t, l3) && t.p == t2.p + 3 && t.d == t2.d && t.stack == t2.stack && t.best == t2.best
    requires t.justPast == t2.justPast && l3 == l2
    requires exists last :: ZoneOf(r, 0, 0, t2.p).open == ZoneOf(r, 0, 0, t.p).open + [last]
    ensures Passed(job, r, nsub, s, l, t, l3, len + 6, taken)
  {
    hide Held, ZoneOf;
    var open, open1 := ZoneOf(r, 0, 0, s.p).open, ZoneOf(r, 0, 0, t1.p).open;
    var last :| ZoneOf(r, 0, 0, t2.p).open == ZoneOf(r, 0, 0, t.p).open + [last];
    assert open1[..|open|] == open && open1[..|open1| - 1] == ZoneOf(r, 0, 0, t.p).open;
    forall k | 0 <= k < |open| && open[k] < |l.now.began|
      ensures l3.now.began[open[k]] == l.now.began[open[k]]
    {
      assert open1[k] == open[k];
    }
  }

  // ---------- One round of a loop over a group ----------

  /** Through the group of a loop that is laid out at `base', from its start: to the loop's end if it takes text, out of
      the loop if it takes none, or into a failure; the failure points are the same. */
  lemma LoopPass(job: Job, r: Re, nsub: nat, g: Re, base: nat, s: State, l: Log) returns (m: nat, t: State, l2: Log)
    requires Held(job, r, nsub, s, l) && IsBody(g) && !IsUnit(g) && Looping(job.code, g, base)
    requires Laid(job.code, base + 3, g) && s.p == base + 3 && base + 3 + Len(g) <= Len(r)
    requires NotBack(job.code, base + 6 + Len(g))
    ensures Fixed(g) && m < Len(g) && After(job, s, l, m) == Some((t, l2)) && t.stack == s.stack && t.best == s.best
    ensures !Takes(job.g, g, s.d) ==> exists d: nat :: Step(job, t) == Fail(job, t.(d := d))
    ensures Takes(job.g, g, s.d) && Span(g) > 0 ==>
      var o := Step(job, t);
      o.Running? && o.s.p == s.p + Len(g) && o.s.d == s.d + Span(g) && o.s.stack == s.stack && o.s.best == s.best
    ensures Takes(job.g, g, s.d) && Span(g) == 0 ==>
      var o := Step(job, t);
      if |s.stack| >= job.limit then o == Finished(-2)
      else o.Running? && o.s.p == base + 6 + Len(g) && o.s.d == s.d && o.s.stack == s.stack && o.s.best == s.best
  {
    hide Held, Laid, Len, NotBack, After, ZoneOf, MemoryCode, Fixed, Span, Takes, Step, GoesOn, GoesOut;
    BodyFixed(g);
    LaidGroup(job.code, s.p, g.reg, g.inner, g.body);
    LenGroup(g.reg, g.inner, g.body);
    GroupFixed(job.g, g, s.d);
    NoAlt(g.body);
    var stop := s.p + 3 + Len(g.body);
    MemoryBytes(job.code, stop, STOP_MEMORY, g.reg, g.inner);
    StopNotBack(job.code, stop);
    var t1, l1 := StartPass(job, r, nsub, s, l);
    var n, tn, ln := FixedPass(job, r, nsub, g.body, t1, l1);
    AfterSum(job, s, l, 1, n);
    m, t, l2 := 1 + n, tn, ln;
    if Takes(job.g, g, s.d) {
      BeganHere(ZoneOf(r, 0, 0, s.p).open, ZoneOf(r, 0, 0, t1.p).open, g.reg, l.now, l1.now, ln.now);
      StopHeld(job, r, nsub, tn, ln);
      if Span(g) > 0 { SpanLen(g.body); }
      if Span(g) == 0 && tn.justPast == tn.p {
        JustPastExit(job, tn, g, base);
      } else {
        StopSteps(job, r, nsub, tn, ln, g, base);
      }
      LeftOrOn(job, tn, base + 6 + Len(g), Step(job, tn), Span(g) > 0);
    }
  }

  lemma GroupFixed(g: Input, u: Re, d: nat)
    requires u.Group? && Fixed(u)
    ensures Fixed(u.body) && Span(u) == Span(u.body) && Takes(g, u, d) == Takes(g, u.body, d)
  {
  }

  /** What takes text has code. */
  lemma {:induction false} SpanLen(u: Re)
    requires Fixed(u) && Span(u) > 0
    ensures Len(u) > 0
  {
    match u
    case Cat(a, b) => if Span(a) > 0 { SpanLen(a); } else { SpanLen(b); }
    case Group(_, _, body) => SpanLen(body);
    case _ =>
  }

  /** How much had been taken when the group was entered. */
  lemma BeganHere(open: seq<nat>, open1: seq<nat>, reg: nat, a: Note, b: Note, c: Note)
    requires b == Entered(a, reg) && reg < |a.began| && open1 == open + [reg] && SameBegan(open1, b, c)
    ensures |c.began| == |a.began| && c.began[reg] == a.taken
  {
    assert open1[|open|] == reg;
  }

  lemma StopHeld(job: Job, r: Re, nsub: nat, s: State, l: Log)
    requires Held(job, r, nsub, s, l) && Get(job.code, s.p) == STOP_MEMORY
    ensures var reg := Get(job.code, s.p + 1);
            && reg < |l.now.began| && l.now.taken >= l.now.began[reg] && Stopped(s, reg).stack == s.stack
            && (IsMatched(Stopped(s, reg).info, reg) <==> l.now.taken > l.now.began[reg])
  {
    hide Compiled, Regular, Inv, RegexMarks.Marks, Stopped, ZoneOf;
    StopMark(job, r, nsub, s, l);
  }

  /** A group with nothing in it is left too. */
  lemma JustPastExit(job: Job, s: State, g: Re, base: nat)
    requires Looping(job.code, g, base) && s.p == base + Len(g) && s.justPast == s.p
    ensures GoesOut(job, s, base + 6 + Len(g), Step(job, s))
  {
    hide Len, Stopped, Target, RestoredRegs, SavedRegs;
    RegexSoundness.StoppedSame(s, g.reg);
    assert Step(job, s) == StepStop(job, s) by { Stops(job, s); }
    HeadHere(job.code, g, base);
    var t, exit := Stopped(s, g.reg), base + 6 + Len(g);
    if |s.stack| < job.limit {
      var pt := FailPoint(Some(exit), Some(s.d), t.low, t.high, SavedRegs(t));
      assert (s.stack + [pt])[..|s.stack|] == s.stack;
    }
  }

  lemma LeftOrOn(job: Job, s: State, exit: nat, o: Outcome, on: bool)
    requires if on then o.Running? && GoesOn(job, s, o.s) else GoesOut(job, s, exit, o) && NotBack(job.code, exit)
    ensures on ==> o.Running? && o.s.p == s.p + 3 && o.s.d == s.d && o.s.stack == s.stack && o.s.best == s.best
    ensures !on ==>
      if |s.stack| >= job.limit then o == Finished(-2)
      else o.Running? && o.s.p == exit && o.s.d == s.d && o.s.stack == s.stack && o.s.best == s.best
  {
  }

  // ---------- These rounds are one turn ----------

  lemma {:induction false} RunAfter(job: Job, s: State, l: Log, m: nat, n: nat)
    requires After(job, s, l, m).Some?
    ensures var t := After(job, s, l, m).value.0; Run(job, s, m) == Running(t) && Run(job, s, m + n) == Run(job, t, n)
    decreases m
  {
    hide Step, Noted;
    if m > 0 { RunAfter(job, Step(job, s).s, Noted(job, s, l), m - 1, n); }
  }

  lemma {:induction false} RunsOn(job: Job, s: State, l: Log, m: nat, j: nat)
    requires After(job, s, l, m).Some? && j <= m
    ensures Run(job, s, j).Running?
    decreases m
  {
    hide Step, Noted;
    if j > 0 { RunsOn(job, Step(job, s).s, Noted(job, s, l), m - 1, j - 1); }
  }

  /** Where the loop at a part is. */
  function HeadAt(ps: seq<Part>, i: nat): nat
    requires i < |ps|
  {
    Off(ps, i) + if ps[i].Several? then 3 else 0
  }

  lemma LoopHere(code: seq<Byte>, ps: seq<Part>, i: nat)
    requires LaidOut(code, ps) && i < |ps| && IsPart(ps[i]) && (ps[i].Many? || ps[i].Several?) && !IsUnit(BodyOf(ps[i]))
    ensures var g, base := BodyOf(ps[i]), HeadAt(ps, i);
            && Looping(code, g, base) && Laid(code, base + 3, g) && NotBack(code, base + 6 + Len(g))
            && base + 3 == Off(ps, i) + BodyOff(ps[i]) && base + 6 + Len(g) == Off(ps, i + 1) <= |code|
  {
    hide Off, Laid, Len, Target, MemoryCode, ItemCode, Offset;
    PartHere(code, ps, i);
    StartOp(code, ps, i + 1);
    var g, base := BodyOf(ps[i]), HeadAt(ps, i);
    LaidGroup(code, base + 3, g.reg, g.inner, g.body);
    LenGroup(g.reg, g.inner, g.body);
    MemoryBytes(code, base + 3, START_MEMORY, g.reg, g.inner);
    MemoryBytes(code, base + Len(g), STOP_MEMORY, g.reg, g.inner);
    if i + 1 == |ps| { EndHere(code, ps); }
  }

  lemma BodyRounds(job: Job, r: Re, nsub: nat, k: Course, s: State, l: Log, c: Config)
    returns (m: nat, l2: Log)
    requires Follows(job, k) && Same(k.ps, s, c) && Orderly(k, c) && AtGroup(k.ps, c.x)
    requires Held(job, r, nsub, s, l) && !job.g.syn.noBacktrack
    ensures 1 <= m <= |job.code| && Agree(job, k.ps, s, Run(job, s, m), Turn(k, c))
    ensures forall j: nat :: j < m ==> Run(job, s, j).Running?
    ensures var o := Run(job, s, m); o.Running? ==> Held(job, r, nsub, o.s, l2)
  {
    hide Held, Off, Laid, Len, Fixed, Span, Takes, Step, Run, After, LaidOut, Pops, Same, Plain, Looping, NotBack,
         Agree, Retreat, SameStack, Noted;
    var i, ps := c.x.i, k.ps;
    SameParts(ps, s, c);
    LoopHere(job.code, ps, i);
    CodeLength(job, r, nsub, s, l);
    var g, base := BodyOf(ps[i]), HeadAt(ps, i);
    var n, t, ln := LoopPass(job, r, nsub, g, base, s, l);
    RunAfter(job, s, l, n, 1);
    forall j: nat | j <= n ensures Run(job, s, j).Running? { RunsOn(job, s, l, n, j); }
    HeldAfter(job, r, nsub, s, l, n);
    HeldOn(job, r, nsub, t, ln);
    RunOne(job, t);
    m, l2 := n + 1, Noted(job, t, ln);
    if Takes(job.g, g, s.d) {
      BehindOk(ps, i);
      Landed(job, k, s, c, Run(job, s, m));
    } else {
      var d: nat :| Step(job, t) == Fail(job, t.(d := d));
      StuckFails(job, k, s, c, t, d);
    }
  }

  lemma RunOne(job: Job, s: State)
    ensures Run(job, s, 1) == Step(job, s)
  {
    hide Step;
    if Step(job, s).Running? { assert Run(job, Step(job, s).s, 0) == Running(Step(job, s).s); }
  }

  lemma {:induction false} HeldAfter(job: Job, r: Re, nsub: nat, s: State, l: Log, m: nat)
    requires Held(job, r, nsub, s, l) && After(job, s, l, m).Some?
    ensures var a := After(job, s, l, m).value; Held(job, r, nsub, a.0, a.1)
    decreases m
  {
    hide Held, Step, Noted;
    HeldOn(job, r, nsub, s, l);
    if m > 0 { HeldAfter(job, r, nsub, Step(job, s).s, Noted(job, s, l), m - 1); }
  }

  lemma CodeLength(job: Job, r: Re, nsub: nat, s: State, l: Log)
    requires Held(job, r, nsub, s, l) && !job.g.syn.noBacktrack
    ensures |job.code| == Len(r)
  {
    hide Compiled, Regular, Inv, RegexMarks.Marks, Len;
    ProgramEnd(job, r, nsub);
  }

  /** The text has been taken. */
  lemma Landed(job: Job, k: Course, s: State, c: Config, o: Outcome)
    requires Follows(job, k) && Same(k.ps, s, c) && Orderly(k, c) && AtGroup(k.ps, c.x) && IsLoop(k.ps[c.x.i])
    requires Takes(k.g, BodyOf(k.ps[c.x.i]), c.d)
    requires var g, p := BodyOf(k.ps[c.x.i]), Addr(k.ps, c.x);
             if Span(g) == 0 && |s.stack| >= job.limit then o == Finished(-2)
             else
               && o.Running? && o.s.p == (if Span(g) > 0 then p + Len(g) else Off(k.ps, c.x.i + 1))
               && o.s.d == s.d + Span(g) && o.s.stack == s.stack && o.s.best == s.best
    ensures Agree(job, k.ps, s, o, Turn(k, c))
  {
    hide Off, Len, Fixed, Span, Takes, LaidOut, Pops, Plain, SameStack;
    SameParts(k.ps, s, c);
  }

  lemma StuckFails(job: Job, k: Course, s: State, c: Config, t: State, d: nat)
    requires Follows(job, k) && Same(k.ps, s, c) && Orderly(k, c) && AtGroup(k.ps, c.x)
    requires !Takes(k.g, BodyOf(k.ps[c.x.i]), c.d) && t.stack == s.stack && t.best == s.best
    ensures Agree(job, k.ps, s, Fail(job, t.(d := d)), Turn(k, c))
  {
    hide Off, Len, Fixed, Span, Takes, LaidOut, Pops, Plain, SameStack, Retreat, Fail;
    SameParts(k.ps, s, c);
    FailRetreats(job, k, t.(d := d), c);
  }
}
