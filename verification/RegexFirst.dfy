/** First characters of a compiled pattern. A set of addresses that contains the start of the code and is closed under
    every way control can go on without using the text accounts for every first character, and for the empty match. */
module RegexFirst {
  import opened RegexTree
  import opened RegexCode
  import opened RegexPaths

  type Fastmap = f: seq<bool> | |f| == 256 witness seq(256, _ => false)

  /** Where the jump at x is followed to: a jump that does not go forward, and leads to an on_failure_jump, is taken for
      the end of a loop, and the loop is left. */
  function Beyond(code: seq<Byte>, x: int): int {
    var t := Target(code, x);
    if Offset(code, x) > 0 || Get(code, t) != ON_FAILURE_JUMP then t else Target(code, t)
  }

  /** Alternatives are found only at the top and directly inside groups. */
  predicate AltsGrouped(r: Re) {
    match r
    case Cat(a, b) => AltsGrouped(a) && AltsGrouped(b) && !a.Alt? && !b.Alt?
    case Alt(pre, last) => AltsGrouped(pre) && AltsGrouped(last) && !last.Alt?
    case Group(_, _, body) => AltsGrouped(body)
    case ZeroOrMore(body, _) => AltsGrouped(body) && !body.Alt?
    case OneOrMore(body, _) => AltsGrouped(body) && !body.Alt?
    case Optional(body, _) => AltsGrouped(body) && !body.Alt?
    case DotLine(body) => AltsGrouped(body) && !body.Alt?
    case _ => true
  }

  /** What is right after a tree's code matters only for alternatives: no loop may start there. */
  predicate NoLoopAfter(code: seq<Byte>, r: Re, base: nat) {
    r.Alt? ==> Get(code, base + Len(r)) != ON_FAILURE_JUMP
  }

  /** The address x has been followed up: its first characters are in the map, or what comes next is in `v'. */
  ghost predicate ClosedAt(syn: Syntax, code: seq<Byte>, fast: Fastmap, v: set<int>, x: int) {
    && 0 <= x < |code| && code[x] != SUCCEED
    && var op := code[x];
       if op == EXACTN then fast[Get(code, x + 2)]
       else if op == CHARSET || op == CHARSET_NOT then
         forall c: Byte :: SetAccepts(op == CHARSET_NOT, BitmapAt(code, x), c) ==> fast[c]
       else if op == ANYCHAR then forall c: Byte :: DotAccepts(syn, c) ==> fast[c]
       else if op == START_MEMORY || op == STOP_MEMORY then x + 3 in v
       else if IsFork(op) then x + 3 in v && Target(code, x) in v
       else if IsPlainJump(op) then Beyond(code, x) in v
       else x + 1 in v
  }

  ghost predicate AllClosed(syn: Syntax, code: seq<Byte>, fast: Fastmap, v: set<int>) {
    forall x :: x in v ==> ClosedAt(syn, code, fast, v, x)
  }

  /** Everything the lemmas below work under. */
  ghost predicate Traced(g: Input, code: seq<Byte>, fast: Fastmap, v: set<int>) {
    AllClosed(g.syn, code, fast, v) && |code| < MAX_OFFSET_CODE
  }

  /** What a set closed in that way says about text[i..j] matched by the part of the code from `base' to `end'. */
  ghost predicate Accounts(g: Input, fast: Fastmap, v: set<int>, end: int, i: nat, j: nat) {
    && i <= j <= |g.text|
    && (i == j ==> end in v)
    && (i < j ==> fast[g.text[i]])
  }

  lemma JumpClosed(g: Input, code: seq<Byte>, fast: Fastmap, v: set<int>, x: nat, op: Byte, offset: nat)
    requires Traced(g, code, fast, v) && x in v && JumpAt(code, x, op, offset)
    requires x + 3 + offset <= |code| && (IsFork(op) || IsPlainJump(op))
    requires IsPlainJump(op) ==> offset > 0 || Get(code, x + 3) != ON_FAILURE_JUMP
    ensures IsFork(op) ==> x + 3 in v
    ensures x + 3 + offset in v
  {
    hide JumpAt, Target;
    JumpByte(code, x, op, offset);
    assert Target(code, x) == x + 3 + Offset(code, x) by { TargetIs(code, x); }
    assert ClosedAt(g.syn, code, fast, v, x);
  }

  lemma TargetIs(code: seq<Byte>, x: int)
    ensures Target(code, x) == x + 3 + Offset(code, x)
  {
  }

  /** The jump back at the end of a loop is followed to the code after the loop. */
  lemma LoopClosed(g: Input, code: seq<Byte>, fast: Fastmap, v: set<int>, head: nat, n: nat)
    requires Traced(g, code, fast, v) && head + 3 + n in v
    requires JumpAt(code, head, ON_FAILURE_JUMP, n + 3) && JumpAt(code, head + 3 + n, MAYBE_POP_JUMP, -(n + 6))
    requires head + 6 + n <= |code|
    ensures head + 6 + n in v
  {
    hide JumpAt, Target;
    JumpByte(code, head, ON_FAILURE_JUMP, n + 3);
    JumpByte(code, head + 3 + n, MAYBE_POP_JUMP, -(n + 6));
    TargetIs(code, head + 3 + n);
    assert ClosedAt(g.syn, code, fast, v, head + 3 + n);
  }

  lemma {:induction false} First(g: Input, code: seq<Byte>, r: Re, base: nat, i: nat, j: nat, fast: Fastmap,
          v: set<int>)
    requires Laid(code, base, r) && Sized(r) && Traced(g, code, fast, v) && base in v
    requires AltsGrouped(r) && NoLoopAfter(code, r, base)
    requires Matches(g, r, i, j)
    ensures Accounts(g, fast, v, base + Len(r), i, j)
    decreases r, 1
  {
    hide Laid, Traced, ClosedAt, LoopCode;
    match r
    case Cat(a, b) =>
      LaidCat(code, base, a, b);
      var k := CatSplit(g, a, b, i, j);
      First(g, code, a, base, i, k, fast, v);
      if i == k { First(g, code, b, base + Len(a), k, j, fast, v); }
    case Alt(pre, last) => AltFirst(g, code, pre, last, base, i, j, fast, v);
    case Group(reg, inner, body) => GroupFirst(g, code, reg, inner, body, base, i, j, fast, v);
    case ZeroOrMore(body, ops) =>
      LaidZeroOrMore(code, base, body, ops);
      LoopFirst(g, code, body, base, ON_FAILURE_JUMP, i, j, fast, v);
    case OneOrMore(body, ops) => PlusFirst(g, code, body, ops, base, i, j, fast, v);
    case Optional(body, ops) => OptionalFirst(g, code, body, ops, base, i, j, fast, v);
    case DotLine(body) =>
      LaidDotLine(code, base, body);
      LoopFirst(g, code, body, base, ON_FAILURE_KEEP_STRING_JUMP, i, j, fast, v);
    case _ => LeafFirst(g, code, r, base, i, j, fast, v);
  }

  predicate IsLeaf(r: Re) {
    r.Empty? || r.Ignored? || r.Dummy? || r.Exact? || r.AnyChar? || r.CharSet?
  }

  lemma LeafFirst(g: Input, code: seq<Byte>, r: Re, base: nat, i: nat, j: nat, fast: Fastmap, v: set<int>)
    requires Laid(code, base, r) && Sized(r) && Traced(g, code, fast, v) && base in v && IsLeaf(r)
    requires Matches(g, r, i, j)
    ensures Accounts(g, fast, v, base + Len(r), i, j)
  {
    hide Laid, Traced, ClosedAt;
    match r
    case Dummy => DummyFirst(g, code, base, fast, v);
    case Exact(ts) => ExactFirst(g, code, ts, base, i, j, fast, v);
    case AnyChar => AnyFirst(g, code, base, i, j, fast, v);
    case CharSet(negated, bits) => SetFirst(g, code, negated, bits, base, i, j, fast, v);
    case _ =>
  }

  lemma DummyFirst(g: Input, code: seq<Byte>, base: nat, fast: Fastmap, v: set<int>)
    requires Laid(code, base, Dummy) && Traced(g, code, fast, v) && base in v
    ensures base + 1 in v
  {
    hide Laid;
    LaidByte(code, base, Dummy);
    assert ClosedAt(g.syn, code, fast, v, base);
  }

  lemma ExactFirst(g: Input, code: seq<Byte>, ts: seq<Token>, base: nat, i: nat, j: nat, fast: Fastmap, v: set<int>)
    requires Laid(code, base, Exact(ts)) && 1 <= |ts| <= 255 && Traced(g, code, fast, v) && base in v
    requires Matches(g, Exact(ts), i, j)
    ensures i < j && fast[g.text[i]]
  {
    hide Laid, CharOf;
    LaidExact(code, base, ts);
    assert ClosedAt(g.syn, code, fast, v, base);
    assert g.text[i + 0] == CharOf(ts[0]);
    assert Get(code, base + 2 + 0) == CharOf(ts[0]);
  }

  lemma AnyFirst(g: Input, code: seq<Byte>, base: nat, i: nat, j: nat, fast: Fastmap, v: set<int>)
    requires Laid(code, base, AnyChar) && Traced(g, code, fast, v) && base in v
    requires Matches(g, AnyChar, i, j)
    ensures i < j && fast[g.text[i]]
  {
    hide Laid;
    LaidByte(code, base, AnyChar);
    assert ClosedAt(g.syn, code, fast, v, base);
  }

  lemma SetFirst(g: Input, code: seq<Byte>, negated: bool, bits: seq<Byte>, base: nat, i: nat, j: nat, fast: Fastmap,
          v: set<int>)
    requires Laid(code, base, CharSet(negated, bits)) && |bits| <= 32 && Traced(g, code, fast, v) && base in v
    requires Matches(g, CharSet(negated, bits), i, j)
    ensures i < j && fast[g.text[i]]
  {
    hide Laid, BitmapAt, InBitmap;
    LaidSet(code, base, negated, bits);
    assert ClosedAt(g.syn, code, fast, v, base);
  }

  /** A loop whose first jump leads out of it. */
  lemma {:induction false} LoopFirst(g: Input, code: seq<Byte>, body: Re, base: nat, op: Byte, i: nat, j: nat,
          fast: Fastmap, v: set<int>)
    requires JumpAt(code, base, op, Len(body) + 3) && IsFork(op) && base + 6 + Len(body) <= |code|
    requires Laid(code, base + 3, body) && Sized(body) && AltsGrouped(body) && !body.Alt? && Traced(g, code, fast, v)
             && base in v
    requires Repeats(g, body, i, j)
    ensures Accounts(g, fast, v, base + 6 + Len(body), i, j)
    decreases body, 3
  {
    hide Laid, Traced, JumpAt, Len;
    JumpClosed(g, code, fast, v, base, op, Len(body) + 3);
    RepeatsFirst(g, code, body, base + 3, i, j, fast, v);
  }

  lemma {:induction false} RepeatsFirst(g: Input, code: seq<Byte>, body: Re, base: nat, i: nat, j: nat, fast: Fastmap,
          v: set<int>)
    requires Laid(code, base, body) && Sized(body) && AltsGrouped(body) && !body.Alt? && Traced(g, code, fast, v)
             && base in v
    requires Repeats(g, body, i, j)
    ensures i < j ==> fast[g.text[i]]
    decreases body, 2
  {
    hide Laid, Traced;
    if i < j {
      var k :| i < k <= j && Matches(g, body, i, k) && Repeats(g, body, k, j);
      First(g, code, body, base, i, k, fast, v);
    }
  }

  lemma {:induction false} PlusFirst(g: Input, code: seq<Byte>, body: Re, ops: seq<Token>, base: nat, i: nat, j: nat,
          fast: Fastmap, v: set<int>)
    requires Laid(code, base, OneOrMore(body, ops)) && Sized(body) && AltsGrouped(body) && !body.Alt?
             && Traced(g, code, fast, v) && base in v
    requires Matches(g, OneOrMore(body, ops), i, j)
    ensures Accounts(g, fast, v, base + 9 + Len(body), i, j)
    decreases body, 3
  {
    hide Laid, Traced, JumpAt, Len;
    LaidOneOrMore(code, base, body, ops);
    JumpClosed(g, code, fast, v, base, DUMMY_FAILURE_JUMP, 3);
    var k := OneOrMoreSplit(g, body, ops, i, j);
    RepeatsFirst(g, code, body, base + 6, i, k, fast, v);
    if i == k {
      First(g, code, body, base + 6, i, j, fast, v);
      if i == j { LoopClosed(g, code, fast, v, base + 3, Len(body)); }
    }
  }

  lemma {:induction false} OptionalFirst(g: Input, code: seq<Byte>, body: Re, ops: seq<Token>, base: nat, i: nat,
          j: nat, fast: Fastmap, v: set<int>)
    requires Laid(code, base, Optional(body, ops)) && Sized(body) && AltsGrouped(body) && !body.Alt?
             && Traced(g, code, fast, v) && base in v
    requires Matches(g, Optional(body, ops), i, j)
    ensures Accounts(g, fast, v, base + 3 + Len(body), i, j)
    decreases body, 3
  {
    hide Laid, Traced, JumpAt, Len;
    LaidOptional(code, base, body, ops);
    JumpClosed(g, code, fast, v, base, ON_FAILURE_JUMP, Len(body));
    if i < j { First(g, code, body, base + 3, i, j, fast, v); }
  }

  lemma SkipMemory(g: Input, code: seq<Byte>, base: nat, op: Byte, reg: nat, inner: nat, fast: Fastmap, v: set<int>)
    requires At(code, base, MemoryCode(op, reg, inner)) && (op == START_MEMORY || op == STOP_MEMORY)
    requires Traced(g, code, fast, v) && base in v
    ensures base + MemoryLen(reg) in v
  {
    if reg <= MAX_REGNUM {
      MemoryBytes(code, base, op, reg, inner);
      assert ClosedAt(g.syn, code, fast, v, base);
    }
  }

  lemma SkipDummy(g: Input, code: seq<Byte>, base: nat, fast: Fastmap, v: set<int>)
    requires At(code, base, [PUSH_DUMMY_FAILURE]) && Traced(g, code, fast, v) && base in v
    ensures base + 1 in v
  {
    assert [PUSH_DUMMY_FAILURE][0] == code[base + 0];
    assert ClosedAt(g.syn, code, fast, v, base);
  }

  lemma DummyHere(code: seq<Byte>, x: nat)
    requires At(code, x, [PUSH_DUMMY_FAILURE])
    ensures Get(code, x) == PUSH_DUMMY_FAILURE
  {
    assert [PUSH_DUMMY_FAILURE][0] == code[x + 0];
  }

  lemma {:induction false} GroupFirst(g: Input, code: seq<Byte>, reg: nat, inner: nat, body: Re, base: nat, i: nat,
          j: nat, fast: Fastmap, v: set<int>)
    requires Laid(code, base, Group(reg, inner, body)) && Sized(body) && AltsGrouped(body) && Traced(g, code, fast, v)
             && base in v
    requires Matches(g, body, i, j)
    ensures Accounts(g, fast, v, base + 2 * MemoryLen(reg) + Len(body) + DummyLen(body), i, j)
    decreases body, 3
  {
    hide Laid, Traced, At, Len, MemoryLen, MemoryCode, Matches;
    LaidGroup(code, base, reg, inner, body);
    SkipMemory(g, code, base, START_MEMORY, reg, inner, fast, v);
    if body.Alt? { DummyHere(code, base + MemoryLen(reg) + Len(body)); }
    First(g, code, body, base + MemoryLen(reg), i, j, fast, v);
    if i == j {
      if body.Alt? { SkipDummy(g, code, base + MemoryLen(reg) + Len(body), fast, v); }
      SkipMemory(g, code, base + MemoryLen(reg) + Len(body) + DummyLen(body), STOP_MEMORY, reg, inner, fast, v);
    }
  }

  lemma {:induction false} AltFirst(g: Input, code: seq<Byte>, pre: Re, last: Re, base: nat, i: nat, j: nat,
          fast: Fastmap, v: set<int>)
    requires Laid(code, base, Alt(pre, last)) && Sized(pre) && Sized(last) && Traced(g, code, fast, v) && base in v
    requires AltsGrouped(pre) && AltsGrouped(last) && !last.Alt?
             && Get(code, base + PreLen(pre) + Len(last)) != ON_FAILURE_JUMP
    requires Matches(g, Alt(pre, last), i, j)
    ensures Accounts(g, fast, v, base + PreLen(pre) + Len(last), i, j)
    decreases Alt(pre, last), 0
  {
    hide Laid, Traced, At, Len, PreLen, PreCode, JumpAt;
    LaidAlt(code, base, pre, last);
    MatchesAlt(g, pre, last, i, j);
    hide Matches;
    PreFirst(g, code, pre, base, i, j, Len(last), fast, v);
    if Matches(g, pre, i, j) {
      if i == j { JumpClosed(g, code, fast, v, base + PreLen(pre) - 3, JUMP_PAST_ALT, Len(last)); }
      MatchBounds(g, pre, i, j);
    } else {
      First(g, code, last, base + PreLen(pre), i, j, fast, v);
    }
  }

  /** Leading alternatives: the one after them is always reached, and their last jump if they match the empty string. */
  lemma {:induction false} PreFirst(g: Input, code: seq<Byte>, l: Re, base: nat, i: nat, j: nat, past: nat,
          fast: Fastmap, v: set<int>)
    requires LaidPre(code, base, l, past) && base + PreLen(l) + past <= |code| && Sized(l) && AltsGrouped(l)
    requires Traced(g, code, fast, v) && base in v
    ensures PreLen(l) >= 6 && base + PreLen(l) in v
    ensures Matches(g, l, i, j) ==> (i == j ==> base + PreLen(l) - 3 in v) && (i < j <= |g.text| ==> fast[g.text[i]])
    decreases l, 2
  {
    hide Traced, At, Len, PreCode, JumpAt, Laid;
    if l.Alt? {
      PreAltFirst(g, code, l.pre, l.last, base, i, j, fast, v);
    } else {
      hide Matches, PreLen;
      assert PreLen(l) == 6 + Len(l) by { PreLenOfBranch(l); }
      PreOfBranch(code, base, l);
      JumpClosed(g, code, fast, v, base, ON_FAILURE_JUMP, Len(l) + 3);
      if Matches(g, l, i, j) { First(g, code, l, base + 3, i, j, fast, v); }
    }
  }

  lemma PreLenOfBranch(l: Re)
    requires !l.Alt?
    ensures PreLen(l) == 6 + Len(l)
  {
    hide Len;
  }

  lemma {:induction false} PreAltFirst(g: Input, code: seq<Byte>, pre: Re, last: Re, base: nat, i: nat, j: nat,
          fast: Fastmap, v: set<int>)
    requires At(code, base, PreCode(Alt(pre, last))) && base + PreLen(pre) + 6 + Len(last) <= |code|
    requires Sized(pre) && Sized(last) && Traced(g, code, fast, v) && base in v
    requires AltsGrouped(pre) && AltsGrouped(last) && !last.Alt?
    ensures base + PreLen(pre) + 6 + Len(last) in v
    ensures Matches(g, Alt(pre, last), i, j) ==>
      (i == j ==> base + PreLen(pre) + 3 + Len(last) in v) && (i < j <= |g.text| ==> fast[g.text[i]])
    decreases Alt(pre, last), 0
  {
    hide Traced, At, Len, PreCode, JumpAt, Laid, PreLen;
    PreOfAlt(code, base, pre, last);
    MatchesAlt(g, pre, last, i, j);
    hide Matches;
    PreFirst(g, code, pre, base, i, j, Len(last) + 3, fast, v);
    JumpClosed(g, code, fast, v, base + PreLen(pre), ON_FAILURE_JUMP, Len(last) + 3);
    if Matches(g, pre, i, j) {
      if i == j { JumpClosed(g, code, fast, v, base + PreLen(pre) - 3, JUMP_PAST_ALT, Len(last) + 3); }
    } else if Matches(g, last, i, j) {
      First(g, code, last, base + PreLen(pre) + 3, i, j, fast, v);
    }
  }

  /** For a whole compiled pattern a closed set means the empty string is not in the language, and the first character
      of every member is in the map. */
  lemma FirstOfProgram(code: seq<Byte>, r: Re, syn: Syntax, fast: Fastmap, v: set<int>, s: seq<Byte>)
    requires Program(code, r, syn) && Sized(r) && AltsGrouped(r) && |code| < MAX_OFFSET_CODE
    requires AllClosed(syn, code, fast, v) && 0 in v && InLanguage(syn, r, s)
    ensures s != [] && fast[s[0]]
  {
    hide Code, Len, Matches, AllClosed, ClosedAt;
    var g := Input(syn, s);
    assert Laid(code, 0, r);
    assert Get(code, Len(r)) != ON_FAILURE_JUMP;
    First(g, code, r, 0, 0, |s|, fast, v);
    if s == [] {
      EndNotClosed(code, r, syn, fast, v);
    }
  }

  lemma EndNotClosed(code: seq<Byte>, r: Re, syn: Syntax, fast: Fastmap, v: set<int>)
    requires Program(code, r, syn) && AllClosed(syn, code, fast, v)
    ensures Len(r) !in v
  {
    hide Code, Len;
    assert !ClosedAt(syn, code, fast, v, Len(r));
  }
}
