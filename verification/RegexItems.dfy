/** The items of a compiled pattern that can be the first to look at the text, and those of its tree. */
module RegexItems {
  import opened RegexTree
  import opened RegexCode
  import opened RegexPaths
  import opened RegexFirst

  predicate IsItem(op: Byte) {
    op == EXACTN || op == CHARSET || op == CHARSET_NOT || op == ANYCHAR
  }

  /** The characters the item at x puts in the map. */
  predicate Offers(code: seq<Byte>, syn: Syntax, x: nat, c: Byte) {
    var op := Get(code, x);
    if op == EXACTN then c == Get(code, x + 2)
    else if op == CHARSET || op == CHARSET_NOT then x < |code| && SetAccepts(op == CHARSET_NOT, BitmapAt(code, x), c)
    else op == ANYCHAR && (c != NEWLINE || syn.dotNewline)
  }

  /** Some item of the tree with nothing but empty members in front of it takes c; the map has the zero byte for `.'
      even under RE_DOT_NOT_NULL. */
  ghost predicate Begins(syn: Syntax, r: Re, c: Byte) {
    match r
    case Exact(ts) => ts != [] && c == CharOf(ts[0])
    case AnyChar => DotAccepts(syn.(dotNotNull := false), c)
    case CharSet(negated, bits) => SetAccepts(negated, bits, c)
    case Cat(a, b) => Begins(syn, a, c) || (InLanguage(syn, a, []) && Begins(syn, b, c))
    case Alt(pre, last) => Begins(syn, pre, c) || Begins(syn, last, c)
    case Group(_, _, body) => Begins(syn, body, c)
    case ZeroOrMore(body, _) => Begins(syn, body, c)
    case OneOrMore(body, _) => Begins(syn, body, c)
    case Optional(body, _) => Begins(syn, body, c)
    case DotLine(body) => Begins(syn, body, c)
    case _ => false
  }

  /** What the item at pc offers, where control can be there with no text used, some first item of the tree takes. */
  lemma {:induction false} ItemBegins(code: seq<Byte>, syn: Syntax, r: Re, base: nat, pc: nat, c: Byte)
    requires Laid(code, base, r) && Sized(r) && |code| < MAX_OFFSET_CODE
    requires Inside(Input(syn, []), r, base, pc, 0, 0) && pc < base + Len(r) && Offers(code, syn, pc, c)
    ensures Begins(syn, r, c)
    decreases r, 1
  {
    hide Laid, Offers, JumpAt, InBody, InCat, InAlt, InGroup;
    match r
    case Cat(a, b) => CatBegins(code, syn, a, b, base, pc, c);
    case Alt(pre, last) => AltBegins(code, syn, pre, last, base, pc, c);
    case Group(reg, inner, body) => GroupBegins(code, syn, reg, inner, body, base, pc, c);
    case ZeroOrMore(body, ops) =>
      LaidZeroOrMore(code, base, body, ops);
      InsideZeroOrMore(Input(syn, []), body, ops, base, pc, 0, 0);
      LoopBegins(code, syn, body, base, ON_FAILURE_JUMP, MAYBE_POP_JUMP, -(Len(body) + 6), pc, c);
    case OneOrMore(body, ops) =>
      PlusBegins(code, syn, body, ops, base, pc, c);
    case Optional(body, ops) => OptionalBegins(code, syn, body, ops, base, pc, c);
    case DotLine(body) =>
      LaidDotLine(code, base, body);
      InsideDotLine(Input(syn, []), body, base, pc, 0, 0);
      LoopBegins(code, syn, body, base, ON_FAILURE_KEEP_STRING_JUMP, JUMP, -(Len(body) + 3), pc, c);
    case _ => LeafBegins(code, syn, r, base, pc, c);
  }

  lemma LeafBegins(code: seq<Byte>, syn: Syntax, r: Re, base: nat, pc: nat, c: Byte)
    requires Laid(code, base, r) && Sized(r) && Inside(Input(syn, []), r, base, pc, 0, 0) && pc < base + Len(r)
    requires Offers(code, syn, pc, c) && (r.Empty? || r.Ignored? || r.Dummy? || r.Exact? || r.AnyChar? || r.CharSet?)
    ensures Begins(syn, r, c)
  {
    hide Laid;
    match r
    case Dummy => LaidByte(code, base, r);
    case Exact(ts) => LaidExact(code, base, ts); assert Get(code, base + 2 + 0) == CharOf(ts[0]);
    case AnyChar => LaidByte(code, base, r);
    case CharSet(negated, bits) => LaidSet(code, base, negated, bits);
    case _ =>
  }

  /** A jump offers nothing. */
  lemma JumpOffers(code: seq<Byte>, syn: Syntax, x: nat, op: Byte, offset: int, c: Byte)
    requires JumpAt(code, x, op, offset) && 0 <= x + 3 + offset <= |code| < MAX_OFFSET_CODE && !IsItem(op)
    ensures !Offers(code, syn, x, c)
  {
    hide JumpAt;
    JumpByte(code, x, op, offset);
  }

  lemma {:induction false} LoopBegins(code: seq<Byte>, syn: Syntax, body: Re, base: nat, op: Byte, back: Byte,
          offset: int, pc: nat, c: Byte)
    requires JumpAt(code, base, op, Len(body) + 3) && !IsItem(op) && Laid(code, base + 3, body) && Sized(body)
    requires JumpAt(code, base + 3 + Len(body), back, offset) && !IsItem(back)
    requires 0 <= base + 6 + Len(body) + offset <= |code|
    requires base + 6 + Len(body) <= |code| < MAX_OFFSET_CODE && pc < base + 6 + Len(body) && Offers(code, syn, pc, c)
    requires pc == base || InBody(Input(syn, []), body, base + 3, pc, 0, 0)
    ensures Begins(syn, body, c)
    decreases body, 2
  {
    hide Laid, Offers, JumpAt, Inside, Len;
    var g := Input(syn, []);
    JumpOffers(code, syn, base, op, Len(body) + 3, c);
    JumpOffers(code, syn, base + 3 + Len(body), back, offset, c);
    var k := BodyElim(g, body, base + 3, pc, 0, 0);
    InsideBounds(g, body, base + 3, pc, k, 0);
    ItemBegins(code, syn, body, base + 3, pc, c);
  }

  lemma {:induction false} PlusBegins(code: seq<Byte>, syn: Syntax, body: Re, ops: seq<Token>, base: nat, pc: nat,
          c: Byte)
    requires Laid(code, base, OneOrMore(body, ops)) && Sized(body) && |code| < MAX_OFFSET_CODE
    requires Inside(Input(syn, []), OneOrMore(body, ops), base, pc, 0, 0) && pc < base + 9 + Len(body)
    requires Offers(code, syn, pc, c)
    ensures Begins(syn, body, c)
    decreases body, 3
  {
    hide Laid, Offers, JumpAt, Inside, Len, InBody, Matches;
    LaidOneOrMore(code, base, body, ops);
    InsideOneOrMore(Input(syn, []), body, ops, base, pc, 0, 0);
    JumpOffers(code, syn, base, DUMMY_FAILURE_JUMP, 3, c);
    LoopBegins(code, syn, body, base + 3, ON_FAILURE_JUMP, MAYBE_POP_JUMP, -(Len(body) + 6), pc, c);
  }

  lemma {:induction false} OptionalBegins(code: seq<Byte>, syn: Syntax, body: Re, ops: seq<Token>, base: nat, pc: nat,
          c: Byte)
    requires Laid(code, base, Optional(body, ops)) && Sized(body) && |code| < MAX_OFFSET_CODE
    requires Inside(Input(syn, []), Optional(body, ops), base, pc, 0, 0) && pc < base + 3 + Len(body)
    requires Offers(code, syn, pc, c)
    ensures Begins(syn, body, c)
    decreases body, 2
  {
    hide Laid, Offers, JumpAt, Inside, Len;
    LaidOptional(code, base, body, ops);
    InsideOptional(Input(syn, []), body, ops, base, pc, 0, 0);
    JumpOffers(code, syn, base, ON_FAILURE_JUMP, Len(body), c);
    ItemBegins(code, syn, body, base + 3, pc, c);
  }

  lemma {:induction false} CatBegins(code: seq<Byte>, syn: Syntax, a: Re, b: Re, base: nat, pc: nat, c: Byte)
    requires Laid(code, base, Cat(a, b)) && Sized(a) && Sized(b) && |code| < MAX_OFFSET_CODE
    requires Inside(Input(syn, []), Cat(a, b), base, pc, 0, 0) && pc < base + Len(a) + Len(b)
    requires Offers(code, syn, pc, c)
    ensures Begins(syn, a, c) || (InLanguage(syn, a, []) && Begins(syn, b, c))
    decreases Cat(a, b), 0
  {
    hide Laid, Offers, Inside, Len, Matches, Begins;
    var g := Input(syn, []);
    LaidCat(code, base, a, b);
    InsideCat(g, a, b, base, pc, 0, 0);
    if pc < base + Len(a) {
      ItemBegins(code, syn, a, base, pc, c);
    } else {
      var k := SecondElim(g, a, b, base + Len(a), pc, 0, 0);
      ItemBegins(code, syn, b, base + Len(a), pc, c);
    }
  }

  lemma {:induction false} GroupBegins(code: seq<Byte>, syn: Syntax, reg: nat, inner: nat, body: Re, base: nat, pc: nat,
          c: Byte)
    requires Laid(code, base, Group(reg, inner, body)) && Sized(body) && |code| < MAX_OFFSET_CODE
    requires Inside(Input(syn, []), Group(reg, inner, body), base, pc, 0, 0)
    requires pc < base + 2 * MemoryLen(reg) + Len(body) + DummyLen(body) && Offers(code, syn, pc, c)
    ensures Begins(syn, body, c)
    decreases body, 2
  {
    hide Inside, Matches, Len, Laid, MemoryCode;
    LaidGroup(code, base, reg, inner, body);
    InsideGroup(Input(syn, []), reg, inner, body, base, pc, 0, 0);
    var m := base + MemoryLen(reg);
    var stop := m + Len(body) + DummyLen(body);
    if pc < m {
      MemoryBytes(code, base, START_MEMORY, reg, inner);
    } else if pc < m + Len(body) {
      ItemBegins(code, syn, body, m, pc, c);
    } else if pc < stop {
      DummyHere(code, pc);
    } else {
      MemoryBytes(code, stop, STOP_MEMORY, reg, inner);
    }
  }

  lemma {:induction false} AltBegins(code: seq<Byte>, syn: Syntax, pre: Re, last: Re, base: nat, pc: nat, c: Byte)
    requires Laid(code, base, Alt(pre, last)) && Sized(pre) && Sized(last) && |code| < MAX_OFFSET_CODE
    requires Inside(Input(syn, []), Alt(pre, last), base, pc, 0, 0) && pc < base + PreLen(pre) + Len(last)
    requires Offers(code, syn, pc, c)
    ensures Begins(syn, pre, c) || Begins(syn, last, c)
    decreases Alt(pre, last), 0
  {
    hide Inside, InPre, Matches, Len, PreLen, Laid, JumpAt, Sized, Offers, Begins;
    var g := Input(syn, []);
    LaidAlt(code, base, pre, last);
    InsideAlt(g, pre, last, base, pc, 0, 0);
    if pc < base + PreLen(pre) {
      PreBegins(code, syn, pre, base, Len(last), pc, c);
    } else {
      ItemBegins(code, syn, last, base + PreLen(pre), pc, c);
    }
  }

  lemma {:induction false} PreBegins(code: seq<Byte>, syn: Syntax, l: Re, base: nat, past: nat, pc: nat, c: Byte)
    requires LaidPre(code, base, l, past) && base + PreLen(l) + past <= |code| < MAX_OFFSET_CODE && Sized(l)
    requires InPre(Input(syn, []), l, base, pc, 0, 0) && Offers(code, syn, pc, c)
    ensures Begins(syn, l, c)
    decreases l, 2
  {
    hide Inside, InPre, Matches, Len, PreLen, Laid, JumpAt, PreCode, Offers, Begins;
    var g := Input(syn, []);
    PreBounds(g, l, base, pc, 0, 0);
    PreLenBound(l);
    JumpOffers(code, syn, base + PreLen(l) - 3, JUMP_PAST_ALT, past, c);
    if l.Alt? {
      PreAltBegins(code, syn, l.pre, l.last, base, pc, c);
      AltHas(syn, l.pre, l.last, c);
    } else {
      PreOfBranch(code, base, l);
      InPreBranch(g, l, base, pc, 0, 0);
      JumpOffers(code, syn, base, ON_FAILURE_JUMP, Len(l) + 3, c);
      ItemBegins(code, syn, l, base + 3, pc, c);
    }
  }

  lemma AltHas(syn: Syntax, pre: Re, last: Re, c: Byte)
    requires Begins(syn, pre, c) || Begins(syn, last, c)
    ensures Begins(syn, Alt(pre, last), c)
  {
  }

  lemma {:induction false} PreAltBegins(code: seq<Byte>, syn: Syntax, pre: Re, last: Re, base: nat, pc: nat, c: Byte)
    requires At(code, base, PreCode(Alt(pre, last))) && Sized(pre) && Sized(last)
    requires base + PreLen(Alt(pre, last)) <= |code| < MAX_OFFSET_CODE && pc < base + PreLen(Alt(pre, last)) - 3
    requires InPre(Input(syn, []), Alt(pre, last), base, pc, 0, 0) && Offers(code, syn, pc, c)
    ensures Begins(syn, pre, c) || Begins(syn, last, c)
    decreases Alt(pre, last), 0
  {
    hide Inside, InPre, Matches, Len, PreLen, Laid, JumpAt, PreCode, Offers, Begins, Sized;
    var g := Input(syn, []);
    PreLenOfAlt(pre, last);
    PreOfAlt(code, base, pre, last);
    InPreAlt(g, pre, last, base, pc, 0, 0);
    var m := base + PreLen(pre);
    JumpOffers(code, syn, m, ON_FAILURE_JUMP, Len(last) + 3, c);
    if pc < m {
      PreBegins(code, syn, pre, base, Len(last) + 3, pc, c);
    } else {
      ItemBegins(code, syn, last, m + 3, pc, c);
    }
  }
}
