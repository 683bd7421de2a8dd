/** Which trees are derivations of which token sequences. A tree of the right shape whose tokens, read from left to
    right, are the pattern is a parse of the pattern. */
module RegexGrammar {
  import opened RegexTree
  import opened RegexPaths
  import opened RegexLayout

  const PERIOD: Byte := 46

  /** The tokens of a tree, in order. */
  function Yield(r: Re): seq<Token> {
    match r
    case Empty => []
    case Dummy => []
    case Exact(ts) => ts
    case AnyChar => [Dot]
    case CharSet(negated, bits) => [Bracket(negated, bits)]
    case Ignored(ops) => ops
    case Cat(a, b) => Yield(a) + Yield(b)
    case Alt(pre, last) => Yield(pre) + [Bar] + Yield(last)
    case Group(_, _, body) => [Open] + Yield(body) + [Close]
    case ZeroOrMore(body, ops) => Yield(body) + ops
    case OneOrMore(body, ops) => Yield(body) + ops
    case Optional(body, ops) => Yield(body) + ops
    case DotLine(body) => Yield(body) + [Star]
  }

  /** Nothing a repetition could apply to. */
  predicate NothingBefore(r: Re) {
    r.Empty? || (r.Cat? && NothingBefore(r.a) && (r.b.Dummy? || r.b.Ignored?))
  }

  /** Literals are literal tokens, except that a repetition character at the start of a branch may stand for itself,
      and so may a `)' with no group open. */
  predicate LiteralOk(syn: Syntax, t: Token, start: bool, top: bool) {
    || t.Lit?
    || (IsRepeat(t) && start && !syn.indepOps && !syn.invalidOps)
    || (t.Close? && top && syn.unmatchedOrd)
  }

  predicate LiteralsOk(syn: Syntax, ts: seq<Token>, start: bool, top: bool) {
    && 1 <= |ts| <= 255
    && forall k :: 0 <= k < |ts| ==> LiteralOk(syn, ts[k], start && k == 0, top)
  }

  predicate AllRepeats(ops: seq<Token>) {
    |ops| >= 1 && forall k :: 0 <= k < |ops| ==> IsRepeat(ops[k])
  }

  /** What a repetition applies to: one character, a bracket expression, or a group. */
  predicate IsAtom(syn: Syntax, r: Re, start: bool, top: bool)
    decreases r, 2
  {
    match r
    case Exact(ts) => |ts| == 1 && LiteralsOk(syn, ts, start, top)
    case AnyChar => true
    case CharSet(_, bits) => |bits| <= 32
    case Group(_, _, body) => IsRegex(syn, body, false)
    case _ => false
  }

  /** A lone literal `.'. */
  predicate IsPeriod(r: Re) {
    r.Exact? && |r.ts| == 1 && r.ts[0].Lit? && r.ts[0].c == PERIOD
  }

  predicate IsPiece(syn: Syntax, r: Re, start: bool, top: bool)
    decreases r, 3
  {
    match r
    case Exact(ts) => LiteralsOk(syn, ts, start, top)
    case Dummy => top && syn.unmatchedOrd
    case Ignored(ops) => start && syn.indepOps && !syn.invalidOps && AllRepeats(ops)
    case ZeroOrMore(body, ops) => IsAtom(syn, body, start, top) && AllRepeats(ops) && ZeroOk(ops) && ManyOk(ops)
    case OneOrMore(body, ops) => IsAtom(syn, body, start, top) && AllRepeats(ops) && !ZeroOk(ops)
    case Optional(body, ops) => IsAtom(syn, body, start, top) && AllRepeats(ops) && !ManyOk(ops)
    case DotLine(body) => !syn.dotNewline && (body.AnyChar? || IsPeriod(body))
    case _ => IsAtom(syn, r, start, top)
  }

  predicate IsBranch(syn: Syntax, r: Re, top: bool)
    decreases r, 0
  {
    r.Empty? || (r.Cat? && IsBranch(syn, r.a, top) && IsPiece(syn, r.b, NothingBefore(r.a), top))
  }

  /** Alternatives of branches. */
  predicate IsRegex(syn: Syntax, r: Re, top: bool)
    decreases r, 1
  {
    if r.Alt? then IsRegex(syn, r.pre, top) && IsBranch(syn, r.last, top) else IsBranch(syn, r, top)
  }

  function GroupCount(r: Re): nat {
    match r
    case Cat(a, b) => GroupCount(a) + GroupCount(b)
    case Alt(pre, last) => GroupCount(pre) + GroupCount(last)
    case Group(_, _, body) => 1 + GroupCount(body)
    case ZeroOrMore(body, _) => GroupCount(body)
    case OneOrMore(body, _) => GroupCount(body)
    case Optional(body, _) => GroupCount(body)
    case DotLine(body) => GroupCount(body)
    case _ => 0
  }

  /** Groups are numbered in the order of their opening parentheses, after `lo' others. */
  predicate Numbered(r: Re, lo: nat) {
    match r
    case Cat(a, b) => Numbered(a, lo) && Numbered(b, lo + GroupCount(a))
    case Alt(pre, last) => Numbered(pre, lo) && Numbered(last, lo + GroupCount(pre))
    case Group(reg, inner, body) => reg == lo + 1 && inner == GroupCount(body) && Numbered(body, lo + 1)
    case ZeroOrMore(body, _) => Numbered(body, lo)
    case OneOrMore(body, _) => Numbered(body, lo)
    case Optional(body, _) => Numbered(body, lo)
    case DotLine(body) => Numbered(body, lo)
    case _ => true
  }

  ghost predicate Parses(syn: Syntax, toks: seq<Token>, r: Re) {
    IsRegex(syn, r, true) && Yield(r) == toks && Numbered(r, 0)
  }

  lemma {:induction false} NumberedWithin(r: Re, lo: nat, nsub: nat)
    requires Numbered(r, lo) && lo + GroupCount(r) <= nsub
    ensures RegsWithin(r, nsub)
    decreases r
  {
    match r
    case Cat(a, b) =>
      NumberedWithin(a, lo, nsub);
      NumberedWithin(b, lo + GroupCount(a), nsub);
    case Alt(pre, last) =>
      NumberedWithin(pre, lo, nsub);
      NumberedWithin(last, lo + GroupCount(pre), nsub);
    case Group(_, _, body) => NumberedWithin(body, lo + 1, nsub);
    case ZeroOrMore(body, _) => NumberedWithin(body, lo, nsub);
    case OneOrMore(body, _) => NumberedWithin(body, lo, nsub);
    case Optional(body, _) => NumberedWithin(body, lo, nsub);
    case DotLine(body) => NumberedWithin(body, lo, nsub);
    case _ =>
  }

  lemma {:induction false} RegexSized(syn: Syntax, r: Re, top: bool)
    requires IsRegex(syn, r, top)
    ensures Sized(r)
    decreases r, 1
  {
    if r.Alt? { RegexSized(syn, r.pre, top); BranchSized(syn, r.last, top); } else { BranchSized(syn, r, top); }
  }

  lemma {:induction false} BranchSized(syn: Syntax, r: Re, top: bool)
    requires IsBranch(syn, r, top)
    ensures Sized(r)
    decreases r, 0
  {
    if r.Cat? { BranchSized(syn, r.a, top); PieceSized(syn, r.b, NothingBefore(r.a), top); }
  }

  lemma {:induction false} PieceSized(syn: Syntax, r: Re, start: bool, top: bool)
    requires IsPiece(syn, r, start, top)
    ensures Sized(r)
    decreases r, 3
  {
    match r
    case ZeroOrMore(body, _) => AtomSized(syn, body, start, top);
    case OneOrMore(body, _) => AtomSized(syn, body, start, top);
    case Optional(body, _) => AtomSized(syn, body, start, top);
    case Group(_, _, body) => RegexSized(syn, body, false);
    case _ =>
  }

  lemma {:induction false} AtomSized(syn: Syntax, r: Re, start: bool, top: bool)
    requires IsAtom(syn, r, start, top)
    ensures Sized(r)
    decreases r, 2
  {
    if r.Group? { RegexSized(syn, r.body, false); }
  }

  /** A parse has what the compiled code's correctness needs, with as many groups as it has. */
  lemma ParseShape(syn: Syntax, toks: seq<Token>, r: Re)
    requires Parses(syn, toks, r)
    ensures Sized(r) && RegsWithin(r, GroupCount(r))
  {
    RegexSized(syn, r, true);
    NumberedWithin(r, 0, GroupCount(r));
  }

  /** A literal `.', which can only be an escaped one, starred, just before a newline: the compiler takes the character
      before the star for the operator `.'. */
  predicate EscapedDotLineAt(toks: seq<Token>, k: nat) {
    k + 2 < |toks| && toks[k].Lit? && toks[k].c == PERIOD && toks[k + 1] == Star && toks[k + 2] == Lit(NEWLINE, false)
  }

  predicate HasEscapedDotLine(toks: seq<Token>) {
    exists k | 0 <= k < |toks| :: EscapedDotLineAt(toks, k)
  }

  /** How many groups are open after the tokens. */
  function Nesting(toks: seq<Token>): nat {
    if toks == [] then 0
    else
      var n := Nesting(toks[..|toks| - 1]);
      match toks[|toks| - 1]
      case Open => n + 1
      case Close => if n > 0 then n - 1 else 0
      case _ => n
  }
}
