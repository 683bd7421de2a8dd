/** Repetition characters with nothing to repeat at the start of a pattern: under RE_CONTEXT_INDEP_OPS they are ignored,
    under RE_CONTEXT_INVALID_OPS there is no such pattern, and otherwise the first of them stands for itself. */
module RegexLeading {
  import opened RegexTree
  import opened RegexGrammar
  import opened RegexPaths
  import opened RegexCollapse

  /** The tree with its first token gone, or replaced by a literal. */
  function Changed(r: Re, t: seq<Token>): Re {
    match r
    case Alt(pre, last) => Alt(Changed(pre, t), last)
    case Cat(a, b) =>
      if Yield(a) != [] then Cat(Changed(a, t), b) else if t == [] && |Yield(b)| == 1 then a else Cat(a, Changed(b, t))
    case Ignored(ops) => if ops == [] then r else Ignored(ops[1..])
    case Exact(ts) => if ts == [] then r else Exact(t + ts[1..])
    case ZeroOrMore(body, ops) => ZeroOrMore(Changed(body, t), ops)
    case OneOrMore(body, ops) => OneOrMore(Changed(body, t), ops)
    case Optional(body, ops) => Optional(Changed(body, t), ops)
    case _ => r
  }

  /** The first token of a pattern is a repetition character. */
  ghost predicate Leads(r: Re) {
    Yield(r) != [] && IsRepeat(Yield(r)[0])
  }

  /** Two trees have the same language and the same groups. */
  ghost predicate Alike(r: Re, q: Re) {
    SameGroups(r, q) && forall g: Input, i: nat, j: nat :: Matches(g, r, i, j) <==> Matches(g, q, i, j)
  }

  ghost predicate SameGroups(r: Re, q: Re) {
    GroupCount(r) == GroupCount(q) && forall lo: nat :: Numbered(r, lo) <==> Numbered(q, lo)
  }

  /** What is put in the place of the first token. */
  predicate Instead(syn: Syntax, op: Token, t: seq<Token>) {
    if syn.indepOps then t == [] else t == [Lit(CharOf(op), true)]
  }

  lemma {:induction false} NoTokens(syn: Syntax, r: Re, top: bool)
    requires IsBranch(syn, r, top) && Yield(r) == []
    ensures NothingBefore(r)
  {
    if r.Cat? {
      NoTokens(syn, r.a, top);
      OnlyDummy(syn, r.b, NothingBefore(r.a), top);
    }
  }

  lemma OnlyDummy(syn: Syntax, b: Re, start: bool, top: bool)
    requires IsPiece(syn, b, start, top) && Yield(b) == []
    ensures b.Dummy?
  {
  }

  lemma {:induction false} RegexChanged(syn: Syntax, r: Re, top: bool, t: seq<Token>)
    requires IsRegex(syn, r, top) && Leads(r) && Instead(syn, Yield(r)[0], t)
    ensures !syn.invalidOps
    ensures IsRegex(syn, Changed(r, t), top) && Yield(Changed(r, t)) == t + Yield(r)[1..] && Alike(r, Changed(r, t))
    decreases r
  {
    hide Matches, Numbered, IsBranch;
    if r.Alt? {
      assert Yield(r) == Yield(r.pre) + [Bar] + Yield(r.last);
      RegexChanged(syn, r.pre, top, t);
      AltAlike(r.pre, Changed(r.pre, t), r.last);
    } else {
      BranchChanged(syn, r, top, t);
    }
  }

  lemma PairGroups(a: Re, a2: Re, b: Re, b2: Re)
    requires SameGroups(a, a2) && SameGroups(b, b2)
    ensures SameGroups(Cat(a, b), Cat(a2, b2)) && SameGroups(Alt(a, b), Alt(a2, b2))
  {
    hide Numbered, GroupCount;
    GroupsOfPair(a, b, 0);
    GroupsOfPair(a2, b2, 0);
    forall lo: nat
      ensures Numbered(Cat(a, b), lo) <==> Numbered(Cat(a2, b2), lo)
      ensures Numbered(Alt(a, b), lo) <==> Numbered(Alt(a2, b2), lo)
    {
      GroupsOfPair(a, b, lo);
      GroupsOfPair(a2, b2, lo);
    }
  }

  lemma GroupsOfPair(a: Re, b: Re, lo: nat)
    ensures Numbered(Cat(a, b), lo) <==> Numbered(a, lo) && Numbered(b, lo + GroupCount(a))
    ensures Numbered(Alt(a, b), lo) <==> Numbered(a, lo) && Numbered(b, lo + GroupCount(a))
    ensures GroupCount(Cat(a, b)) == GroupCount(Alt(a, b)) == GroupCount(a) + GroupCount(b)
  {
  }

  lemma LoopGroups(body: Re, body2: Re, ops: seq<Token>)
    requires SameGroups(body, body2)
    ensures SameGroups(ZeroOrMore(body, ops), ZeroOrMore(body2, ops))
    ensures SameGroups(OneOrMore(body, ops), OneOrMore(body2, ops))
    ensures SameGroups(Optional(body, ops), Optional(body2, ops))
  {
    hide Numbered, GroupCount;
    GroupsOfLoop(body, ops, 0);
    GroupsOfLoop(body2, ops, 0);
    forall lo: nat
      ensures Numbered(ZeroOrMore(body, ops), lo) <==> Numbered(ZeroOrMore(body2, ops), lo)
      ensures Numbered(OneOrMore(body, ops), lo) <==> Numbered(OneOrMore(body2, ops), lo)
      ensures Numbered(Optional(body, ops), lo) <==> Numbered(Optional(body2, ops), lo)
    {
      GroupsOfLoop(body, ops, lo);
      GroupsOfLoop(body2, ops, lo);
    }
  }

  lemma GroupsOfLoop(body: Re, ops: seq<Token>, lo: nat)
    ensures Numbered(ZeroOrMore(body, ops), lo) <==> Numbered(body, lo)
    ensures Numbered(OneOrMore(body, ops), lo) <==> Numbered(body, lo)
    ensures Numbered(Optional(body, ops), lo) <==> Numbered(body, lo)
    ensures GroupCount(ZeroOrMore(body, ops)) == GroupCount(OneOrMore(body, ops)) == GroupCount(Optional(body, ops))
            == GroupCount(body)
  {
  }

  lemma AltAlike(pre: Re, pre2: Re, last: Re)
    requires Alike(pre, pre2)
    ensures Alike(Alt(pre, last), Alt(pre2, last))
  {
    hide Matches;
    PairGroups(pre, pre2, last, last);
    forall g: Input, i: nat, j: nat ensures Matches(g, Alt(pre, last), i, j) <==> Matches(g, Alt(pre2, last), i, j) {
      MatchesAlt(g, pre, last, i, j);
      MatchesAlt(g, pre2, last, i, j);
    }
  }

  lemma CatAlike(a: Re, a2: Re, b: Re, b2: Re)
    requires Alike(a, a2) && Alike(b, b2)
    ensures Alike(Cat(a, b), Cat(a2, b2))
  {
    hide Matches;
    PairGroups(a, a2, b, b2);
    forall g: Input, i: nat, j: nat ensures Matches(g, Cat(a, b), i, j) <==> Matches(g, Cat(a2, b2), i, j) {
      if Matches(g, Cat(a, b), i, j) { CatWithin(g, a, a2, b, b2, i, j); }
      if Matches(g, Cat(a2, b2), i, j) { CatWithin(g, a2, a, b2, b, i, j); }
    }
  }

  lemma CatWithin(g: Input, a: Re, a2: Re, b: Re, b2: Re, i: nat, j: nat)
    requires forall p: nat, q: nat :: Matches(g, a, p, q) ==> Matches(g, a2, p, q)
    requires forall p: nat, q: nat :: Matches(g, b, p, q) ==> Matches(g, b2, p, q)
    requires Matches(g, Cat(a, b), i, j)
    ensures Matches(g, Cat(a2, b2), i, j)
  {
    hide Matches;
    var k := CatSplit(g, a, b, i, j);
    MatchBounds(g, a, i, k);
    MatchBounds(g, b, k, j);
    MatchesCat(g, a2, b2, i, k, j);
  }

  /** An ignored run leaves the language as it is. */
  lemma IgnoredAlike(a: Re, ops: seq<Token>)
    ensures Alike(Cat(a, Ignored(ops)), a) && forall more :: Alike(Ignored(ops), Ignored(more))
  {
    forall g: Input, i: nat, j: nat ensures Matches(g, Cat(a, Ignored(ops)), i, j) <==> Matches(g, a, i, j) {
      if Matches(g, a, i, j) {
        MatchBounds(g, a, i, j);
        assert Matches(g, Ignored(ops), j, j);
        MatchesCat(g, a, Ignored(ops), i, j, j);
      }
      if Matches(g, Cat(a, Ignored(ops)), i, j) { var k := CatSplit(g, a, Ignored(ops), i, j); }
    }
  }

  /** A literal stands for its character, escaped or not. */
  lemma ExactAlike(ts: seq<Token>, t: Token)
    requires ts != [] && CharOf(t) == CharOf(ts[0])
    ensures Alike(Exact(ts), Exact([t] + ts[1..]))
  {
    var us := [t] + ts[1..];
    assert forall k :: 0 <= k < |ts| ==> CharOf(us[k]) == CharOf(ts[k]);
  }

  lemma LoopAlike(body: Re, body2: Re, ops: seq<Token>)
    requires Alike(body, body2)
    ensures Alike(ZeroOrMore(body, ops), ZeroOrMore(body2, ops)) && Alike(OneOrMore(body, ops), OneOrMore(body2, ops))
    ensures Alike(Optional(body, ops), Optional(body2, ops))
  {
    hide Matches, Repeats, RepeatsOnceMore;
    LoopGroups(body, body2, ops);
    forall g: Input, i: nat, j: nat
      ensures Matches(g, ZeroOrMore(body, ops), i, j) <==> Matches(g, ZeroOrMore(body2, ops), i, j)
      ensures Matches(g, OneOrMore(body, ops), i, j) <==> Matches(g, OneOrMore(body2, ops), i, j)
      ensures Matches(g, Optional(body, ops), i, j) <==> Matches(g, Optional(body2, ops), i, j)
    {
      RepeatsAlike(g, body, body2, i, j);
      LoopsMean(g, body, ops, i, j);
      LoopsMean(g, body2, ops, i, j);
    }
  }

  lemma LoopsMean(g: Input, body: Re, ops: seq<Token>, i: nat, j: nat)
    ensures Matches(g, ZeroOrMore(body, ops), i, j) <==> Repeats(g, body, i, j)
    ensures Matches(g, OneOrMore(body, ops), i, j) <==> RepeatsOnceMore(g, body, i, j)
    ensures Matches(g, Optional(body, ops), i, j) <==> i <= j <= |g.text| && (i == j || Matches(g, body, i, j))
  {
    hide Repeats, RepeatsOnceMore;
    if Repeats(g, body, i, j) { RepeatsBounds(g, body, i, j); }
    if RepeatsOnceMore(g, body, i, j) { MoreBounds(g, body, i, j); }
  }

  lemma RepeatsAlike(g: Input, body: Re, body2: Re, i: nat, j: nat)
    requires Alike(body, body2)
    ensures Repeats(g, body, i, j) <==> Repeats(g, body2, i, j)
    ensures RepeatsOnceMore(g, body, i, j) <==> RepeatsOnceMore(g, body2, i, j)
  {
    hide Matches, Repeats, Numbered;
    forall k: nat ensures Repeats(g, body, i, k) <==> Repeats(g, body2, i, k) {
      if Repeats(g, body, i, k) { RepeatsMore(g, body2, body, i, k); }
      if Repeats(g, body2, i, k) { RepeatsMore(g, body, body2, i, k); }
    }
  }

  /** The first piece of a branch, when it starts with a repetition character. */
  lemma PieceChanged(syn: Syntax, b: Re, top: bool, t: seq<Token>)
    requires IsPiece(syn, b, true, top) && Leads(b) && Instead(syn, Yield(b)[0], t)
    ensures !syn.invalidOps && (b.Ignored? <==> syn.indepOps)
    ensures !b.Ignored? ==>
      IsPiece(syn, Changed(b, t), true, top) && Alike(b, Changed(b, t)) && Yield(Changed(b, t)) == t + Yield(b)[1..]
      && !Changed(b, t).Ignored? && !Changed(b, t).Dummy?
  {
    hide Alike, ZeroOk, ManyOk;
    match b
    case Exact(ts) => ExactChanged(syn, ts, top, t);
    case ZeroOrMore(body, ops) => BodyChanged(syn, body, ops, top, t);
    case OneOrMore(body, ops) => BodyChanged(syn, body, ops, top, t);
    case Optional(body, ops) => BodyChanged(syn, body, ops, top, t);
    case _ =>
  }

  lemma ExactChanged(syn: Syntax, ts: seq<Token>, top: bool, t: seq<Token>)
    requires LiteralsOk(syn, ts, true, top) && IsRepeat(ts[0]) && Instead(syn, ts[0], t)
    ensures !syn.invalidOps && !syn.indepOps && |t| == 1
    ensures LiteralsOk(syn, t + ts[1..], true, top) && Alike(Exact(ts), Exact(t + ts[1..]))
  {
    hide Alike;
    assert LiteralOk(syn, ts[0], true, top);
    ExactAlike(ts, t[0]);
    assert t == [t[0]];
  }

  /** The operand of a repetition is one character there. */
  lemma BodyChanged(syn: Syntax, body: Re, ops: seq<Token>, top: bool, t: seq<Token>)
    requires IsAtom(syn, body, true, top) && Yield(body) + ops != [] && IsRepeat((Yield(body) + ops)[0])
    requires Instead(syn, (Yield(body) + ops)[0], t)
    ensures !syn.invalidOps && !syn.indepOps && IsAtom(syn, Changed(body, t), true, top)
    ensures Yield(Changed(body, t)) + ops == t + (Yield(body) + ops)[1..] && Alike(body, Changed(body, t))
    ensures Alike(ZeroOrMore(body, ops), ZeroOrMore(Changed(body, t), ops))
    ensures Alike(OneOrMore(body, ops), OneOrMore(Changed(body, t), ops))
    ensures Alike(Optional(body, ops), Optional(Changed(body, t), ops))
  {
    hide Alike;
    assert Yield(body) != [] && (Yield(body) + ops)[0] == Yield(body)[0];
    ExactChanged(syn, body.ts, top, t);
    LoopAlike(body, Changed(body, t), ops);
  }

  lemma {:induction false} BranchChanged(syn: Syntax, r: Re, top: bool, t: seq<Token>)
    requires IsBranch(syn, r, top) && Leads(r) && Instead(syn, Yield(r)[0], t)
    ensures !syn.invalidOps && IsBranch(syn, Changed(r, t), top) && Yield(Changed(r, t)) == t + Yield(r)[1..]
    ensures NothingBefore(Changed(r, t)) == NothingBefore(r) && Alike(r, Changed(r, t))
    decreases r, 1
  {
    hide Alike, IsPiece, IsBranch, NothingBefore, Instead, Yield, Changed, Leads;
    CatFacts(syn, r, top, t);
    var a, b := r.a, r.b;
    if Yield(a) != [] {
      FirstPart(syn, a, b, top, t);
    } else {
      hide *;
      FirstPiece(syn, a, b, top, t);
    }
  }

  /** The repetition character is in front of the last piece. */
  lemma {:induction false} FirstPart(syn: Syntax, a: Re, b: Re, top: bool, t: seq<Token>)
    requires IsBranch(syn, a, top) && IsPiece(syn, b, NothingBefore(a), top) && Leads(a)
    requires Instead(syn, Yield(a)[0], t)
    ensures var r := Cat(a, b);
            && !syn.invalidOps && IsBranch(syn, Cat(Changed(a, t), b), top) && Yield(r) != []
            && Yield(Cat(Changed(a, t), b)) == t + Yield(r)[1..]
            && NothingBefore(Cat(Changed(a, t), b)) == NothingBefore(r) && Alike(r, Cat(Changed(a, t), b))
    decreases Cat(a, b), 0
  {
    BranchChanged(syn, a, top, t);
    hide Alike, IsPiece, IsBranch, NothingBefore, Yield, Changed, Instead, Leads;
    PairFacts(syn, Changed(a, t), b, top);
    PairFacts(syn, a, b, top);
    assert Yield(a) != [] by { LeadsFirst(a); }
    FirstMoved(t, Yield(a), Yield(b));
    SameAlike(b);
    CatAlike(a, Changed(a, t), b, b);
  }

  lemma LeadsFirst(a: Re)
    requires Leads(a)
    ensures Yield(a) != []
  {
  }

  lemma CatFacts(syn: Syntax, r: Re, top: bool, t: seq<Token>)
    requires IsBranch(syn, r, top) && Leads(r)
    ensures r.Cat? && IsBranch(syn, r.a, top) && IsPiece(syn, r.b, NothingBefore(r.a), top)
    ensures Yield(r) == Yield(r.a) + Yield(r.b) && IsBranch(syn, r.a, top) && IsBranch(syn, r, top)
    ensures NothingBefore(r) == (NothingBefore(r.a) && (r.b.Dummy? || r.b.Ignored?))
    ensures if Yield(r.a) != [] then
              Changed(r, t) == Cat(Changed(r.a, t), r.b) && Leads(r.a) && Yield(r)[0] == Yield(r.a)[0]
            else Leads(r.b) && Yield(r) == Yield(r.b) && r == Cat(r.a, r.b)
  {
    hide IsPiece;
  }

  lemma FirstMoved(t: seq<Token>, x: seq<Token>, y: seq<Token>)
    requires x != []
    ensures (x + y)[0] == x[0] && t + (x + y)[1..] == (t + x[1..]) + y
  {
    assert (x + y)[1..] == x[1..] + y;
  }

  lemma PairFacts(syn: Syntax, a: Re, b: Re, top: bool)
    ensures Yield(Cat(a, b)) == Yield(a) + Yield(b)
    ensures NothingBefore(Cat(a, b)) == (NothingBefore(a) && (b.Dummy? || b.Ignored?))
    ensures IsBranch(syn, a, top) && IsPiece(syn, b, NothingBefore(a), top) ==> IsBranch(syn, Cat(a, b), top)
  {
    hide IsPiece;
  }

  lemma SameAlike(r: Re)
    ensures Alike(r, r)
  {
    hide Matches, Numbered;
  }

  /** Nothing stands before the piece that starts with the repetition character. */
  lemma FirstPiece(syn: Syntax, a: Re, b: Re, top: bool, t: seq<Token>)
    requires IsBranch(syn, Cat(a, b), top) && Yield(a) == [] && Leads(b) && Instead(syn, Yield(b)[0], t)
    ensures var r := Cat(a, b);
            && !syn.invalidOps && IsBranch(syn, Changed(r, t), top) && Yield(Changed(r, t)) == t + Yield(b)[1..]
            && NothingBefore(Changed(r, t)) == NothingBefore(r) && Alike(r, Changed(r, t))
  {
    hide Alike, IsPiece, Leads, Instead;
    NoTokens(syn, a, top);
    PieceChanged(syn, b, top, t);
    if b.Ignored? {
      IgnoredAlike(a, b.ops);
      IgnoredOk(syn, b, top);
      SameAlike(a);
      assert t == [] by { Nothing(syn, b, t); }
      if |b.ops| > 1 { CatAlike(a, a, b, Ignored(b.ops[1..])); }
    } else {
      assert |t| == 1 by { Nothing(syn, b, t); }
      SameAlike(a);
      CatAlike(a, a, b, Changed(b, t));
    }
  }

  lemma Nothing(syn: Syntax, b: Re, t: seq<Token>)
    requires Leads(b) && Instead(syn, Yield(b)[0], t)
    ensures |t| == if syn.indepOps then 0 else 1
  {
  }

  lemma IgnoredOk(syn: Syntax, b: Re, top: bool)
    requires b.Ignored? && IsPiece(syn, b, true, top)
    ensures |b.ops| >= 1 && (|b.ops| > 1 ==> IsPiece(syn, Ignored(b.ops[1..]), true, top))
  {
  }

  /** Every parse of a pattern that starts with a repetition character has the language of one of the pattern without
      it, or with the character as a literal in its place; and under RE_CONTEXT_INVALID_OPS there is none. */
  lemma LeadingRepeat(syn: Syntax, op: Token, rest: seq<Token>, r: Re) returns (q: Re)
    requires IsRepeat(op) && Parses(syn, [op] + rest, r)
    ensures !syn.invalidOps
    ensures Parses(syn, (if syn.indepOps then [] else [Lit(CharOf(op), true)]) + rest, q)
    ensures forall s :: InLanguage(syn, r, s) <==> InLanguage(syn, q, s)
  {
    hide Matches, Numbered, IsRegex;
    var t := if syn.indepOps then [] else [Lit(CharOf(op), true)];
    assert ([op] + rest)[1..] == rest;
    RegexChanged(syn, r, true, t);
    q := Changed(r, t);
  }
}
