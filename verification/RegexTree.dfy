/** Patterns of public/cmd/regex.c as token sequences, their syntax trees, and the language a tree denotes.
    Trees also fix the compiler's grouping of literals, because that grouping decides the code layout. */
module RegexTree {

  type Byte = n: int | 0 <= n < 256 witness 0

  const NEWLINE: Byte := 10

  /** The syntax bits the modelled part of the compiler and the matcher look at. */
  datatype Syntax = Syntax(
    dotNewline: bool,      // RE_DOT_NEWLINE
    dotNotNull: bool,      // RE_DOT_NOT_NULL
    indepOps: bool,        // RE_CONTEXT_INDEP_OPS
    invalidOps: bool,      // RE_CONTEXT_INVALID_OPS
    unmatchedOrd: bool,    // RE_UNMATCHED_RIGHT_PAREN_ORD
    noBacktrack: bool)     // RE_NO_POSIX_BACKTRACKING

  /** One construct of the uncompiled pattern. A bracket expression arrives as its bitmap of at most 32 bytes. */
  datatype Token =
    | Lit(c: Byte, escaped: bool)
    | Dot
    | Bracket(negated: bool, bits: seq<Byte>)
    | Open
    | Close
    | Bar
    | Star
    | Plus
    | Quest

  predicate IsRepeat(t: Token) {
    t.Star? || t.Plus? || t.Quest?
  }

  /** The character a token stands for when the compiler treats it as a literal. */
  function CharOf(t: Token): Byte {
    match t
    case Lit(c, _) => c
    case Star => 42
    case Plus => 43
    case Quest => 63
    case Close => 41
    case _ => 0
  }

  /** A run of repetition characters collapses: zero matches are allowed unless all of them are `+`. */
  predicate ZeroOk(ops: seq<Token>) {
    exists k :: 0 <= k < |ops| && ops[k] != Plus
  }

  /** ... and many matches are allowed unless all of them are `?`. */
  predicate ManyOk(ops: seq<Token>) {
    exists k :: 0 <= k < |ops| && ops[k] != Quest
  }

  datatype Re =
    | Empty
    | Exact(ts: seq<Token>)
    | AnyChar
    | CharSet(negated: bool, bits: seq<Byte>)
    | Dummy                               // the lone push_dummy_failure an unmatched `)' leaves behind
    | Ignored(ops: seq<Token>)            // repetition characters applied to nothing
    | Cat(a: Re, b: Re)
    | Alt(pre: Re, last: Re)              // `pre' may itself be an Alt: alternatives nest to the left
    | Group(reg: nat, inner: nat, body: Re)
    | ZeroOrMore(body: Re, ops: seq<Token>)
    | OneOrMore(body: Re, ops: seq<Token>)
    | Optional(body: Re, ops: seq<Token>)
    | DotLine(body: Re)                   // the loop emitted for the sequence `.*\n'

  /** The text being matched together with the syntax bits that change what `.' accepts. */
  datatype Input = Input(syn: Syntax, text: seq<Byte>)

  function Pow2(k: nat): nat
    requires k < 8
  {
    [1, 2, 4, 8, 16, 32, 64, 128][k]
  }

  predicate InBitmap(bits: seq<Byte>, c: Byte) {
    c < 8 * |bits| && (bits[c / 8] / Pow2(c % 8)) % 2 == 1
  }

  predicate DotAccepts(syn: Syntax, c: Byte) {
    && (syn.dotNewline || c != NEWLINE)
    && (!syn.dotNotNull || c != 0)
  }

  predicate SetAccepts(negated: bool, bits: seq<Byte>, c: Byte) {
    InBitmap(bits, c) != negated
  }

  // ---------- The language ----------

  /** text[i..j] is in the language of `r'. */
  ghost predicate Matches(g: Input, r: Re, i: nat, j: nat)
    decreases r, 1, 0
  {
    && i <= j <= |g.text|
    && match r
       case Empty => i == j
       case Dummy => i == j
       case Ignored(_) => i == j
       case Exact(ts) => j == i + |ts| && forall k :: 0 <= k < |ts| ==> g.text[i + k] == CharOf(ts[k])
       case AnyChar => j == i + 1 && DotAccepts(g.syn, g.text[i])
       case CharSet(negated, bits) => j == i + 1 && SetAccepts(negated, bits, g.text[i])
       case Cat(a, b) => Concat(g, a, b, i, j)
       case Alt(pre, last) => Matches(g, pre, i, j) || Matches(g, last, i, j)
       case Group(_, _, body) => Matches(g, body, i, j)
       case ZeroOrMore(body, _) => Repeats(g, body, i, j)
       case OneOrMore(body, _) => RepeatsOnceMore(g, body, i, j)
       case Optional(body, _) => i == j || Matches(g, body, i, j)
       case DotLine(body) => Repeats(g, body, i, j)
  }

  ghost predicate Concat(g: Input, a: Re, b: Re, i: nat, j: nat)
    decreases Cat(a, b), 0, 0
  {
    exists k | i <= k <= j :: Matches(g, a, i, k) && Matches(g, b, k, j)
  }

  ghost predicate RepeatsOnceMore(g: Input, body: Re, i: nat, j: nat)
    decreases body, 3, 0
  {
    exists k | i <= k <= j :: Repeats(g, body, i, k) && Matches(g, body, k, j)
  }

  /** text[i..j] is a concatenation of zero or more members of the language of `body'.
      Empty members can be left out, so each listed one is taken to be nonempty. */
  ghost predicate Repeats(g: Input, body: Re, i: nat, j: nat)
    decreases body, 2, j - i
  {
    && i <= j <= |g.text|
    && (i == j || exists k | i < k <= j :: Matches(g, body, i, k) && Repeats(g, body, k, j))
  }

  lemma MatchBounds(g: Input, r: Re, i: nat, j: nat)
    requires Matches(g, r, i, j)
    ensures i <= j <= |g.text|
  {
  }

  lemma MatchesCat(g: Input, a: Re, b: Re, i: nat, k: nat, j: nat)
    requires i <= k <= j <= |g.text|
    requires Matches(g, a, i, k) && Matches(g, b, k, j)
    ensures Matches(g, Cat(a, b), i, j)
  {
    assert Concat(g, a, b, i, j);
  }

  lemma CatSplit(g: Input, a: Re, b: Re, i: nat, j: nat) returns (k: nat)
    requires Matches(g, Cat(a, b), i, j)
    ensures i <= k <= j && Matches(g, a, i, k) && Matches(g, b, k, j)
  {
    assert Concat(g, a, b, i, j);
    k :| i <= k <= j && Matches(g, a, i, k) && Matches(g, b, k, j);
  }

  lemma MatchesOneOrMore(g: Input, body: Re, ops: seq<Token>, i: nat, k: nat, j: nat)
    requires i <= k <= j <= |g.text|
    requires Repeats(g, body, i, k) && Matches(g, body, k, j)
    ensures Matches(g, OneOrMore(body, ops), i, j)
  {
    assert RepeatsOnceMore(g, body, i, j);
  }

  lemma OneOrMoreSplit(g: Input, body: Re, ops: seq<Token>, i: nat, j: nat) returns (k: nat)
    requires Matches(g, OneOrMore(body, ops), i, j)
    ensures i <= k <= j && Repeats(g, body, i, k) && Matches(g, body, k, j)
  {
    assert RepeatsOnceMore(g, body, i, j);
    k :| i <= k <= j && Repeats(g, body, i, k) && Matches(g, body, k, j);
  }

  lemma RepeatsFirstOne(g: Input, body: Re, i: nat, j: nat) returns (k: nat)
    requires Repeats(g, body, i, j) && i < j
    ensures i < k <= j && Matches(g, body, i, k) && Repeats(g, body, k, j)
  {
    k :| i < k <= j && Matches(g, body, i, k) && Repeats(g, body, k, j);
  }

  /** One more member, possibly empty, can be added at the end. */
  lemma {:induction false} RepeatsSnoc(g: Input, body: Re, i: nat, k: nat, j: nat)
    requires Repeats(g, body, i, k) && Matches(g, body, k, j)
    ensures Repeats(g, body, i, j)
    decreases k - i
  {
    if k < j {
      if i == k {
        assert Repeats(g, body, j, j);
      } else {
        var m :| i < m <= k && Matches(g, body, i, m) && Repeats(g, body, m, k);
        RepeatsSnoc(g, body, m, k, j);
      }
    }
  }

  lemma {:induction false} RepeatsOnce(g: Input, body: Re, i: nat, j: nat)
    requires Matches(g, body, i, j)
    ensures Repeats(g, body, i, j)
  {
    assert Repeats(g, body, i, i);
    RepeatsSnoc(g, body, i, i, j);
  }

  /** Two inputs hold the same characters, at g.text[i..j] and from h.text[p] on. */
  ghost predicate SameChars(g: Input, i: nat, j: nat, h: Input, p: nat) {
    && i <= j <= |g.text| && p + (j - i) <= |h.text| && g.syn == h.syn
    && forall m :: i <= m < j ==> g.text[m] == h.text[m - i + p]
  }

  /** Membership depends on the matched characters alone: it is a property of the string text[i..j]. */
  lemma {:induction false} MatchesSlice(g: Input, r: Re, i: nat, j: nat, h: Input, p: nat)
    requires SameChars(g, i, j, h, p)
    requires Matches(g, r, i, j)
    ensures Matches(h, r, p, p + (j - i))
    decreases r, 0, 0
  {
    match r
    case Empty =>
    case Dummy =>
    case Ignored(_) =>
    case Exact(ts) =>
      forall k | 0 <= k < |ts| ensures h.text[p + k] == CharOf(ts[k]) { assert g.text[i + k] == h.text[p + k]; }
    case AnyChar => assert g.text[i] == h.text[p];
    case CharSet(_, _) => assert g.text[i] == h.text[p];
    case Cat(a, b) =>
      var k := CatSplit(g, a, b, i, j);
      MatchesSlice(g, a, i, k, h, p);
      MatchesSlice(g, b, k, j, h, p + (k - i));
      MatchesCat(h, a, b, p, p + (k - i), p + (j - i));
    case Alt(pre, last) =>
      if Matches(g, pre, i, j) { MatchesSlice(g, pre, i, j, h, p); } else { MatchesSlice(g, last, i, j, h, p); }
    case Group(_, _, body) => MatchesSlice(g, body, i, j, h, p);
    case ZeroOrMore(body, _) => RepeatsSlice(g, body, i, j, h, p);
    case OneOrMore(body, _) =>
      var k := OneOrMoreSplit(g, body, r.ops, i, j);
      RepeatsSlice(g, body, i, k, h, p);
      MatchesSlice(g, body, k, j, h, p + (k - i));
      MatchesOneOrMore(h, body, r.ops, p, p + (k - i), p + (j - i));
    case Optional(body, _) => if i != j { MatchesSlice(g, body, i, j, h, p); }
    case DotLine(body) => RepeatsSlice(g, body, i, j, h, p);
  }

  lemma {:induction false} RepeatsSlice(g: Input, body: Re, i: nat, j: nat, h: Input, p: nat)
    requires SameChars(g, i, j, h, p)
    requires Repeats(g, body, i, j)
    ensures Repeats(h, body, p, p + (j - i))
    decreases body, 1, j - i
  {
    if i < j {
      var k :| i < k <= j && Matches(g, body, i, k) && Repeats(g, body, k, j);
      MatchesSlice(g, body, i, k, h, p);
      RepeatsSlice(g, body, k, j, h, p + (k - i));
    }
  }

  /** The string `s' is in the language of `r'. */
  ghost predicate InLanguage(syn: Syntax, r: Re, s: seq<Byte>) {
    Matches(Input(syn, s), r, 0, |s|)
  }

  lemma InLanguageOfSlice(g: Input, r: Re, i: nat, j: nat)
    requires i <= j <= |g.text|
    requires Matches(g, r, i, j)
    ensures InLanguage(g.syn, r, g.text[i..j])
  {
    MatchesSlice(g, r, i, j, Input(g.syn, g.text[i..j]), 0);
  }
}
