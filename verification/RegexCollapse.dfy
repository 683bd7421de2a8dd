/** A run of repetition characters means what they mean one after the other, though the compiler collapses it to one. */
module RegexCollapse {
  import opened RegexTree
  import opened RegexGrammar
  import opened RegexProgress

  /** One repetition character applied to what stands before it. */
  function Applied(body: Re, op: Token): Re {
    if op.Star? then ZeroOrMore(body, [op]) else if op.Plus? then OneOrMore(body, [op]) else Optional(body, [op])
  }

  /** All of them, one after the other. */
  function Nested(body: Re, ops: seq<Token>): Re {
    if ops == [] then body else Applied(Nested(body, ops[..|ops| - 1]), ops[|ops| - 1])
  }

  lemma {:induction false} RepeatsConcat(g: Input, body: Re, i: nat, k: nat, j: nat)
    requires Repeats(g, body, i, k) && Repeats(g, body, k, j)
    ensures Repeats(g, body, i, j)
    decreases k - i
  {
    if i < k {
      var m := RepeatsFirstOne(g, body, i, k);
      RepeatsConcat(g, body, m, k, j);
    }
  }

  /** Everything in the language of a is a repetition of b. */
  ghost predicate Within(g: Input, a: Re, b: Re) {
    forall i: nat, j: nat :: Matches(g, a, i, j) ==> Repeats(g, b, i, j)
  }

  ghost predicate Contains(g: Input, a: Re, b: Re) {
    forall i: nat, j: nat :: Matches(g, b, i, j) ==> Matches(g, a, i, j)
  }

  lemma {:induction false} RepeatsWithin(g: Input, a: Re, b: Re, i: nat, j: nat)
    requires Within(g, a, b) && Repeats(g, a, i, j)
    ensures Repeats(g, b, i, j)
    decreases j - i
  {
    hide Matches;
    if i < j {
      var k := RepeatsFirstOne(g, a, i, j);
      RepeatsWithin(g, a, b, k, j);
      RepeatsConcat(g, b, i, k, j);
    }
  }

  lemma {:induction false} RepeatsMore(g: Input, a: Re, b: Re, i: nat, j: nat)
    requires Contains(g, a, b) && Repeats(g, b, i, j)
    ensures Repeats(g, a, i, j)
    decreases j - i
  {
    hide Matches;
    if i < j {
      var k := RepeatsFirstOne(g, b, i, j);
      RepeatsMore(g, a, b, k, j);
    }
  }

  /** What a run of operators makes of the language: zero of it or not, many of it or not. */
  ghost predicate RunMeans(g: Input, body: Re, ops: seq<Token>, i: nat, j: nat) {
    if ManyOk(ops) then if ZeroOk(ops) then Repeats(g, body, i, j) else RepeatsOnceMore(g, body, i, j)
    else if ZeroOk(ops) then i <= j <= |g.text| && (i == j || Matches(g, body, i, j)) else Matches(g, body, i, j)
  }

  /** A repetition that takes something has a last round. */
  lemma {:induction false} LastRound(g: Input, body: Re, i: nat, j: nat)
    requires Repeats(g, body, i, j) && i < j
    ensures RepeatsOnceMore(g, body, i, j)
    decreases j - i
  {
    hide Matches;
    var k := RepeatsFirstOne(g, body, i, j);
    if k == j {
      assert Repeats(g, body, i, i);
    } else {
      LastRound(g, body, k, j);
      var m :| k <= m <= j && Repeats(g, body, k, m) && Matches(g, body, m, j);
      assert Repeats(g, body, i, m);
    }
  }

  lemma OnceMoreRepeats(g: Input, body: Re, i: nat, k: nat, j: nat)
    requires Repeats(g, body, i, k) && RepeatsOnceMore(g, body, k, j)
    ensures RepeatsOnceMore(g, body, i, j) && Repeats(g, body, i, j)
  {
    hide Matches, Repeats;
    var m :| k <= m <= j && Repeats(g, body, k, m) && Matches(g, body, m, j);
    RepeatsConcat(g, body, i, k, m);
    RepeatsBounds(g, body, i, m);
    RepeatsSnoc(g, body, i, m, j);
  }

  lemma RepeatsBounds(g: Input, body: Re, i: nat, j: nat)
    requires Repeats(g, body, i, j)
    ensures i <= j <= |g.text|
  {
  }

  lemma NoRound(g: Input, body: Re, i: nat)
    requires i <= |g.text|
    ensures Repeats(g, body, i, i)
  {
  }

  /** A run's language is between that of the body and its repetitions. */
  lemma RunBetween(g: Input, body: Re, ops: seq<Token>, i: nat, j: nat)
    ensures RunMeans(g, body, ops, i, j) ==> Repeats(g, body, i, j)
    ensures Matches(g, body, i, j) ==> RunMeans(g, body, ops, i, j)
  {
    hide Matches, Repeats, ZeroOk, ManyOk, RepeatsOnceMore;
    if i <= |g.text| { NoRound(g, body, i); }
    if RepeatsOnceMore(g, body, i, j) {
      MoreBounds(g, body, i, j);
      OnceMoreRepeats(g, body, i, i, j);
    }
    if Matches(g, body, i, j) {
      MatchBounds(g, body, i, j);
      RepeatsOnce(g, body, i, j);
      OneRound(g, body, i, j);
    }
  }

  lemma MoreBounds(g: Input, body: Re, i: nat, j: nat)
    requires RepeatsOnceMore(g, body, i, j)
    ensures i <= j <= |g.text|
  {
    hide Matches, Repeats;
    var k :| i <= k <= j && Repeats(g, body, i, k) && Matches(g, body, k, j);
    MatchBounds(g, body, k, j);
  }

  lemma OneRound(g: Input, body: Re, i: nat, j: nat)
    requires Matches(g, body, i, j)
    ensures RepeatsOnceMore(g, body, i, j)
  {
    hide Matches, Repeats;
    MatchBounds(g, body, i, j);
    NoRound(g, body, i);
  }

  lemma LastOp(ops: seq<Token>, op: Token)
    requires IsRepeat(op)
    ensures ZeroOk(ops + [op]) <==> ZeroOk(ops) || !op.Plus?
    ensures ManyOk(ops + [op]) <==> ManyOk(ops) || !op.Quest?
  {
    var all := ops + [op];
    assert all[|ops|] == op;
    if ZeroOk(ops) { var k :| 0 <= k < |ops| && ops[k] != Plus; assert all[k] != Plus; }
    if ManyOk(ops) { var k :| 0 <= k < |ops| && ops[k] != Quest; assert all[k] != Quest; }
  }

  /** Applying the operators one after the other has that language. */
  lemma {:induction false} NestedMeans(g: Input, body: Re, ops: seq<Token>, i: nat, j: nat)
    requires forall k :: 0 <= k < |ops| ==> IsRepeat(ops[k])
    ensures Matches(g, Nested(body, ops), i, j) <==> RunMeans(g, body, ops, i, j)
    decreases |ops|
  {
    hide Matches, Repeats, ZeroOk, ManyOk, RunMeans;
    if ops == [] {
      NoOps(g, body, i, j);
    } else {
      var n := |ops| - 1;
      var before, op := ops[..n], ops[n];
      assert ops == before + [op];
      forall p: nat, q: nat ensures Matches(g, Nested(body, before), p, q) <==> RunMeans(g, body, before, p, q) {
        NestedMeans(g, body, before, p, q);
      }
      OneMoreOp(g, body, before, op, i, j);
    }
  }

  lemma NoOps(g: Input, body: Re, i: nat, j: nat)
    ensures Matches(g, body, i, j) <==> RunMeans(g, body, [], i, j)
  {
    hide Matches;
  }

  /** What has that language for the operators before has, with one more applied, that of all of them. */
  lemma OneMoreOp(g: Input, body: Re, before: seq<Token>, op: Token, i: nat, j: nat)
    requires IsRepeat(op)
    requires Means(g, Nested(body, before), body, before)
    ensures Matches(g, Applied(Nested(body, before), op), i, j) <==> RunMeans(g, body, before + [op], i, j)
  {
    hide Matches, Repeats, ZeroOk, ManyOk, RepeatsOnceMore, RunMeans;
    var r := Nested(body, before);
    LastOp(before, op);
    if op.Star? {
      StarMeans(g, r, body, before, i, j);
    } else if op.Plus? {
      PlusMeans(g, r, body, before, i, j);
      PlusIs(g, r, i, j);
    } else {
      QuestMeans(g, r, body, before, i, j);
      QuestIs(g, r, i, j);
    }
    RunIs(g, body, before + [op], i, j);
  }

  lemma PlusIs(g: Input, r: Re, i: nat, j: nat)
    ensures Matches(g, OneOrMore(r, [Plus]), i, j) <==> RepeatsOnceMore(g, r, i, j)
  {
    hide Repeats, RepeatsOnceMore;
    if RepeatsOnceMore(g, r, i, j) { MoreBounds(g, r, i, j); }
  }

  lemma QuestIs(g: Input, r: Re, i: nat, j: nat)
    ensures Matches(g, Optional(r, [Quest]), i, j) <==> i <= j <= |g.text| && (i == j || Matches(g, r, i, j))
  {
  }

  lemma RunIs(g: Input, body: Re, ops: seq<Token>, i: nat, j: nat)
    ensures RunMeans(g, body, ops, i, j) <==>
      if ManyOk(ops) then if ZeroOk(ops) then Repeats(g, body, i, j) else RepeatsOnceMore(g, body, i, j)
      else if ZeroOk(ops) then i <= j <= |g.text| && (i == j || Matches(g, body, i, j)) else Matches(g, body, i, j)
  {
    hide Matches, Repeats, RepeatsOnceMore, ZeroOk, ManyOk;
  }

  /** r means what the operators before make of the body. */
  ghost predicate Means(g: Input, r: Re, body: Re, before: seq<Token>) {
    forall p: nat, q: nat :: Matches(g, r, p, q) <==> RunMeans(g, body, before, p, q)
  }

  lemma RepeatsBoth(g: Input, r: Re, body: Re, before: seq<Token>, i: nat, j: nat)
    requires Means(g, r, body, before)
    ensures Repeats(g, r, i, j) <==> Repeats(g, body, i, j)
  {
    hide Matches, Repeats, RunMeans;
    forall p: nat, q: nat ensures (Matches(g, r, p, q) ==> Repeats(g, body, p, q))
                                  && (Matches(g, body, p, q) ==> Matches(g, r, p, q)) {
      RunBetween(g, body, before, p, q);
    }
    if Repeats(g, r, i, j) { RepeatsWithin(g, r, body, i, j); }
    if Repeats(g, body, i, j) { RepeatsMore(g, r, body, i, j); }
  }

  lemma StarMeans(g: Input, r: Re, body: Re, before: seq<Token>, i: nat, j: nat)
    requires Means(g, r, body, before)
    ensures Matches(g, ZeroOrMore(r, [Star]), i, j) <==> Repeats(g, body, i, j)
  {
    hide Means, RunMeans;
    RepeatsBoth(g, r, body, before, i, j);
  }

  lemma PlusMeans(g: Input, r: Re, body: Re, before: seq<Token>, i: nat, j: nat)
    requires Means(g, r, body, before)
    ensures RepeatsOnceMore(g, r, i, j)
            <==> if ZeroOk(before) then Repeats(g, body, i, j) else RepeatsOnceMore(g, body, i, j)
  {
    hide Matches, Repeats, RepeatsOnceMore, ZeroOk, ManyOk;
    if RepeatsOnceMore(g, r, i, j) { PlusGives(g, r, body, before, i, j); }
    if ZeroOk(before) && Repeats(g, body, i, j) {
      RepeatsBounds(g, body, i, j);
      NoRound(g, body, j);
      RepeatsBoth(g, r, body, before, i, j);
      assert Matches(g, r, j, j);
      MoreIs(g, r, i, j, j);
    }
    if !ZeroOk(before) && RepeatsOnceMore(g, body, i, j) {
      if ManyOk(before) {
        OneRound(g, r, i, j);
      } else {
        var k := MoreSplit(g, body, i, j);
        RepeatsBoth(g, r, body, before, i, k);
        MoreIs(g, r, i, k, j);
      }
    }
  }

  lemma PlusGives(g: Input, r: Re, body: Re, before: seq<Token>, i: nat, j: nat)
    requires Means(g, r, body, before) && RepeatsOnceMore(g, r, i, j)
    ensures Repeats(g, body, i, j) && (!ZeroOk(before) ==> RepeatsOnceMore(g, body, i, j))
  {
    hide Matches, Repeats, RepeatsOnceMore, ZeroOk, ManyOk;
    var k := MoreSplit(g, r, i, j);
    RepeatsBoth(g, r, body, before, i, k);
    RunBetween(g, body, before, k, j);
    RepeatsConcat(g, body, i, k, j);
    if !ZeroOk(before) {
      if !ManyOk(before) { OneRound(g, body, k, j); }
      OnceMoreRepeats(g, body, i, k, j);
    }
  }

  lemma MoreIs(g: Input, r: Re, i: nat, k: nat, j: nat)
    requires Repeats(g, r, i, k) && Matches(g, r, k, j)
    ensures RepeatsOnceMore(g, r, i, j)
  {
    hide Matches, Repeats;
    RepeatsBounds(g, r, i, k);
    MatchBounds(g, r, k, j);
  }

  lemma MoreSplit(g: Input, r: Re, i: nat, j: nat) returns (k: nat)
    requires RepeatsOnceMore(g, r, i, j)
    ensures i <= k <= j && Repeats(g, r, i, k) && Matches(g, r, k, j)
  {
    hide Matches, Repeats;
    k :| i <= k <= j && Repeats(g, r, i, k) && Matches(g, r, k, j);
  }

  lemma QuestMeans(g: Input, r: Re, body: Re, before: seq<Token>, i: nat, j: nat)
    requires Means(g, r, body, before)
    ensures i <= j <= |g.text| && (i == j || Matches(g, r, i, j))
            <==> if ManyOk(before) then Repeats(g, body, i, j)
                 else i <= j <= |g.text| && (i == j || Matches(g, body, i, j))
  {
    hide Matches, Repeats, RepeatsOnceMore, ZeroOk, ManyOk;
    RunBetween(g, body, before, i, j);
    if i <= |g.text| { NoRound(g, body, i); }
    if ManyOk(before) && Repeats(g, body, i, j) {
      RepeatsBounds(g, body, i, j);
      if i < j { LastRound(g, body, i, j); }
    }
  }

  /** What the compiler makes of a run of repetition characters has the language they have one after the other. */
  lemma {:induction false} CollapseMeans(g: Input, body: Re, ops: seq<Token>, keep: bool, i: nat, j: nat)
    requires AllRepeats(ops) && (keep && ManyOk(ops) ==> ops == [Star])
    ensures Matches(g, Looped(body, ops, keep), i, j) <==> Matches(g, Nested(body, ops), i, j)
  {
    NestedMeans(g, body, ops, i, j);
    LoopedMeans(g, body, ops, keep, i, j);
  }

  lemma LoopedMeans(g: Input, body: Re, ops: seq<Token>, keep: bool, i: nat, j: nat)
    requires AllRepeats(ops) && (keep && ManyOk(ops) ==> ops == [Star])
    ensures Matches(g, Looped(body, ops, keep), i, j) <==> RunMeans(g, body, ops, i, j)
  {
    hide Repeats, RepeatsOnceMore;
    assert ops[0] != Plus || ops[0] != Quest;
    if Repeats(g, body, i, j) { RepeatsBounds(g, body, i, j); }
    if RepeatsOnceMore(g, body, i, j) { MoreBounds(g, body, i, j); }
  }
}
