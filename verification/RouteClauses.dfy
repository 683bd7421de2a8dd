/** Route-map evaluation of public/cmd/routemap.c on the list of clauses: as the table before the code has it, and as
    the code has it. */
module RouteClauses {

  /** route_map_result_t. */
  datatype Result = Match | DenyMatch | NoMatch | Error | Okay

  datatype Policy = Exit | Goto | Next

  /** A clause; nextpref keeps its value when the policy is no longer Goto. */
  datatype Clause<R> = Clause(permit: bool, pref: int, policy: Policy, nextpref: int, matches: seq<R>, sets: seq<R>)

  /** The functions behind the rules: what a match rule says of a route, and what a set rule makes of it. */
  datatype Rules<!R, !O> = Rules(says: (R, O) -> Result, change: (R, O) -> O)

  function SetAll<R, O>(rules: Rules<R, O>, sets: seq<R>, route: O): O
    decreases |sets|
  {
    if sets == [] then route else SetAll(rules, sets[1..], rules.change(sets[0], route))
  }

  predicate AnyMatches<R, O>(rules: Rules<R, O>, matches: seq<R>, route: O) {
    exists k :: 0 <= k < |matches| && rules.says(matches[k], route) == Match
  }

  /** A clause without match rules matches; otherwise one rule is enough. Without any match the last rule decides. */
  function Said<R, O>(rules: Rules<R, O>, c: Clause<R>, route: O): Result {
    if c.matches == [] || AnyMatches(rules, c.matches, route) then Match
    else rules.says(c.matches[|c.matches| - 1], route)
  }

  /** route_map_apply_index. */
  function Applied<R, O>(rules: Rules<R, O>, c: Clause<R>, route: O): (Result, O) {
    var said := Said(rules, c, route);
    if said != Match then (said, route)
    else if c.permit then (Match, SetAll(rules, c.sets, route))
    else (DenyMatch, route)
  }

  // ---------- What rules do, told without these functions ----------

  /** Set rules run in turn: each changes what the one before has made of the route. */
  lemma {:induction false} SetsInTurn<R, O>(rules: Rules<R, O>, sets: seq<R>, made: seq<O>)
    requires |made| == |sets| + 1 && forall k :: 0 <= k < |sets| ==> made[k + 1] == rules.change(sets[k], made[k])
    ensures SetAll(rules, sets, made[0]) == made[|sets|]
    decreases |sets|
  {
    if sets != [] {
      assert forall k :: 0 <= k < |sets[1..]| ==> made[1..][k + 1] == rules.change(sets[1..][k], made[1..][k]);
      SetsInTurn(rules, sets[1..], made[1..]);
    }
  }

  lemma {:induction false} SetsConcat<R, O>(rules: Rules<R, O>, a: seq<R>, b: seq<R>, route: O)
    ensures SetAll(rules, a + b, route) == SetAll(rules, b, SetAll(rules, a, route))
    decreases |a|
  {
    if a == [] {
      assert a + b == b;
    } else {
      assert (a + b)[1..] == a[1..] + b;
      SetsConcat(rules, a[1..], b, rules.change(a[0], route));
    }
  }

  /** One more set rule acts on what the others make of the route. */
  lemma SetsMore<R, O>(rules: Rules<R, O>, sets: seq<R>, r: R, route: O)
    ensures SetAll(rules, sets + [r], route) == rules.change(r, SetAll(rules, sets, route))
  {
    SetsConcat(rules, sets, [r], route);
    assert SetAll(rules, [r], SetAll(rules, sets, route)) == rules.change(r, SetAll(rules, sets, route));
  }

  /** Whether the clause matches: it has no match rule, or one of them says so. */
  ghost predicate Matches<R, O>(rules: Rules<R, O>, c: Clause<R>, route: O) {
    c.matches == [] || exists k :: 0 <= k < |c.matches| && rules.says(c.matches[k], route) == Match
  }

  /** What the clause gives: the last match rule's answer and the route as it was, or DenyMatch and the route as it was,
      or Match and what the set rules make of the route. */
  ghost predicate Gives<R, O>(rules: Rules<R, O>, c: Clause<R>, route: O, ret: Result, out: O) {
    if !Matches(rules, c, route) then ret == rules.says(c.matches[|c.matches| - 1], route) && ret != Match &&
      out == route
    else if c.permit then ret == Match && out == SetAll(rules, c.sets, route)
    else ret == DenyMatch && out == route
  }

  lemma AppliedGives<R, O>(rules: Rules<R, O>, c: Clause<R>, route: O)
    ensures var (ret, out) := Applied(rules, c, route); Gives(rules, c, route, ret, out)
  {
  }

  ghost predicate Increasing<R>(cs: seq<Clause<R>>) {
    forall i, j :: 0 <= i < j < |cs| ==> cs[i].pref < cs[j].pref
  }

  // ---------- The table ----------

  /** The first clause from j on whose preference is at least p, or the end. */
  function FirstFrom<R>(cs: seq<Clause<R>>, j: nat, p: int): (t: nat)
    requires j <= |cs|
    ensures j <= t <= |cs| && (t < |cs| ==> cs[t].pref >= p) && forall k :: j <= k < t ==> cs[k].pref < p
    decreases |cs| - j
  {
    if j == |cs| || cs[j].pref >= p then j else FirstFrom(cs, j + 1, p)
  }

  /** How a route-map reads, from clause i on: rows a) to d) of the table. Row b) says where a matched deny clause with
      a plain continue goes on, and nothing of one with a number, which is taken to deny; the table knows no rule that
      answers DenyMatch itself, and such a rule is taken to deny as well. */
  function Read<R, O>(rules: Rules<R, O>, cs: seq<Clause<R>>, i: nat, route: O): (Result, O)
    requires i <= |cs|
    decreases |cs| - i
  {
    if i == |cs| then (DenyMatch, route)
    else if Said(rules, cs[i], route) == DenyMatch then (DenyMatch, route)
    else if Said(rules, cs[i], route) != Match then Read(rules, cs, i + 1, route)
    else if !cs[i].permit then
      if cs[i].policy == Next then Read(rules, cs, i + 1, route) else (DenyMatch, route)
    else
      var o := SetAll(rules, cs[i].sets, route);
      match cs[i].policy
      case Exit => (Match, o)
      case Next => Read(rules, cs, i + 1, o)
      case Goto =>
        var t := FirstFrom(cs, i + 1, cs[i].nextpref);
        if t == |cs| then (Match, o) else Read(rules, cs, t, o)
  }

  // ---------- The code ----------

  /** Where the code's search ends: every step compares with the nextpref of the clause just before. */
  function Found<R>(cs: seq<Clause<R>>, j: nat): (t: nat)
    requires 0 < j <= |cs|
    ensures j <= t <= |cs| && (t < |cs| ==> cs[t].pref >= cs[t - 1].nextpref)
    ensures forall k :: j <= k < t ==> cs[k].pref < cs[k - 1].nextpref
    decreases |cs| - j
  {
    if j == |cs| || cs[j].pref >= cs[j - 1].nextpref then j else Found(cs, j + 1)
  }

  function Walk<R, O>(rules: Rules<R, O>, cs: seq<Clause<R>>, i: nat, route: O): (Result, O)
    requires i <= |cs|
    decreases |cs| - i
  {
    if i == |cs| then (DenyMatch, route)
    else
      var (r, o) := Applied(rules, cs[i], route);
      if r == DenyMatch then (DenyMatch, o)
      else if r == Match then
        match cs[i].policy
        case Exit => (Match, o)
        case Next => Walk(rules, cs, i + 1, o)
        case Goto =>
          var t := Found(cs, i + 1);
          if t == |cs| then (Match, o) else Walk(rules, cs, t, o)
      else Walk(rules, cs, i + 1, o)
  }

  /** Without continues the first clause that matches decides; a rule that answers DenyMatch denies, and where none
      matches the route is denied. */
  lemma {:induction false} FirstDecides<R, O>(rules: Rules<R, O>, cs: seq<Clause<R>>, i: nat, t: nat, route: O)
    requires i <= t <= |cs|
    requires forall k :: i <= k < t ==>
      !Matches(rules, cs[k], route) && rules.says(cs[k].matches[|cs[k].matches| - 1], route) != DenyMatch
    ensures t == |cs| ==> Walk(rules, cs, i, route) == (DenyMatch, route)
    ensures t < |cs| && !Matches(rules, cs[t], route)
            && rules.says(cs[t].matches[|cs[t].matches| - 1], route) == DenyMatch ==>
      Walk(rules, cs, i, route) == (DenyMatch, route)
    ensures t < |cs| && Matches(rules, cs[t], route) && !cs[t].permit ==>
      Walk(rules, cs, i, route) == (DenyMatch, route)
    ensures t < |cs| && Matches(rules, cs[t], route) && cs[t].permit && cs[t].policy == Exit ==>
      Walk(rules, cs, i, route) == (Match, SetAll(rules, cs[t].sets, route))
    ensures t < |cs| && Matches(rules, cs[t], route) && cs[t].permit && cs[t].policy == Next ==>
      Walk(rules, cs, i, route) == Walk(rules, cs, t + 1, SetAll(rules, cs[t].sets, route))
    decreases t - i
  {
    hide SetAll, Found;
    if i < |cs| {
      AppliedGives(rules, cs[i], route);
      if i < t { FirstDecides(rules, cs, i + 1, t, route); }
    }
  }

  /** Which clauses the code applies, in order. */
  function Visited<R, O>(rules: Rules<R, O>, cs: seq<Clause<R>>, i: nat, route: O): seq<nat>
    requires i <= |cs|
    decreases |cs| - i
  {
    if i == |cs| then []
    else
      var (r, o) := Applied(rules, cs[i], route);
      if r == DenyMatch then [i]
      else if r == Match then
        match cs[i].policy
        case Exit => [i]
        case Next => [i] + Visited(rules, cs, i + 1, o)
        case Goto =>
          var t := Found(cs, i + 1);
          if t == |cs| then [i] else [i] + Visited(rules, cs, t, o)
      else [i] + Visited(rules, cs, i + 1, o)
  }

  predicate Upwards(v: seq<nat>, from: nat, to: nat) {
    (forall a :: 0 <= a < |v| ==> from <= v[a] < to) && forall a, b :: 0 <= a < b < |v| ==> v[a] < v[b]
  }

  lemma OneInFront(i: nat, v: seq<nat>, from: nat, to: nat)
    requires Upwards(v, from, to) && i < from && i < to
    ensures Upwards([i] + v, i, to)
  {
  }

  lemma {:induction false} VisitsOnwards<R, O>(rules: Rules<R, O>, cs: seq<Clause<R>>, i: nat, route: O)
    requires i <= |cs|
    ensures Upwards(Visited(rules, cs, i, route), i, |cs|)
    decreases |cs| - i
  {
    hide Applied;
    if i < |cs| {
      var (r, o) := Applied(rules, cs[i], route);
      if r == Match && cs[i].policy == Goto {
        var t := Found(cs, i + 1);
        if t < |cs| {
          VisitsOnwards(rules, cs, t, o);
          OneInFront(i, Visited(rules, cs, t, o), t, |cs|);
        }
      } else if r != DenyMatch {
        VisitsOnwards(rules, cs, i + 1, o);
        OneInFront(i, Visited(rules, cs, i + 1, o), i + 1, |cs|);
      }
    }
  }

  /** A run applies clauses of strictly increasing preference, so it ends. */
  lemma VisitsUpwards<R, O>(rules: Rules<R, O>, cs: seq<Clause<R>>, i: nat, route: O, a: nat, b: nat)
    requires i <= |cs| && Increasing(cs) && a < b < |Visited(rules, cs, i, route)|
    ensures var v := Visited(rules, cs, i, route); v[a] < v[b] < |cs| && cs[v[a]].pref < cs[v[b]].pref
  {
    VisitsOnwards(rules, cs, i, route);
  }

  // ---------- When the two agree ----------

  /** The clauses that a continue from clause i skips do not themselves end the search early, nor miss its end. */
  ghost predicate SkipsWell<R>(cs: seq<Clause<R>>, i: nat)
    requires i < |cs|
  {
    var t := FirstFrom(cs, i + 1, cs[i].nextpref);
    && (forall k :: i + 1 < k < t ==> cs[k].pref < cs[k - 1].nextpref)
    && (i + 1 < t < |cs| ==> cs[t].pref >= cs[t - 1].nextpref)
  }

  /** A continue goes where the table says if and only if the skipped clauses let it. */
  lemma JumpRight<R>(cs: seq<Clause<R>>, i: nat)
    requires i < |cs|
    ensures Found(cs, i + 1) == FirstFrom(cs, i + 1, cs[i].nextpref) <==> SkipsWell(cs, i)
  {
    var t, f := FirstFrom(cs, i + 1, cs[i].nextpref), Found(cs, i + 1);
    assert f < t && f > i + 1 ==> cs[f].pref >= cs[f - 1].nextpref;
    assert t < f ==> cs[t].pref < cs[t - 1].nextpref;
  }

  /** With at most one clause skipped, whose own nextpref was never set, a continue goes where the table says. */
  lemma OneSkipped<R>(cs: seq<Clause<R>>, i: nat)
    requires i < |cs| && FirstFrom(cs, i + 1, cs[i].nextpref) <= i + 2
    requires i + 1 < |cs| && FirstFrom(cs, i + 1, cs[i].nextpref) == i + 2 ==> cs[i + 1].nextpref == 0
    requires forall k :: 0 <= k < |cs| ==> cs[k].pref >= 0
    ensures Found(cs, i + 1) == FirstFrom(cs, i + 1, cs[i].nextpref)
  {
    JumpRight(cs, i);
  }

  /** Two clauses skipped: the search ends at the second, whose predecessor has no nextpref. */
  lemma TwoSkipped<R>(rule: R)
    ensures var c := (pref: int, policy, nextpref) => Clause(true, pref, policy, nextpref, [], [rule]);
            var cs := [c(1, Goto, 4), c(2, Exit, 0), c(3, Exit, 0), c(4, Exit, 0)];
            Increasing(cs) && FirstFrom(cs, 1, 4) == 3 && Found(cs, 1) == 2
  {
    var c := (pref: int, policy, nextpref) => Clause(true, pref, policy, nextpref, [], [rule]);
    var cs := [c(1, Goto, 4), c(2, Exit, 0), c(3, Exit, 0), c(4, Exit, 0)];
    assert cs[1].pref == 2 && cs[2].pref == 3 && cs[3].pref == 4;
    assert cs[0].nextpref == 4 && cs[1].nextpref == 0;
  }

  /** A deny clause with a plain continue denies, where row b) of the table goes on to the next clause. */
  lemma DenyStops<R, O>(rules: Rules<R, O>, route: O)
    ensures var cs := [Clause(false, 1, Next, 0, [], []), Clause(true, 2, Exit, 0, [], [])];
            Increasing(cs) && Read(rules, cs, 0, route) == (Match, route)
              && Walk(rules, cs, 0, route) == (DenyMatch, route)
  {
    var cs: seq<Clause<R>> := [Clause(false, 1, Next, 0, [], []), Clause(true, 2, Exit, 0, [], [])];
    assert Read(rules, cs, 1, route) == (Match, route);
  }

  ghost predicate DeniesFrom<R>(cs: seq<Clause<R>>, j: nat) {
    forall k :: j <= k < |cs| ==> !cs[k].permit
  }

  /** No permit clause stands behind a deny clause with a plain continue, and a permit clause's continue goes where the
      table says, or else both places have only deny clauses from there on. */
  ghost predicate ReadsRight<R>(cs: seq<Clause<R>>) {
    forall k :: 0 <= k < |cs| ==> ContinuesRight(cs, k)
  }

  ghost predicate ContinuesRight<R>(cs: seq<Clause<R>>, k: nat)
    requires k < |cs|
  {
    && (!cs[k].permit && cs[k].policy == Next ==> DeniesFrom(cs, k + 1))
    && (cs[k].permit && cs[k].policy == Goto ==> SkipsWell(cs, k) || OnlyDenies(cs, k))
  }

  ghost predicate OnlyDenies<R>(cs: seq<Clause<R>>, k: nat)
    requires k < |cs|
  {
    var t, f := FirstFrom(cs, k + 1, cs[k].nextpref), Found(cs, k + 1);
    t < |cs| && f < |cs| && DeniesFrom(cs, if f < t then f else t)
  }

  lemma {:induction false} AllDeny<R, O>(rules: Rules<R, O>, cs: seq<Clause<R>>, i: nat, route: O)
    requires i <= |cs| && DeniesFrom(cs, i)
    ensures Walk(rules, cs, i, route) == Read(rules, cs, i, route) == (DenyMatch, route)
    decreases |cs| - i
  {
    if i < |cs| { AllDeny(rules, cs, i + 1, route); }
  }

  lemma {:induction false} WalkReads<R, O>(rules: Rules<R, O>, cs: seq<Clause<R>>, i: nat, route: O)
    requires i <= |cs| && ReadsRight(cs)
    ensures Walk(rules, cs, i, route) == Read(rules, cs, i, route)
    decreases |cs| - i
  {
    hide SkipsWell, Said, SetAll;
    if i < |cs| {
      assert ContinuesRight(cs, i);
      var o := Applied(rules, cs[i], route).1;
      if Said(rules, cs[i], route) != Match {
        WalkReads(rules, cs, i + 1, o);
      } else if !cs[i].permit {
        if cs[i].policy == Next { AllDeny(rules, cs, i + 1, o); }
      } else if cs[i].policy == Goto {
        var t, f := FirstFrom(cs, i + 1, cs[i].nextpref), Found(cs, i + 1);
        JumpRight(cs, i);
        if t != f {
          AllDeny(rules, cs, t, o);
          AllDeny(rules, cs, f, o);
        } else if t < |cs| {
          WalkReads(rules, cs, t, o);
        }
      } else {
        WalkReads(rules, cs, i + 1, o);
      }
    }
  }

  // ---------- Where they disagree, some rules show it ----------

  /** The same clauses but for the rules in them. */
  predicate SameClauses<R, S>(cs: seq<Clause<R>>, ds: seq<Clause<S>>) {
    |cs| == |ds| && forall k :: 0 <= k < |cs| ==>
      ds[k].permit == cs[k].permit && ds[k].pref == cs[k].pref && ds[k].policy == cs[k].policy
      && ds[k].nextpref == cs[k].nextpref
  }

  ghost predicate Agree<R, O>(rules: Rules<R, O>, cs: seq<Clause<R>>, route: O) {
    Walk(rules, cs, 0, route) == Read(rules, cs, 0, route)
  }

  /** A rule says whether it matches; setting counts. */
  function Marking(): Rules<bool, nat> {
    Rules((r, o) => if r then Match else NoMatch, (r, o) => o + 1)
  }

  /** Just the clauses in hits match, and each of them counts once if it permits. */
  function Marked<R>(cs: seq<Clause<R>>, hits: set<nat>): (ds: seq<Clause<bool>>)
    ensures |ds| == |cs| && SameClauses(cs, ds)
  {
    seq(|cs|, (k: nat) requires k < |cs| =>
      Clause(cs[k].permit, cs[k].pref, cs[k].policy, cs[k].nextpref, [k in hits], [true]))
  }

  lemma MarkedApplied<R>(cs: seq<Clause<R>>, hits: set<nat>, k: nat, route: nat)
    requires k < |cs|
    ensures Applied(Marking(), Marked(cs, hits)[k], route)
         == if k !in hits then (NoMatch, route) else if cs[k].permit then (Match, route + 1) else (DenyMatch, route)
    ensures Said(Marking(), Marked(cs, hits)[k], route) == (if k in hits then Match else NoMatch)
    ensures SetAll(Marking(), Marked(cs, hits)[k].sets, route) == route + 1
  {
    var c := Marked(cs, hits)[k];
    assert c.matches[0] == (k in hits);
    assert c.sets == [true] && c.sets[1..] == [];
    assert SetAll(Marking(), c.sets[1..], route + 1) == route + 1;
  }

  lemma {:induction false} FoundSame<R, S>(cs: seq<Clause<R>>, ds: seq<Clause<S>>, j: nat)
    requires SameClauses(cs, ds) && 0 < j <= |cs|
    ensures Found(cs, j) == Found(ds, j)
    decreases |cs| - j
  {
    if j < |cs| && cs[j].pref < cs[j - 1].nextpref { FoundSame(cs, ds, j + 1); }
  }

  lemma {:induction false} FirstSame<R, S>(cs: seq<Clause<R>>, ds: seq<Clause<S>>, j: nat, p: int)
    requires SameClauses(cs, ds) && j <= |cs|
    ensures FirstFrom(cs, j, p) == FirstFrom(ds, j, p)
    decreases |cs| - j
  {
    if j < |cs| && cs[j].pref < p { FirstSame(cs, ds, j + 1, p); }
  }

  /** Clauses that do not match are passed over. */
  lemma {:induction false} PassOver<R>(cs: seq<Clause<R>>, hits: set<nat>, i: nat, j: nat, route: nat)
    requires i <= j <= |cs| && forall k :: i <= k < j ==> k !in hits
    ensures Walk(Marking(), Marked(cs, hits), i, route) == Walk(Marking(), Marked(cs, hits), j, route)
    ensures Read(Marking(), Marked(cs, hits), i, route) == Read(Marking(), Marked(cs, hits), j, route)
    decreases j - i
  {
    hide Applied, Marked, Marking, Said, SetAll;
    if i < j {
      MarkedApplied(cs, hits, i, route);
      PassOver(cs, hits, i + 1, j, route);
    }
  }

  /** When the last clause to match permits, it is counted. */
  lemma LastCounts<R>(cs: seq<Clause<R>>, hits: set<nat>, i: nat, m: nat, route: nat)
    requires i <= m < |cs| && m in hits && cs[m].permit && forall k :: i <= k < |cs| && k != m ==> k !in hits
    ensures Walk(Marking(), Marked(cs, hits), i, route).1 == route + 1
    ensures Read(Marking(), Marked(cs, hits), i, route).1 == route + 1
  {
    hide Applied, Marked, Marking, Said, SetAll;
    var ds := Marked(cs, hits);
    PassOver(cs, hits, i, m, route);
    MarkedApplied(cs, hits, m, route);
    PassOver(cs, hits, m + 1, |cs|, route + 1);
    if cs[m].policy == Goto {
      var t, f := FirstFrom(ds, m + 1, ds[m].nextpref), Found(ds, m + 1);
      PassOver(cs, hits, t, |cs|, route + 1);
      PassOver(cs, hits, f, |cs|, route + 1);
    }
  }

  lemma DenyShows<R>(cs: seq<Clause<R>>, k: nat, m: nat)
    requires k < m < |cs| && !cs[k].permit && cs[k].policy == Next && cs[m].permit
    ensures !Agree(Marking(), Marked(cs, {k, m}), 0)
  {
    hide Applied, Marked, Marking, Said, SetAll;
    var hits: set<nat> := {k, m};
    PassOver(cs, hits, 0, k, 0);
    MarkedApplied(cs, hits, k, 0);
    LastCounts(cs, hits, k + 1, m, 0);
  }

  /** After the continue of a permit clause k that matches, one run goes on at t and the other at f. */
  lemma AfterJump<R>(cs: seq<Clause<R>>, hits: set<nat>, k: nat)
    requires k < |cs| && k in hits && cs[k].permit && cs[k].policy == Goto && forall j :: 0 <= j < k ==> j !in hits
    ensures var t, f, ds := FirstFrom(cs, k + 1, cs[k].nextpref), Found(cs, k + 1), Marked(cs, hits);
            && Read(Marking(), ds, 0, 0) == (if t == |cs| then (Match, 1) else Read(Marking(), ds, t, 1))
            && Walk(Marking(), ds, 0, 0) == (if f == |cs| then (Match, 1) else Walk(Marking(), ds, f, 1))
  {
    hide Applied, Marked, Marking, Said, SetAll;
    PassOver(cs, hits, 0, k, 0);
    MarkedApplied(cs, hits, k, 0);
    FoundSame(cs, Marked(cs, hits), k + 1);
    FirstSame(cs, Marked(cs, hits), k + 1, cs[k].nextpref);
  }

  /** Where the two runs are after the continue of clause k, the nearer place first. */
  function Nearer<R>(cs: seq<Clause<R>>, k: nat): (a: nat)
    requires k < |cs|
    ensures a <= |cs|
  {
    var t, f := FirstFrom(cs, k + 1, cs[k].nextpref), Found(cs, k + 1);
    if f < t then f else t
  }

  function Farther<R>(cs: seq<Clause<R>>, k: nat): (b: nat)
    requires k < |cs|
    ensures b <= |cs|
  {
    var t, f := FirstFrom(cs, k + 1, cs[k].nextpref), Found(cs, k + 1);
    if f < t then t else f
  }

  ghost predicate Parts<R>(cs: seq<Clause<R>>, k: nat) {
    k < |cs| && cs[k].permit && cs[k].policy == Goto && Nearer(cs, k) < Farther(cs, k)
  }

  /** One run is past the end. */
  lemma EndShows<R>(cs: seq<Clause<R>>, k: nat)
    requires Parts(cs, k) && Farther(cs, k) == |cs|
    ensures !Agree(Marking(), Marked(cs, {k}), 0)
  {
    hide Applied, Marked, Marking, Said, SetAll;
    var hits: set<nat> := {k};
    AfterJump(cs, hits, k);
    PassOver(cs, hits, Nearer(cs, k), |cs|, 1);
  }

  /** One run misses a permit clause. */
  lemma MissShows<R>(cs: seq<Clause<R>>, k: nat, m: nat)
    requires Parts(cs, k) && Nearer(cs, k) <= m < Farther(cs, k) && cs[m].permit
    ensures !Agree(Marking(), Marked(cs, {k, m}), 0)
  {
    hide Applied, Marked, Marking, Said, SetAll;
    var hits: set<nat> := {k, m};
    AfterJump(cs, hits, k);
    LastCounts(cs, hits, Nearer(cs, k), m, 1);
    PassOver(cs, hits, Farther(cs, k), |cs|, 1);
  }

  /** One run is denied before it gets to a permit clause. */
  lemma DeniedShows<R>(cs: seq<Clause<R>>, k: nat, m: nat)
    requires Parts(cs, k) && Farther(cs, k) <= m < |cs| && cs[m].permit
    requires !cs[Nearer(cs, k)].permit && cs[Nearer(cs, k)].policy != Next
    ensures !Agree(Marking(), Marked(cs, {k, Nearer(cs, k), m}), 0)
  {
    hide Applied, Marked, Marking, Said, SetAll;
    var a := Nearer(cs, k);
    var hits: set<nat> := {k, a, m};
    AfterJump(cs, hits, k);
    MarkedApplied(cs, hits, a, 1);
    LastCounts(cs, hits, Farther(cs, k), m, 1);
  }

  predicate DeniesBetween<R>(cs: seq<Clause<R>>, a: nat, m: nat)
    requires m <= |cs|
  {
    forall j :: a <= j < m ==> !cs[j].permit
  }

  /** The first permit clause from j on. */
  lemma {:induction false} FirstPermit<R>(cs: seq<Clause<R>>, j: nat) returns (m: nat)
    requires !DeniesFrom(cs, j)
    ensures j <= m < |cs| && cs[m].permit && DeniesBetween(cs, j, m)
    decreases |cs| - j
  {
    if j < |cs| && !cs[j].permit { m := FirstPermit(cs, j + 1); } else { m := j; }
  }

  lemma SomeShows<R>(cs: seq<Clause<R>>) returns (hits: set<nat>)
    requires !ReadsRight(cs)
    ensures !Agree(Marking(), Marked(cs, hits), 0)
  {
    hide Agree, Marking, Marked, SkipsWell, FirstFrom, Found;
    if k :| 0 <= k < |cs| && !cs[k].permit && cs[k].policy == Next && !DeniesFrom(cs, k + 1) {
      var m := FirstPermit(cs, k + 1);
      hits := {k, m};
      DenyShows(cs, k, m);
    } else {
      var k :| 0 <= k < |cs| && !ContinuesRight(cs, k);
      JumpRight(cs, k);
      hits := JumpShows(cs, k);
    }
  }

  lemma JumpShows<R>(cs: seq<Clause<R>>, k: nat) returns (hits: set<nat>)
    requires Parts(cs, k) && !OnlyDenies(cs, k)
    requires forall j :: 0 <= j < |cs| && !cs[j].permit && cs[j].policy == Next ==> DeniesFrom(cs, j + 1)
    ensures !Agree(Marking(), Marked(cs, hits), 0)
  {
    hide Agree, Marking, Marked, FirstFrom, Found;
    if Farther(cs, k) == |cs| {
      hits := {k};
      EndShows(cs, k);
    } else {
      var m := FirstPermit(cs, Nearer(cs, k));
      if m < Farther(cs, k) {
        hits := {k, m};
        MissShows(cs, k, m);
      } else {
        hits := {k, Nearer(cs, k), m};
        DeniedShows(cs, k, m);
      }
    }
  }

  /** The code agrees with the table, whatever rules the clauses have, whatever these say and do and whatever the route,
      if and only if the clauses read right. */
  lemma ReadsExactly(cs: seq<Clause<bool>>)
    ensures ReadsRight(cs) <==>
            forall ds: seq<Clause<bool>>, rules: Rules<bool, nat>, route: nat ::
              SameClauses(cs, ds) ==> Agree(rules, ds, route)
  {
    hide Marking, Marked, SkipsWell, FirstFrom, Found, Walk, Read;
    if ReadsRight(cs) {
      forall ds: seq<Clause<bool>>, rules: Rules<bool, nat>, route: nat | SameClauses(cs, ds)
        ensures Agree(rules, ds, route)
      {
        RightSame(cs, ds);
        WalkReads(rules, ds, 0, route);
      }
    } else {
      var hits := SomeShows(cs);
      assert SameClauses(cs, Marked(cs, hits));
    }
  }

  lemma RightSame<R, S>(cs: seq<Clause<R>>, ds: seq<Clause<S>>)
    requires SameClauses(cs, ds) && ReadsRight(cs)
    ensures ReadsRight(ds)
  {
    hide FirstFrom, Found, ContinuesRight;
    forall k | 0 <= k < |ds| ensures ContinuesRight(ds, k) {
      assert ContinuesRight(cs, k);
      RightAt(cs, ds, k);
    }
  }

  lemma RightAt<R, S>(cs: seq<Clause<R>>, ds: seq<Clause<S>>, k: nat)
    requires SameClauses(cs, ds) && k < |cs| && ContinuesRight(cs, k)
    ensures ContinuesRight(ds, k)
  {
    hide FirstFrom, Found, SkipsWell;
    FoundSame(cs, ds, k + 1);
    FirstSame(cs, ds, k + 1, cs[k].nextpref);
    JumpRight(cs, k);
    JumpRight(ds, k);
  }
}
