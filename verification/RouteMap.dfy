/** public/cmd/routemap.c: the clauses of a route-map, kept on a doubly linked list in order of preference. */
module RouteMaps {
  import opened Lists
  import opened RouteClauses

  class Index<R> {
    const permit: bool
    const pref: int
    var policy: Policy
    var nextpref: int
    var matches: seq<R>
    var sets: seq<R>
    var next: Index?<R>
    var prev: Index?<R>

    constructor (permit: bool, pref: int)
      ensures this.permit == permit && this.pref == pref && policy == Exit && nextpref == 0
      ensures matches == sets == [] && next == null && prev == null
    {
      this.permit, this.pref, policy, nextpref := permit, pref, Exit, 0;
      matches, sets, next, prev := [], [], null, null;
    }

    function Clause(): Clause<R>
      reads this
    {
      RouteClauses.Clause(permit, pref, policy, nextpref, matches, sets)
    }
  }

  function At<R>(items: seq<Index<R>>, k: int): Index?<R> {
    if 0 <= k < |items| then items[k] else null
  }

  function NewClause<R>(permit: bool, pref: int): Clause<R> {
    RouteClauses.Clause(permit, pref, Exit, 0, [], [])
  }

  /** What asking for a clause leaves: the clause that was there if it has the right type, else a new one in its place
      or where its preference belongs. */
  function Got<R>(cs: seq<Clause<R>>, permit: bool, pref: int): seq<Clause<R>> {
    var k := FirstFrom(cs, 0, pref);
    if k == |cs| || cs[k].pref != pref then cs[..k] + [NewClause(permit, pref)] + cs[k..]
    else if cs[k].permit == permit then cs
    else cs[k := NewClause(permit, pref)]
  }

  /** A continue to a given clause goes forward. */
  predicate Forward<R>(cs: seq<Clause<R>>) {
    forall k :: 0 <= k < |cs| && cs[k].policy == Goto ==> cs[k].nextpref > cs[k].pref
  }

  lemma GotKeeps<R>(cs: seq<Clause<R>>, permit: bool, pref: int)
    requires Increasing(cs)
    ensures Increasing(Got(cs, permit, pref)) && (Forward(cs) ==> Forward(Got(cs, permit, pref)))
  {
    var k := FirstFrom(cs, 0, pref);
    if k == |cs| || cs[k].pref != pref {
      PutInKeeps(cs, k, NewClause(permit, pref));
    }
  }

  lemma PutInKeeps<R>(cs: seq<Clause<R>>, k: nat, c: Clause<R>)
    requires Increasing(cs) && k <= |cs| && (forall i :: 0 <= i < k ==> cs[i].pref < c.pref)
    requires (k < |cs| ==> c.pref < cs[k].pref) && c.policy != Goto
    ensures Increasing(cs[..k] + [c] + cs[k..]) && (Forward(cs) ==> Forward(cs[..k] + [c] + cs[k..]))
  {
    var got := cs[..k] + [c] + cs[k..];
    forall i | 0 <= i < |got| ensures got[i] == if i < k then cs[i] else if i == k then c else cs[i - 1] { }
    forall i | k < i < |got| ensures got[i].pref > c.pref { assert k < i - 1 ==> cs[k].pref < cs[i - 1].pref; }
  }

  lemma DeletedKeeps<R>(cs: seq<Clause<R>>, k: nat)
    requires Increasing(cs) && k < |cs|
    ensures Increasing(cs[..k] + cs[k + 1..]) && (Forward(cs) ==> Forward(cs[..k] + cs[k + 1..]))
  {
    var rest := cs[..k] + cs[k + 1..];
    forall i | 0 <= i < |rest| ensures rest[i] == cs[if i < k then i else i + 1] { }
  }

  /** What the commands do to the clauses: entering a clause, deleting one, and continue with and without a number. */
  datatype Edit = Enter(permit: bool, pref: int) | Remove(k: nat) | ContinueTo(k: nat, d: int) | Plain(k: nat, go: bool)

  function Edited<R>(cs: seq<Clause<R>>, e: Edit): seq<Clause<R>> {
    match e
    case Enter(permit, pref) => Got(cs, permit, pref)
    case Remove(k) => if k < |cs| then cs[..k] + cs[k + 1..] else cs
    case ContinueTo(k, d) => if k < |cs| && d > cs[k].pref then cs[k := cs[k].(policy := Goto, nextpref := d)] else cs
    case Plain(k, go) => if k < |cs| then cs[k := cs[k].(policy := if go then Next else Exit)] else cs
  }

  function EditedAll<R>(cs: seq<Clause<R>>, es: seq<Edit>): seq<Clause<R>>
    decreases |es|
  {
    if es == [] then cs else EditedAll(Edited(cs, es[0]), es[1..])
  }

  lemma EditKeeps<R>(cs: seq<Clause<R>>, e: Edit)
    requires Increasing(cs) && Forward(cs)
    ensures Increasing(Edited(cs, e)) && Forward(Edited(cs, e))
  {
    match e
    case Enter(permit, pref) => GotKeeps(cs, permit, pref);
    case Remove(k) => if k < |cs| { DeletedKeeps(cs, k); }
    case ContinueTo(_, _) =>
    case Plain(_, _) =>
  }

  /** Over any run of edits of a new route-map preferences stay strictly increasing and continues go forward. */
  lemma {:induction false} EditsKeep<R>(cs: seq<Clause<R>>, es: seq<Edit>)
    requires Increasing(cs) && Forward(cs)
    ensures Increasing(EditedAll(cs, es)) && Forward(EditedAll(cs, es))
    decreases |es|
  {
    hide Increasing, Forward, Edited;
    if es != [] {
      EditKeeps(cs, es[0]);
      EditsKeep(Edited(cs, es[0]), es[1..]);
    }
  }

  class RouteMap<R> {
    var head: Index?<R>
    var tail: Index?<R>
    ghost var items: seq<Index<R>>

    ghost predicate Linked(k: nat)
      requires k < |items|
      reads this, items
    {
      items[k].next == At(items, k + 1) && items[k].prev == At(items, k - 1)
    }

    ghost predicate Valid()
      reads this, items
    {
      && head == At(items, 0) && tail == At(items, |items| - 1) && Distinct(items)
      && forall k :: 0 <= k < |items| ==> Linked(k)
    }

    ghost function Members(): set<Index<R>>
      reads this
    {
      set t | t in items
    }

    ghost function Clauses(): (cs: seq<Clause<R>>)
      reads this, items
      ensures |cs| == |items| && forall k :: 0 <= k < |items| ==> cs[k] == items[k].Clause()
    {
      seq(|items|, k requires 0 <= k < |items| reads this, items => items[k].Clause())
    }

    constructor ()
      ensures Valid() && items == [] && Clauses() == []
    {
      head, tail, items := null, null, [];
    }

    /** route_map_index_lookup; no type stands for any. */
    method Lookup(anyType: bool, permit: bool, pref: int) returns (index: Index?<R>, ghost k: nat)
      requires Valid() && Increasing(Clauses())
      ensures Valid() && Clauses() == old(Clauses())
      ensures index == null ==> forall j :: 0 <= j < |items| ==>
        items[j].pref != pref || (!anyType && items[j].permit != permit)
      ensures index != null ==>
        k < |items| && items[k] == index && index.pref == pref && (anyType || index.permit == permit)
    {
      index, k := head, 0;
      while index != null
        invariant k <= |items| && index == At(items, k)
        invariant forall j :: 0 <= j < k ==> items[j].pref != pref || (!anyType && items[j].permit != permit)
        decreases |items| - k
      {
        if (index.permit == permit || anyType) && index.pref == pref { return; }
        assert Linked(k);
        index, k := index.next, k + 1;
      }
    }

    /** route_map_index_add: in front of the first clause whose preference is not smaller. */
    method Add(permit: bool, pref: int) returns (index: Index<R>)
      requires Valid()
      modifies this, Members()`next, Members()`prev
      ensures Valid() && fresh(index) && index in items && index.permit == permit && index.pref == pref
      ensures var k := FirstFrom(old(Clauses()), 0, pref);
              items == old(items[..k]) + [index] + old(items[k..])
              && Clauses() == old(Clauses())[..k] + [NewClause(permit, pref)] + old(Clauses())[k..]
    {
      hide Valid, FirstFrom, Clauses;
      ghost var was, cs := items, Clauses();
      index := new Index(permit, pref);
      assert Clauses() == cs;
      var point, k := Place(pref);
      Link(index, point, k);
    }

    method Place(pref: int) returns (point: Index?<R>, ghost k: nat)
      requires Valid()
      ensures k == FirstFrom(Clauses(), 0, pref) && point == At(items, k)
    {
      point, k := head, 0;
      while point != null
        invariant k <= |items| && point == At(items, k) && FirstFrom(Clauses(), 0, pref) == FirstFrom(Clauses(), k,
                  pref)
        decreases |items| - k
      {
        if point.pref >= pref { break; }
        assert Linked(k);
        point, k := point.next, k + 1;
      }
    }

    method Link(index: Index<R>, point: Index?<R>, ghost k: nat)
      requires Valid() && k <= |items| && point == At(items, k) && index !in items && index.next == null
               && index.prev == null
      modifies this, Members()`next, Members()`prev, index`next, index`prev
      ensures Valid() && items == old(items[..k]) + [index] + old(items[k..])
    {
      if k < |items| { assert Linked(k); }
      if k > 0 { assert Linked(k - 1); }
      if head == null {
        head, tail := index, index;
      } else if point == null {
        index.prev := tail;
        tail.next := index;
        tail := index;
      } else if point == head {
        index.next := head;
        head.prev := index;
        head := index;
      } else {
        index.next := point;
        index.prev := point.prev;
        if point.prev != null { point.prev.next := index; }
        point.prev := index;
      }
      items := items[..k] + [index] + items[k..];
      forall m | 0 <= m < |items| ensures Linked(m) {
        if m < k { assert old(Linked(m)); } else if m > k { assert old(Linked(m - 1)); }
      }
    }

    /** route_map_index_delete, of the k-th clause. */
    method Delete(index: Index<R>, ghost k: nat)
      requires Valid() && k < |items| && items[k] == index
      modifies this, Members()`next, Members()`prev
      ensures Valid() && items == old(items[..k]) + old(items[k + 1..])
      ensures Clauses() == Edited(old(Clauses()), Remove(k))
    {
      hide Valid, Clauses;
      Unlink(index, k);
    }

    method Unlink(index: Index<R>, ghost k: nat)
      requires Valid() && k < |items| && items[k] == index
      modifies this, Members()`next, Members()`prev
      ensures Valid() && items == old(items[..k]) + old(items[k + 1..])
    {
      assert Linked(k);
      if k > 0 { assert Linked(k - 1); }
      if k + 1 < |items| { assert Linked(k + 1); }
      if index.next != null {
        index.next.prev := index.prev;
      } else {
        tail := index.prev;
      }
      if index.prev != null {
        index.prev.next := index.next;
      } else {
        head := index.next;
      }
      items := items[..k] + items[k + 1..];
      forall m | 0 <= m < |items| ensures Linked(m) {
        if m < k { assert old(Linked(m)); } else { assert old(Linked(m + 1)); }
      }
    }

    /** route_map_index_get: the preferences stay strictly increasing. */
    method Get(permit: bool, pref: int) returns (index: Index<R>)
      requires Valid() && Increasing(Clauses())
      modifies this, Members()`next, Members()`prev
      ensures Valid() && Clauses() == Edited(old(Clauses()), Enter(permit, pref)) && Increasing(Clauses())
      ensures index in items && index.permit == permit && index.pref == pref
    {
      hide Valid, Clauses, Increasing, FirstFrom, NewClause, Got;
      ghost var cs := Clauses();
      GotKeeps(cs, permit, pref);
      var found, k := Lookup(true, permit, pref);
      if found == null {
        NoneThere(cs, permit, pref);
      } else {
        OneThere(cs, k, permit, pref);
        if found.permit != permit {
          Delete(found, k);
          found := null;
        }
      }
      if found == null {
        index := Add(permit, pref);
      } else {
        index := found;
      }
    }

    static lemma OneThere(cs: seq<Clause<R>>, k: nat, permit: bool, pref: int)
      requires Increasing(cs) && k < |cs| && cs[k].pref == pref
      ensures cs[k].permit == permit ==> Got(cs, permit, pref) == cs
      ensures cs[k].permit != permit ==>
        var rest := cs[..k] + cs[k + 1..];
        var f := FirstFrom(rest, 0, pref);
        Got(cs, permit, pref) == rest[..f] + [NewClause(permit, pref)] + rest[f..]
    {
      forall j | 0 <= j < k ensures cs[j].pref < pref { }
      Replaced(cs, k, permit, pref);
    }

    static lemma NoneThere(cs: seq<Clause<R>>, permit: bool, pref: int)
      requires forall j :: 0 <= j < |cs| ==> cs[j].pref != pref
      ensures var f := FirstFrom(cs, 0, pref); Got(cs, permit, pref) == cs[..f] + [NewClause(permit, pref)] + cs[f..]
    {
    }

    static lemma Replaced(cs: seq<Clause<R>>, k: nat, permit: bool, pref: int)
      requires Increasing(cs) && k < |cs| && cs[k].pref == pref
      ensures var rest := cs[..k] + cs[k + 1..];
              Increasing(rest) && FirstFrom(rest, 0, pref) == k
              && rest[..k] + [NewClause(permit, pref)] + rest[k..] == cs[k := NewClause(permit, pref)]
    {
      var rest := cs[..k] + cs[k + 1..];
      DeletedKeeps(cs, k);
      forall j | 0 <= j < k ensures rest[j].pref < pref { assert rest[j] == cs[j]; }
      if k < |rest| { assert rest[k] == cs[k + 1]; }
    }

    /** continue with a sequence number; a step that would not go forward is refused. */
    method ContinueAt(index: Index<R>, d: int, ghost k: nat) returns (ok: bool)
      requires Valid() && k < |items| && items[k] == index
      modifies index`policy, index`nextpref
      ensures Valid() && ok == (d > index.pref)
      ensures Clauses() == Edited(old(Clauses()), ContinueTo(k, d))
      ensures if ok then index.policy == Goto && index.nextpref == d else Clauses() == old(Clauses())
      ensures old(Increasing(Clauses())) ==> Increasing(Clauses())
      ensures old(Forward(Clauses())) ==> Forward(Clauses())
    {
      ghost var cs := Clauses();
      if d <= index.pref { return false; }
      index.policy := Goto;
      index.nextpref := d;
      ok := true;
      forall m | 0 <= m < |items| ensures Linked(m) { assert old(Linked(m)); }
      assert Clauses() == cs[k := cs[k].(policy := Goto, nextpref := d)];
    }

    /** continue and no continue: the nextpref that a continue with a number has set stays. */
    method SetPolicy(index: Index<R>, go: bool, ghost k: nat)
      requires Valid() && k < |items| && items[k] == index
      modifies index`policy
      ensures Valid() && Clauses() == Edited(old(Clauses()), Plain(k, go))
      ensures index.policy == if go then Next else Exit
      ensures old(Increasing(Clauses())) ==> Increasing(Clauses())
      ensures old(Forward(Clauses())) ==> Forward(Clauses())
    {
      ghost var cs := Clauses();
      index.policy := if go then Next else Exit;
      forall m | 0 <= m < |items| ensures Linked(m) { assert old(Linked(m)); }
      assert Clauses() == cs[k := cs[k].(policy := if go then Next else Exit)];
    }
  }

  /** route_map_apply_index. */
  method ApplyIndex<R, O>(rules: Rules<R, O>, index: Index<R>, route: O) returns (ret: Result, out: O)
    ensures (ret, out) == Applied(rules, index.Clause(), route) && Gives(rules, index.Clause(), route, ret, out)
  {
    AppliedGives(rules, index.Clause(), route);
    ret, out := Match, route;
    if index.matches != [] {
      var k := 0;
      while k < |index.matches|
        invariant 0 <= k <= |index.matches|
        invariant forall j :: 0 <= j < k ==> rules.says(index.matches[j], route) != Match
        invariant k > 0 ==> ret == rules.says(index.matches[k - 1], route)
      {
        ret := rules.says(index.matches[k], route);
        if ret == Match { break; }
        k := k + 1;
      }
    }
    if ret != Match { return; }
    if index.permit {
      var k := 0;
      while k < |index.sets|
        invariant 0 <= k <= |index.sets| && SetAll(rules, index.sets, route) == SetAll(rules, index.sets[k..], out)
      {
        assert index.sets[k..][1..] == index.sets[k + 1..];
        out := rules.change(index.sets[k], out);
        k := k + 1;
      }
      ret := Match;
    } else {
      ret := DenyMatch;
    }
  }

  /** The search for the clause to continue at, from the clause in front of it. */
  method Search<R>(rmap: RouteMap<R>, from: Index<R>, ghost i: nat)
          returns (index: Index<R>, next: Index?<R>, ghost t: nat)
    requires rmap.Valid() && i < |rmap.items| && rmap.items[i] == from
    ensures rmap.Valid() && rmap.Clauses() == old(rmap.Clauses())
    ensures t == Found(rmap.Clauses(), i + 1) && next == At(rmap.items, t) && t > 0 && index == rmap.items[t - 1]
  {
    hide Found, RouteMap.Valid, RouteMap.Clauses;
    ghost var cs := rmap.Clauses();
    NextIs(rmap, i);
    index, next, t := from, from.next, i + 1;
    while next != null && next.pref < index.nextpref
      invariant i < t <= |rmap.items| && next == At(rmap.items, t) && index == rmap.items[t - 1]
      invariant Found(cs, i + 1) == Found(cs, t)
      decreases |rmap.items| - t
    {
      NextIs(rmap, t);
      FoundIs(cs, t);
      index := next;
      next, t := next.next, t + 1;
    }
    FoundIs(cs, t);
  }

  lemma NextIs<R>(rmap: RouteMap<R>, i: nat)
    requires rmap.Valid() && i < |rmap.items|
    ensures rmap.items[i].next == At(rmap.items, i + 1)
  {
    assert rmap.Linked(i);
  }

  lemma HeadIs<R>(rmap: RouteMap<R>)
    requires rmap.Valid()
    ensures rmap.head == At(rmap.items, 0)
  {
  }

  /** The i-th clause of a route-map. */
  method ApplyAt<R, O>(rules: Rules<R, O>, rmap: RouteMap<R>, index: Index<R>, route: O, ghost i: nat)
    returns (ret: Result, out: O)
    requires rmap.Valid() && i < |rmap.items| && rmap.items[i] == index
    ensures rmap.Valid() && rmap.Clauses() == old(rmap.Clauses())
    ensures (ret, out) == Applied(rules, rmap.Clauses()[i], route)
  {
    hide Applied;
    ret, out := ApplyIndex(rules, index, route);
  }

  lemma FoundIs<R>(cs: seq<Clause<R>>, j: nat)
    requires 0 < j <= |cs|
    ensures Found(cs, j) == if j == |cs| || cs[j].pref >= cs[j - 1].nextpref then j else Found(cs, j + 1)
  {
  }

  /** route_map_apply. */
  method Apply<R, O>(rules: Rules<R, O>, rmap: RouteMap?<R>, route: O) returns (ret: Result, out: O)
    requires rmap != null ==> rmap.Valid()
    ensures rmap == null ==> ret == DenyMatch && out == route
    ensures rmap != null ==> (ret, out) == Walk(rules, rmap.Clauses(), 0, route)
  {
    hide Applied, Found, RouteMap.Valid, RouteMap.Clauses;
    if rmap == null { return DenyMatch, route; }
    ghost var cs, i := rmap.Clauses(), 0;
    HeadIs(rmap);
    var index := rmap.head;
    out := route;
    while index != null
      invariant rmap.Valid() && rmap.Clauses() == cs && 0 <= i <= |cs| && index == At(rmap.items, i)
      invariant Walk(rules, cs, 0, route) == Walk(rules, cs, i, out)
      decreases |cs| - i
    {
      ret, out := ApplyAt(rules, rmap, index, out, i);
      if ret == DenyMatch {
        return;
      } else if ret == Match {
        if index.policy == Exit { return; }
        if index.policy == Goto {
          var next;
          ghost var t;
          index, next, t := Search(rmap, index, i);
          if next == null { return; }
          i := t - 1;
        }
      }
      NextIs(rmap, i);
      index, i := index.next, i + 1;
    }
    ret := DenyMatch;
  }
}
