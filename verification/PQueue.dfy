/** public/cmd/pqueue.c: a binary heap in an array that grows. */
module PQueues {

  const INIT_ARRAYSIZE := 32

  function Parent(i: int): int
    requires i > 0
  {
    (i - 1) / 2
  }

  /** What the comparison function must be: a total preorder, given by the sign of its result. */
  ghost predicate TotalPreorder<T(!new)>(cmp: (T, T) -> int) {
    && (forall a, b :: cmp(a, b) < 0 <==> cmp(b, a) > 0)
    && (forall a, b, c :: cmp(a, b) <= 0 && cmp(b, c) <= 0 ==> cmp(a, c) <= 0)
  }

  ghost predicate Under<T(!new)>(cmp: (T, T) -> int, v: seq<T>, i: int)
    requires 0 < i < |v|
  {
    cmp(v[Parent(i)], v[i]) <= 0
  }

  ghost predicate Heap<T(!new)>(cmp: (T, T) -> int, v: seq<T>) {
    forall i :: 0 < i < |v| ==> Under(cmp, v, i)
  }

  ghost predicate Grandchildren<T(!new)>(cmp: (T, T) -> int, v: seq<T>, k: int)
    requires 0 <= k < |v|
  {
    k > 0 ==> forall i {:trigger v[i]} :: 0 < i < |v| && Parent(i) == k ==> cmp(v[Parent(k)], v[i]) <= 0
  }

  /** A heap but for element k, which may belong further up. */
  ghost predicate HeapBelow<T(!new)>(cmp: (T, T) -> int, v: seq<T>, k: int) {
    && 0 <= k < |v| && Grandchildren(cmp, v, k)
    && forall i :: 0 < i < |v| && i != k ==> Under(cmp, v, i)
  }

  /** A heap but for element k, which may belong further down. */
  ghost predicate HeapAbove<T(!new)>(cmp: (T, T) -> int, v: seq<T>, k: int) {
    && 0 <= k < |v| && Grandchildren(cmp, v, k)
    && forall i :: 0 < i < |v| && Parent(i) != k ==> Under(cmp, v, i)
  }

  function Exchanged<T>(v: seq<T>, i: nat, j: nat): seq<T>
    requires i < |v| && j < |v|
  {
    v[i := v[j]][j := v[i]]
  }

  lemma ExchangeKeeps<T>(v: seq<T>, i: nat, j: nat)
    requires i < |v| && j < |v|
    ensures multiset(Exchanged(v, i, j)) == multiset(v)
  {
  }

  lemma Upwards<T(!new)>(cmp: (T, T) -> int, v: seq<T>, k: int)
    requires TotalPreorder(cmp) && HeapBelow(cmp, v, k) && k > 0 && cmp(v[k], v[Parent(k)]) < 0
    ensures HeapBelow(cmp, Exchanged(v, k, Parent(k)), Parent(k))
  {
    var p := Parent(k);
    var w := Exchanged(v, k, p);
    forall i | 0 < i < |w| && i != p ensures Under(cmp, w, i) {
      assert i != k ==> Under(cmp, v, i);
      if Parent(i) == p && i != k { assert Under(cmp, v, i); }
      if Parent(i) == k { assert cmp(v[Parent(k)], v[i]) <= 0; }
    }
    if p > 0 {
      assert Under(cmp, v, p);
      forall i | 0 < i < |w| && Parent(i) == p ensures cmp(w[Parent(p)], w[i]) <= 0 {
        if i != k { assert Under(cmp, v, i); }
      }
    }
  }

  /** The child that goes up when an element goes down: the right one if there is one and it is strictly smaller. */
  function Smaller<T>(cmp: (T, T) -> int, v: seq<T>, k: nat): nat
    requires 2 * k + 1 < |v|
  {
    if 2 * k + 2 < |v| && cmp(v[2 * k + 1], v[2 * k + 2]) > 0 then 2 * k + 2 else 2 * k + 1
  }

  lemma Trans<T(!new)>(cmp: (T, T) -> int, a: T, b: T, c: T)
    requires TotalPreorder(cmp) && cmp(a, b) <= 0 && cmp(b, c) <= 0
    ensures cmp(a, c) <= 0
  {
  }

  lemma Total<T(!new)>(cmp: (T, T) -> int, a: T, b: T)
    requires TotalPreorder(cmp)
    ensures cmp(a, b) > 0 <==> cmp(b, a) < 0
    ensures cmp(a, a) == 0
  {
  }

  lemma SmallerIs<T(!new)>(cmp: (T, T) -> int, v: seq<T>, k: nat, i: int)
    requires TotalPreorder(cmp) && 2 * k + 1 < |v| && 0 < i < |v| && Parent(i) == k
    ensures cmp(v[Smaller(cmp, v, k)], v[i]) <= 0
  {
    hide TotalPreorder;
    Total(cmp, v[i], v[i]);
    if 2 * k + 2 < |v| { Total(cmp, v[2 * k + 1], v[2 * k + 2]); }
    assert i == 2 * k + 1 || i == 2 * k + 2;
  }

  lemma Stays<T(!new)>(cmp: (T, T) -> int, v: seq<T>, k: int)
    requires TotalPreorder(cmp) && HeapAbove(cmp, v, k)
    requires 2 * k + 1 < |v| ==> cmp(v[Smaller(cmp, v, k)], v[k]) > 0
    ensures Heap(cmp, v)
  {
    hide TotalPreorder;
    forall i | 0 < i < |v| ensures Under(cmp, v, i) {
      if Parent(i) == k {
        var c := Smaller(cmp, v, k);
        SmallerIs(cmp, v, k, i);
        Total(cmp, v[c], v[k]);
        Trans(cmp, v[k], v[c], v[i]);
      }
    }
  }

  lemma Downwards<T(!new)>(cmp: (T, T) -> int, v: seq<T>, k: int)
    requires TotalPreorder(cmp) && HeapAbove(cmp, v, k) && 2 * k + 1 < |v| && cmp(v[Smaller(cmp, v, k)], v[k]) <= 0
    ensures HeapAbove(cmp, Exchanged(v, k, Smaller(cmp, v, k)), Smaller(cmp, v, k))
  {
    hide TotalPreorder;
    var c := Smaller(cmp, v, k);
    var w := Exchanged(v, k, c);
    assert Parent(c) == k;
    forall i | 0 < i < |w| && Parent(i) != c ensures Under(cmp, w, i) {
      if i == k {
        assert cmp(v[Parent(k)], v[c]) <= 0;
      } else if Parent(i) == k {
        SmallerIs(cmp, v, k, i);
      } else {
        assert Under(cmp, v, i);
      }
    }
    forall i | 0 < i < |w| && Parent(i) == c ensures cmp(w[Parent(c)], w[i]) <= 0 {
      assert Under(cmp, v, i);
    }
  }

  /** No element of a heap is smaller than the first. */
  lemma {:induction false} RootIsLeast<T(!new)>(cmp: (T, T) -> int, v: seq<T>, i: int)
    requires TotalPreorder(cmp) && Heap(cmp, v) && 0 <= i < |v|
    ensures cmp(v[0], v[i]) <= 0
  {
    if i > 0 {
      RootIsLeast(cmp, v, Parent(i));
      assert Under(cmp, v, i);
    }
  }

  class PQueue<T(0, !new)> {
    const cmp: (T, T) -> int
    var data: array<T>
    var size: nat

    ghost predicate Valid()
      reads this, data
    {
      TotalPreorder(cmp) && 2 <= data.Length && size + 2 <= data.Length && Heap(cmp, data[..size])
    }

    ghost function Contents(): multiset<T>
      requires Valid()
      reads this, data
    {
      multiset(data[..size])
    }

    /** pqueue_create. */
    constructor (cmp: (T, T) -> int)
      requires TotalPreorder(cmp)
      ensures Valid() && size == 0 && this.cmp == cmp && fresh(data)
    {
      this.cmp := cmp;
      data := new T[INIT_ARRAYSIZE];
      size := 0;
    }

    /** trickle_up, of the element behind the last one. */
    method TrickleUp(index: nat)
      requires TotalPreorder(cmp) && index < data.Length && HeapBelow(cmp, data[..index + 1], index)
      modifies data
      ensures Heap(cmp, data[..index + 1]) && multiset(data[..index + 1]) == old(multiset(data[..index + 1]))
      ensures forall i :: index < i < data.Length ==> data[i] == old(data[i])
    {
      hide TotalPreorder, HeapBelow, Heap;
      var tmp := data[index];
      var k := index;
      ghost var v := data[..index + 1];
      while k > 0 && cmp(tmp, data[Parent(k)]) < 0
        invariant 0 <= k <= index && |v| == index + 1 && HeapBelow(cmp, v, k)
        invariant multiset(v) == old(multiset(data[..index + 1]))
        invariant v == data[..index + 1][k := tmp]
        invariant forall i :: index < i < data.Length ==> data[i] == old(data[i])
      {
        var p := Parent(k);
        Rise(cmp, v, k);
        HoleMoves(data[..index + 1], k, p, tmp);
        v := v[k := v[p]][p := tmp];
        data[k] := data[p];
        k := p;
      }
      data[k] := tmp;
      assert data[..index + 1] == v;
      Reached(cmp, v, k);
    }

    /** trickle_down, from the top. */
    method TrickleDown()
      requires TotalPreorder(cmp) && size < data.Length && (size > 0 ==> HeapAbove(cmp, data[..size], 0))
      modifies data
      ensures Heap(cmp, data[..size]) && multiset(data[..size]) == old(multiset(data[..size]))
    {
      hide TotalPreorder, HeapAbove, Heap;
      var tmp := data[0];
      var index := 0;
      ghost var v := data[..size];
      while index < size / 2
        invariant 0 <= index && |v| == size
        invariant if size == 0 then index == 0 else index < size && HeapAbove(cmp, v, index)
        invariant multiset(v) == old(multiset(data[..size]))
        invariant size > 0 ==> v == data[..size][index := tmp]
        decreases size - index
      {
        var which := 2 * index + 1;
        if 2 * index + 2 < size && cmp(data[2 * index + 1], data[2 * index + 2]) > 0 {
          which := 2 * index + 2;
        }
        assert which == Smaller(cmp, v, index);
        if cmp(data[which], tmp) > 0 { break; }
        Sink(cmp, v, index);
        HoleMoves(data[..size], index, which, tmp);
        v := v[index := v[which]][which := tmp];
        data[index] := data[which];
        index := which;
      }
      data[index] := tmp;
      assert data[..size] == v;
      if size > 0 { Stays(cmp, v, index); } else { NoHeap(cmp, v); }
    }

    /** Moving an element into the hole moves the hole. */
    static lemma HoleMoves(d: seq<T>, k: nat, p: nat, tmp: T)
      requires k < |d| && p < |d| && k != p
      ensures d[k := d[p]][p := tmp] == d[k := tmp][k := d[k := tmp][p]][p := tmp]
    {
    }

    static lemma Rise(cmp: (T, T) -> int, v: seq<T>, k: nat)
      requires TotalPreorder(cmp) && HeapBelow(cmp, v, k) && k > 0
      requires k < |v| && cmp(v[k], v[Parent(k)]) < 0
      ensures var p := Parent(k);
              var w := v[k := v[p]][p := v[k]];
              HeapBelow(cmp, w, p) && multiset(w) == multiset(v)
    {
      hide TotalPreorder;
      Upwards(cmp, v, k);
      ExchangeKeeps(v, k, Parent(k));
    }

    static lemma Sink(cmp: (T, T) -> int, v: seq<T>, k: nat)
      requires TotalPreorder(cmp) && HeapAbove(cmp, v, k) && 2 * k + 1 < |v| && cmp(v[Smaller(cmp, v, k)], v[k]) <= 0
      ensures k < |v|
      ensures var c := Smaller(cmp, v, k);
              var w := v[k := v[c]][c := v[k]];
              HeapAbove(cmp, w, c) && multiset(w) == multiset(v)
    {
      hide TotalPreorder;
      Downwards(cmp, v, k);
      ExchangeKeeps(v, k, Smaller(cmp, v, k));
    }

    static lemma Reached(cmp: (T, T) -> int, v: seq<T>, k: int)
      requires TotalPreorder(cmp) && HeapBelow(cmp, v, k) && (k > 0 ==> cmp(v[k], v[Parent(k)]) >= 0)
      ensures Heap(cmp, v)
    {
      hide TotalPreorder;
      if k > 0 { Total(cmp, v[Parent(k)], v[k]); }
    }

    /** pqueue_expand; there may be no memory for it. */
    method Expand(memory: bool) returns (ok: bool)
      requires Valid()
      modifies this`data
      ensures Valid() && ok == memory && data[..size] == old(data[..size])
      ensures ok ==> fresh(data) && data.Length == 2 * old(data.Length)
      ensures !ok ==> data == old(data)
    {
      hide TotalPreorder, Heap;
      if !memory { return false; }
      ghost var was := data[..size];
      assert Heap(cmp, was);
      var newarray := new T[data.Length * 2];
      forall i | 0 <= i < data.Length {
        newarray[i] := data[i];
      }
      assert newarray[..size] == was;
      data := newarray;
      assert data[..size] == was;
      ok := true;
    }

    /** pqueue_enqueue: without memory for a larger array the element is dropped. */
    method Enqueue(x: T, memory: bool)
      requires Valid()
      modifies this`data, this`size, data
      ensures Valid() && (data == old(data) || fresh(data))
      ensures Contents() == if old(size) + 2 < old(data.Length) || memory then old(Contents()) + multiset{x}
              else old(Contents())
    {
      hide TotalPreorder, Heap;
      if size + 2 >= data.Length {
        var ok := Expand(memory);
        if !ok { return; }
      }
      Append(x);
    }

    /** With room for one more. */
    method Append(x: T)
      requires Valid() && size + 2 < data.Length
      modifies this`size, data
      ensures Valid() && data == old(data) && Contents() == old(Contents()) + multiset{x}
    {
      hide TotalPreorder, Heap, HeapBelow;
      ghost var was := data[..size];
      data[size] := x;
      assert data[..size + 1] == was + [x];
      Appended(cmp, was, x);
      TrickleUp(size);
      size := size + 1;
    }

    static lemma Appended(cmp: (T, T) -> int, was: seq<T>, x: T)
      requires Heap(cmp, was)
      ensures HeapBelow(cmp, was + [x], |was|) && multiset(was + [x]) == multiset(was) + multiset{x}
    {
      forall i | 0 < i < |was| ensures Under(cmp, was + [x], i) { assert Under(cmp, was, i); }
    }

    /** pqueue_dequeue, of a queue that is not empty: a least element. */
    method Dequeue() returns (x: T)
      requires Valid() && size > 0
      modifies this`size, data
      ensures Valid() && data == old(data) && size == old(size) - 1
      ensures old(Contents()) == Contents() + multiset{x}
      ensures NoneBefore(cmp, x, old(Contents()))
    {
      hide TotalPreorder, Heap, HeapAbove;
      ghost var was := data[..size];
      x := data[0];
      forall y | y in multiset(was) ensures cmp(x, y) <= 0 {
        var i :| 0 <= i < |was| && was[i] == y;
        RootIsLeast(cmp, was, i);
      }
      size := size - 1;
      data[0] := data[size];
      ghost var now := data[..size];
      LastToFront(was, now);
      if size > 0 { NewRoot(cmp, was, now); }
      TrickleDown();
    }

    static lemma NoHeap(cmp: (T, T) -> int, v: seq<T>)
      requires v == []
      ensures Heap(cmp, v)
    {
    }

    static lemma NewRoot(cmp: (T, T) -> int, was: seq<T>, now: seq<T>)
      requires Heap(cmp, was) && |was| > 1 && now == was[..|was| - 1][0 := was[|was| - 1]]
      ensures HeapAbove(cmp, now, 0)
    {
      forall i | 0 < i < |now| && Parent(i) != 0 ensures Under(cmp, now, i) { assert Under(cmp, was, i); }
    }

    static lemma LastToFront(was: seq<T>, now: seq<T>)
      requires |was| > 0 && |now| == |was| - 1
      requires |now| > 0 ==> now == was[..|was| - 1][0 := was[|was| - 1]]
      ensures multiset(was) == multiset(now) + multiset{was[0]}
    {
      var n := |was| - 1;
      assert was == was[..n] + [was[n]];
      if n > 0 {
        assert was[..n] == [was[0]] + was[1..n] && now == [was[n]] + was[1..n];
      }
    }
  }

  /** Emptying a queue gives its elements in order. */
  method Drain<T(0, !new)>(q: PQueue<T>) returns (out: seq<T>)
    requires q.Valid()
    modifies q`size, q.data
    ensures q.Valid() && q.size == 0 && multiset(out) == old(q.Contents())
    ensures forall i, j :: 0 <= i < j < |out| ==> q.cmp(out[i], out[j]) <= 0
  {
    hide TotalPreorder, PQueue.Valid, PQueue.Contents;
    out := [];
    while q.size > 0
      invariant q.Valid() && q.data == old(q.data)
      invariant multiset(out) + q.Contents() == old(q.Contents())
      invariant forall i, j :: 0 <= i < j < |out| ==> q.cmp(out[i], out[j]) <= 0
      invariant forall i :: 0 <= i < |out| ==> NoneBefore(q.cmp, out[i], q.Contents())
      decreases q.size
    {
      ghost var before := q.Contents();
      var x := q.Dequeue();
      Ordered(q.cmp, out, x, before, q.Contents());
      out := out + [x];
    }
    NothingLeft(q);
  }

  ghost predicate NoneBefore<T(!new)>(cmp: (T, T) -> int, x: T, rest: multiset<T>) {
    forall y :: y in rest ==> cmp(x, y) <= 0
  }

  lemma Ordered<T(!new)>(cmp: (T, T) -> int, out: seq<T>, x: T, before: multiset<T>, after: multiset<T>)
    requires forall i :: 0 <= i < |out| ==> NoneBefore(cmp, out[i], before)
    requires before == after + multiset{x} && NoneBefore(cmp, x, before)
    ensures forall i :: 0 <= i <= |out| ==> NoneBefore(cmp, (out + [x])[i], after)
    ensures forall i :: 0 <= i < |out| ==> cmp(out[i], x) <= 0
    ensures multiset(out) + before == multiset(out + [x]) + after
  {
    assert x in before;
    assert multiset(out + [x]) == multiset(out) + multiset{x};
    forall i | 0 <= i <= |out| ensures NoneBefore(cmp, (out + [x])[i], after) {
      assert i < |out| ==> NoneBefore(cmp, out[i], before);
    }
  }

  lemma NothingLeft<T(0, !new)>(q: PQueue<T>)
    requires q.Valid() && q.size == 0
    ensures q.Contents() == multiset{}
  {
  }
}
