/** Threads of public/cmd/thread.c and the doubly linked lists they are kept on. */
module ThreadLists {
  import opened Lists

  /** struct timeval. */
  datatype Timeval = Timeval(sec: int, usec: int)

  const TIMER_SECOND_MICRO := 1000000

  /** Zero, negative or positive as a is the same as, before or after b. */
  function Compare(a: Timeval, b: Timeval): int {
    if a.sec == b.sec then a.usec - b.usec else a.sec - b.sec
  }

  predicate Normal(a: Timeval) { 0 <= a.usec < TIMER_SECOND_MICRO }

  function Micros(a: Timeval): int { a.sec * TIMER_SECOND_MICRO + a.usec }

  /** On normal times the comparison is that of the instants. */
  lemma CompareMicros(a: Timeval, b: Timeval)
    requires Normal(a) && Normal(b)
    ensures Compare(a, b) < 0 <==> Micros(a) < Micros(b)
    ensures Compare(a, b) == 0 <==> a == b
  {
  }

  function Max(a: int, b: int): int { if a < b then b else a }

  /** The time of us microseconds, but never negative and never far above a million seconds. */
  function Adjusted(us: int): Timeval {
    if us < 0 then Timeval(0, 10)
    else if us / TIMER_SECOND_MICRO > TIMER_SECOND_MICRO then Timeval(TIMER_SECOND_MICRO, us % TIMER_SECOND_MICRO)
    else Timeval(us / TIMER_SECOND_MICRO, us % TIMER_SECOND_MICRO)
  }

  /** Adjusting never lengthens a time, but for one that has passed; within the cap it does not change it. */
  lemma AdjustedShortens(us: int)
    ensures Normal(Adjusted(us)) && 0 <= Micros(Adjusted(us)) <= Max(10, us)
    ensures 0 <= us < (TIMER_SECOND_MICRO + 1) * TIMER_SECOND_MICRO ==> Micros(Adjusted(us)) == us
  {
  }

  /** timeval_adjust. */
  method Adjust(t: Timeval) returns (a: Timeval)
    ensures a == Adjusted(Micros(t))
  {
    a := t;
    while a.usec >= TIMER_SECOND_MICRO
      invariant Micros(a) == Micros(t)
      decreases a.usec
    {
      a := Timeval(a.sec + 1, a.usec - TIMER_SECOND_MICRO);
    }
    while a.usec < 0
      invariant Micros(a) == Micros(t) && a.usec < TIMER_SECOND_MICRO
      decreases -a.usec
    {
      a := Timeval(a.sec - 1, a.usec + TIMER_SECOND_MICRO);
    }
    if a.sec < 0 {
      a := Timeval(0, 10);
    }
    if a.sec > TIMER_SECOND_MICRO {
      a := a.(sec := TIMER_SECOND_MICRO);
    }
  }

  /** timeval_subtract. */
  method Subtract(a: Timeval, b: Timeval) returns (d: Timeval)
    ensures d == Adjusted(Micros(a) - Micros(b))
  {
    d := Adjust(Timeval(a.sec - b.sec, a.usec - b.usec));
  }

  datatype Kind = Read | Write | Timer | Event | Ready | Unused

  /** What a thread waits for: the union in struct thread. */
  datatype Wait = Nothing | Value(val: int) | Fd(fd: int) | Until(sands: Timeval)

  /** What a thread is to do, as its caller sees it. */
  datatype Job = Job(func: int, arg: int, u: Wait)

  class Thread {
    var kind: Kind
    var next: Thread?
    var prev: Thread?
    var func: int
    var arg: int
    var u: Wait

    constructor ()
      ensures next == null && prev == null && kind == Unused && u == Nothing
    {
      kind, next, prev, func, arg, u := Unused, null, null, 0, 0, Nothing;
    }
  }

  function At(items: seq<Thread>, k: int): Thread? {
    if 0 <= k < |items| then items[k] else null
  }

  class ThreadList {
    var head: Thread?
    var tail: Thread?
    var count: int
    ghost var items: seq<Thread>

    ghost predicate Linked(k: nat)
      requires k < |items|
      reads this, items
    {
      items[k].next == At(items, k + 1) && items[k].prev == At(items, k - 1)
    }

    ghost predicate Valid()
      reads this, items
    {
      && head == At(items, 0) && tail == At(items, |items| - 1) && count == |items|
      && Distinct(items)
      && forall k :: 0 <= k < |items| ==> Linked(k)
    }

    ghost function Members(): set<Thread>
      reads this
    {
      set t | t in items
    }

    constructor ()
      ensures Valid() && items == [] && count == 0
    {
      head, tail, count, items := null, null, 0, [];
    }

    /** thread_list_add. */
    method Add(thread: Thread)
      requires Valid() && thread !in items
      modifies this, Members()`next, Members()`prev, thread`next, thread`prev
      ensures Valid() && items == old(items) + [thread]
    {
      thread.next := null;
      thread.prev := tail;
      if tail != null {
        tail.next := thread;
      } else {
        head := thread;
      }
      tail := thread;
      count := count + 1;
      items := items + [thread];
      forall k | 0 <= k < |items| ensures Linked(k) { assert k < |items| - 1 ==> old(Linked(k)); }
    }

    /** thread_list_add_before: the point is the k-th thread. */
    method AddBefore(point: Thread, thread: Thread, ghost k: nat)
      requires Valid() && thread !in items && k < |items| && items[k] == point
      modifies this, Members()`next, Members()`prev, thread`next, thread`prev
      ensures Valid() && items == old(items[..k]) + [thread] + old(items[k..])
    {
      assert Linked(k);
      if k > 0 { assert Linked(k - 1); }
      thread.next := point;
      thread.prev := point.prev;
      if point.prev != null {
        point.prev.next := thread;
      } else {
        head := thread;
      }
      point.prev := thread;
      count := count + 1;
      items := items[..k] + [thread] + items[k..];
      forall m | 0 <= m < |items| ensures Linked(m) {
        if m < k { assert old(Linked(m)); } else if m > k { assert old(Linked(m - 1)); }
      }
    }

    /** thread_list_delete, of the k-th thread. */
    method Delete(thread: Thread, ghost k: nat)
      requires Valid() && k < |items| && items[k] == thread
      modifies this, Members()`next, Members()`prev
      ensures Valid() && items == old(items[..k]) + old(items[k + 1..]) && thread !in items
      ensures thread.next == null && thread.prev == null
    {
      assert Linked(k);
      if k > 0 { assert Linked(k - 1); }
      if k + 1 < |items| { assert Linked(k + 1); }
      if thread.next != null {
        thread.next.prev := thread.prev;
      } else {
        tail := thread.prev;
      }
      if thread.prev != null {
        thread.prev.next := thread.next;
      } else {
        head := thread.next;
      }
      thread.next, thread.prev := null, null;
      count := count - 1;
      items := items[..k] + items[k + 1..];
      forall m | 0 <= m < |items| ensures Linked(m) {
        if m < k { assert old(Linked(m)); } else { assert old(Linked(m + 1)); }
      }
    }
  }
}
