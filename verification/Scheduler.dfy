/** public/cmd/thread.c: the thread master, its six lists, its descriptor sets and the pool of used threads. */
module Scheduler {
  import opened Lists
  import opened ThreadLists
  import opened Schedules
  import opened Wrappers

  // ---------- Sequences of threads ----------

  lemma WithoutFacts(items: seq<Thread>, k: nat)
    requires k < |items| && Distinct(items)
    ensures Distinct(items[..k] + items[k + 1..])
    ensures forall t :: t in items[..k] + items[k + 1..] <==> t in items && t != items[k]
  {
    var rest := items[..k] + items[k + 1..];
    forall t | t in items && t != items[k] ensures t in rest {
      var j :| 0 <= j < |items| && items[j] == t;
      assert rest[if j < k then j else j - 1] == t;
    }
    forall j | 0 <= j < |rest| ensures rest[j] == items[if j < k then j else j + 1] { }
  }

  /** The threads of a list in a set, and the others, in order. */
  ghost function Picked(items: seq<Thread>, pick: set<Thread>): seq<Thread> {
    if items == [] then []
    else
      var n := |items| - 1;
      Picked(items[..n], pick) + if items[n] in pick then [items[n]] else []
  }

  ghost function Left(items: seq<Thread>, pick: set<Thread>): seq<Thread> {
    if items == [] then []
    else
      var n := |items| - 1;
      Left(items[..n], pick) + if items[n] in pick then [] else [items[n]]
  }

  lemma PickOne(items: seq<Thread>, pick: set<Thread>, m: nat)
    requires m < |items|
    ensures Picked(items[..m + 1], pick) == Picked(items[..m], pick) + if items[m] in pick then [items[m]] else []
    ensures Left(items[..m + 1], pick) == Left(items[..m], pick) + if items[m] in pick then [] else [items[m]]
  {
    assert items[..m + 1][..m] == items[..m];
  }

  /** What the threads of a list are to do. */
  ghost function Jobs(items: seq<Thread>): (ws: seq<Job>)
    reads items
    ensures |ws| == |items| && forall k :: 0 <= k < |items| ==> ws[k] == Job(items[k].func, items[k].arg, items[k].u)
  {
    seq(|items|, k requires 0 <= k < |items| reads items => Job(items[k].func, items[k].arg, items[k].u))
  }

  class ThreadMaster {
    const read: ThreadList
    const write: ThreadList
    const timer: ThreadList
    const event: ThreadList
    const ready: ThreadList
    const unuse: ThreadList
    var readfd: set<int>
    var writefd: set<int>
    var alloc: int
    ghost var all: set<Thread>      // every thread allocated and not freed

    function L(k: Kind): ThreadList {
      match k
      case Read => read
      case Write => write
      case Timer => timer
      case Event => event
      case Ready => ready
      case Unused => unuse
    }

    ghost function Lists(): set<ThreadList> {
      {read, write, timer, event, ready, unuse}
    }

    ghost predicate Apart() {
      forall k, m :: k != m ==> L(k) != L(m)
    }

    function Total(): int
      reads read, write, timer, event, ready, unuse
    {
      read.count + write.count + timer.count + event.count + ready.count + unuse.count
    }

    /** Every allocated thread, except perhaps one in transit, is on the list of its kind and on no other. */
    ghost predicate PlacedIn(all: set<Thread>, alloc: int, out: Thread?)
      reads Lists(), all
    {
      && Apart()
      && (forall k :: (forall t :: t in L(k).items ==> t in all && t.kind == k && t != out) && L(k).Valid())
      && (forall t :: t in all && t != out ==> t in L(t.kind).items)
      && (out != null ==> out in all && out.next == null && out.prev == null)
      && alloc == |all| == Total() + if out == null then 0 else 1
    }

    ghost predicate Placed(out: Thread?)
      reads this, Lists(), all
    {
      PlacedIn(all, alloc, out)
    }

    ghost predicate Fds()
      reads this, read, write, read.items, write.items
    {
      FdsOf(Jobs(read.items), readfd) && FdsOf(Jobs(write.items), writefd)
    }

    ghost predicate Sorted()
      reads this, timer, timer.items
    {
      SortedTimers(Jobs(timer.items))
    }

    ghost predicate Valid()
      reads this, Lists(), all, read.items, write.items, timer.items
    {
      Placed(null) && Fds() && Sorted()
    }

    /** What is waiting, as a value. */
    ghost function Schedule(): State
      reads this, read, write, timer, event, ready, read.items, write.items, timer.items, event.items, ready.items
    {
      State(Jobs(read.items), Jobs(write.items), Jobs(timer.items), Jobs(event.items), Jobs(ready.items), readfd,
        writefd)
    }

    /** thread_master_create. */
    constructor ()
      ensures Valid() && all == {} && readfd == {} && writefd == {}
      ensures fresh(Lists())
    {
      hide *;
      read := new ThreadList();
      write := new ThreadList();
      timer := new ThreadList();
      event := new ThreadList();
      ready := new ThreadList();
      unuse := new ThreadList();
      readfd, writefd, alloc, all := {}, {}, 0, {};
      new;
      StartsValid();
      AllSix();
    }

    lemma AllSix()
      ensures Lists() == {read, write, timer, event, ready, unuse}
    {
    }

    lemma StartsValid()
      requires read != write && read != timer && read != event && read != ready && read != unuse
      requires write != timer && write != event && write != ready && write != unuse
      requires timer != event && timer != ready && timer != unuse && event != ready && event != unuse && ready != unuse
      requires read.Valid() && write.Valid() && timer.Valid() && event.Valid() && ready.Valid() && unuse.Valid()
      requires read.items == write.items == timer.items == event.items == ready.items == unuse.items == []
      requires read.count == write.count == timer.count == event.count == ready.count == unuse.count == 0
      requires readfd == writefd == {} && alloc == 0 && all == {}
      ensures Valid()
    {
      hide ThreadList.Valid;
      SixApart();
      forall k
        ensures L(k).items == [] && L(k).Valid()
      {
        match k case Read => case Write => case Timer => case Event => case Ready => case Unused =>
      }
    }

    lemma SixApart()
      requires read != write && read != timer && read != event && read != ready && read != unuse
      requires write != timer && write != event && write != ready && write != unuse
      requires timer != event && timer != ready && timer != unuse && event != ready && event != unuse && ready != unuse
      ensures Apart()
    {
    }

    function Is(list: ThreadList, other: ThreadList): int {
      if list == other then 1 else 0
    }

    lemma OneOf(list: ThreadList, k: Kind)
      requires Apart() && list == L(k)
      ensures Is(list, read) + Is(list, write) + Is(list, timer) + Is(list, event) + Is(list, ready) + Is(list, unuse)
              == 1
    {
      assert L(Read) == read && L(Write) == write && L(Timer) == timer && L(Event) == event && L(Ready) == ready
             && L(Unused) == unuse;
    }

    /** One list a thread shorter, the others as they were. */
    method Unlist(list: ThreadList, thread: Thread, ghost k: Kind, ghost at: nat)
      requires Apart() && list == L(k) && list.Valid() && at < |list.items| && list.items[at] == thread
      modifies list, list.Members()`next, list.Members()`prev
      ensures list.Valid() && list.items == old(list.items[..at]) + old(list.items[at + 1..])
      ensures thread.next == null && thread.prev == null && Total() == old(Total()) - 1
    {
      OneOf(list, k);
      list.Delete(thread, at);
      assert read.count == old(read.count) - Is(list, read) && write.count == old(write.count) - Is(list, write)
        && timer.count == old(timer.count) - Is(list, timer) && event.count == old(event.count) - Is(list, event)
        && ready.count == old(ready.count) - Is(list, ready) && unuse.count == old(unuse.count) - Is(list, unuse);
    }

    lemma ValidDistinct(list: ThreadList, k: Kind)
      requires Placed(null) && list == L(k)
      ensures Distinct(list.items)
    {
    }

    /** Off its list. */
    method TakeOff(list: ThreadList, thread: Thread, ghost k: Kind, ghost at: nat)
      requires Placed(null) && list == L(k) && at < |list.items| && list.items[at] == thread
      modifies list, all`next, all`prev
      ensures Placed(thread)
      ensures list.items == old(list.items[..at]) + old(list.items[at + 1..])
    {
      hide Total, ThreadList.Valid;
      ValidDistinct(list, k);
      WithoutFacts(list.items, at);
      assert forall m :: m != k ==> L(m) != list && forall t :: t in L(m).items ==> t !in list.items;
      Unlist(list, thread, k, at);
      assert forall m :: m != k ==> L(m).Valid() && L(m).items == old(L(m).items);
    }

    method PutOn(list: ThreadList, thread: Thread)
      requires Placed(thread) && list == L(thread.kind)
      modifies list, all`next, all`prev
      ensures Placed(null) && list.items == old(list.items) + [thread]
    {
      OneOf(list, thread.kind);
      list.Add(thread);
      assert read.count == old(read.count) + Is(list, read) && write.count == old(write.count) + Is(list, write)
        && timer.count == old(timer.count) + Is(list, timer) && event.count == old(event.count) + Is(list, event)
        && ready.count == old(ready.count) + Is(list, ready) && unuse.count == old(unuse.count) + Is(list, unuse);
      assert Total() == old(Total()) + 1;
    }

    // ---------- Taking and returning threads ----------

    /** thread_trim_head, of a list that is not empty. */
    method TrimHead(list: ThreadList, ghost k: Kind) returns (thread: Thread)
      requires Placed(null) && list == L(k) && list.items != []
      modifies list, all`next, all`prev
      ensures Placed(thread) && thread in all && thread == old(list.items[0]) && list.items == old(list.items[1..])
              && thread.kind == k
    {
      hide *;
      HeadIs(list, k);
      NoHead(list.items);
      thread := list.head;
      TakeOff(list, thread, k, 0);
    }

    lemma HeadIs(list: ThreadList, k: Kind)
      requires Placed(null) && list == L(k)
      ensures list.head == At(list.items, 0) && (list.items != [] ==> list.items[0].kind == k && list.items[0] in all)
    {
    }

    /** thread_get: a used thread from the pool, or a new one. */
    method Get(kind: Kind, func: int, arg: int, u: Wait) returns (thread: Thread)
      requires Placed(null)
      modifies this`alloc, this`all, unuse, all`next, all`prev, all`kind, all`func, all`arg, all`u
      ensures Placed(thread) && thread.kind == kind && thread.func == func && thread.arg == arg && thread.u == u
      ensures old(unuse.items) != [] ==>
        all == old(all) && thread == old(unuse.items[0]) && unuse.items == old(unuse.items[1..])
      ensures old(unuse.items) == [] ==> fresh(thread) && all == old(all) + {thread} && unuse.items == []
      ensures thread in old(all) ==> old(thread.kind) == Unused
      ensures forall t :: t in old(all) && t != thread ==>
        t.kind == old(t.kind) && t.func == old(t.func) && t.arg == old(t.arg) && t.u == old(t.u)
    {
      hide *;
      Six();
      HeadIs(unuse, Unused);
      NoHead(unuse.items);
      if unuse.head != null {
        thread := TrimHead(unuse, Unused);
      } else {
        thread := Allocate();
      }
      SetUp(thread, kind, func, arg, u);
    }

    lemma Six()
      ensures L(Read) == read && L(Write) == write && L(Timer) == timer && L(Event) == event && L(Ready) == ready
              && L(Unused) == unuse
    {
    }

    lemma NoHead(items: seq<Thread>)
      ensures if items == [] then At(items, 0) == null else At(items, 0) == items[0]
    {
    }

    method Allocate() returns (thread: Thread)
      requires Placed(null)
      modifies this`alloc, this`all
      ensures Placed(thread) && fresh(thread) && all == old(all) + {thread}
    {
      hide ThreadList.Valid, PlacedIn;
      thread := new Thread();
      assert thread !in all && forall o: ThreadList :: o in Lists() ==> o as object != thread;
      PlacedMore(thread);
      NotParts();
      alloc := alloc + 1;
      all := all + {thread};
    }

    lemma PlacedMore(thread: Thread)
      requires Placed(null) && thread !in all && thread.next == null && thread.prev == null
      ensures PlacedIn(all + {thread}, alloc + 1, thread)
    {
      hide ThreadList.Valid, Total;
    }

    method SetUp(thread: Thread, kind: Kind, func: int, arg: int, u: Wait)
      requires Placed(thread)
      modifies thread`kind, thread`func, thread`arg, thread`u
      ensures Placed(thread) && thread.kind == kind && thread.func == func && thread.arg == arg && thread.u == u
    {
      hide ThreadList.Valid;
      thread.kind, thread.func, thread.arg, thread.u := kind, func, arg, u;
    }

    /** thread_add_unuse, of a thread that has just come off its list. */
    method Retire(thread: Thread)
      requires Placed(thread)
      modifies unuse, all`next, all`prev, thread`kind
      ensures Placed(null) && unuse.items == old(unuse.items) + [thread] && thread.kind == Unused
    {
      hide ThreadList.Valid;
      thread.kind := Unused;
      PutOn(unuse, thread);
    }

    // ---------- Adding ----------

    lemma InAll()
      requires Placed(null)
      ensures forall t :: t in read.items ==> t in all && t.kind == Read
      ensures forall t :: t in write.items ==> t in all && t.kind == Write
      ensures forall t :: t in timer.items ==> t in all && t.kind == Timer
      ensures forall t :: t in event.items ==> t in all && t.kind == Event
      ensures forall t :: t in ready.items ==> t in all && t.kind == Ready
      ensures forall t :: t in unuse.items ==> t in all && t.kind == Unused
    {
      hide ThreadList.Valid;
      Six();
    }

    lemma SixLists()
      requires Placed(null)
      ensures read != write && read != timer && read != event && read != ready && read != unuse
      ensures write != timer && write != event && write != ready && write != unuse
      ensures timer != event && timer != ready && timer != unuse && event != ready && event != unuse && ready != unuse
    {
      hide ThreadList.Valid;
      Six();
    }

    ghost function View(list: ThreadList, skip: bool): (seq<Thread>, seq<Job>)
      reads list, list.items
    {
      if skip then ([], []) else (list.items, Jobs(list.items))
    }

    /** The threads that wait or are ready, with their jobs, but for those of some kinds. */
    ghost function Seen(skip: set<Kind>): seq<(seq<Thread>, seq<Job>)>
      reads read, write, timer, event, ready, read.items, write.items, timer.items, event.items, ready.items
    {
      [View(read, Read in skip), View(write, Write in skip), View(timer, Timer in skip), View(event, Event in skip),
        View(ready, Ready in skip)]
    }

    /** All other lists are as they were. */
    twostate predicate OthersKept(skip: set<Kind>)
      reads read, write, timer, event, ready, read.items, write.items, timer.items, event.items, ready.items
    {
      Seen(skip) == old(Seen(skip))
    }

    /** A thread of the given kind at the end of its list. */
    method PutNew(list: ThreadList, kind: Kind, func: int, arg: int, u: Wait) returns (thread: Thread)
      requires Placed(null) && list == L(kind) && kind != Unused
      modifies this`alloc, this`all, unuse, list, all
      ensures Placed(null) && list.items == old(list.items) + [thread]
      ensures thread.kind == kind && thread.u == u && thread.func == func && thread.arg == arg
      ensures all == old(all) || (all == old(all) + {thread} && fresh(thread))
      ensures thread in old(all) ==> old(thread.kind) == Unused
      ensures forall t :: t in old(all) && t != thread ==>
        t.kind == old(t.kind) && t.u == old(t.u) && t.func == old(t.func) && t.arg == old(t.arg)
    {
      hide *;
      ListNotPool(list, kind);
      thread := Get(kind, func, arg, u);
      NotYetPlaced(thread);
      PutOn(list, thread);
    }

    lemma ListNotPool(list: ThreadList, kind: Kind)
      requires Placed(null) && list == L(kind) && kind != Unused
      ensures list != unuse
    {
      hide ThreadList.Valid;
      Six();
    }

    lemma OtherLists(list: ThreadList, kind: Kind)
      requires Placed(null) && list == L(kind)
      ensures (kind != Read ==> read != list) && (kind != Write ==> write != list) && (kind != Timer ==> timer != list)
      ensures (kind != Event ==> event != list) && (kind != Ready ==> ready != list)
              && (kind != Unused ==> unuse != list)
    {
      hide ThreadList.Valid;
      Six();
    }

    /** The same, as the other lists see it. */
    method Enlist(list: ThreadList, kind: Kind, func: int, arg: int, u: Wait) returns (thread: Thread)
      requires Placed(null) && list == L(kind) && kind != Unused
      modifies this`alloc, this`all, unuse, list, all
      ensures Placed(null) && OthersKept({kind})
      ensures list.items == old(list.items) + [thread] && Jobs(list.items)
              == old(Jobs(list.items)) + [Job(func, arg, u)]
      ensures thread.kind == kind && thread.u == u && thread.func == func && thread.arg == arg
      ensures all == old(all) || (all == old(all) + {thread} && fresh(thread))
      ensures forall t :: t in old(all) && t != thread ==>
        t.kind == old(t.kind) && t.u == old(t.u) && t.func == old(t.func) && t.arg == old(t.arg)
    {
      hide ThreadList.Valid, PlacedIn, Placed, Jobs, Apart, Lists;
      InAll();
      SixLists();
      OtherLists(list, kind);
      Six();
      thread := PutNew(list, kind, func, arg, u);
      assert kind != Read ==> read.items == old(read.items) && Jobs(read.items) == old(Jobs(read.items));
      assert kind != Write ==> write.items == old(write.items) && Jobs(write.items) == old(Jobs(write.items));
      assert kind != Timer ==> timer.items == old(timer.items) && Jobs(timer.items) == old(Jobs(timer.items));
      assert kind != Event ==> event.items == old(event.items) && Jobs(event.items) == old(Jobs(event.items));
      assert kind != Ready ==> ready.items == old(ready.items) && Jobs(ready.items) == old(Jobs(ready.items));
    }

    /** The master is none of its parts, so its descriptor sets can change under the rest. */
    lemma NotParts()
      ensures forall o: ThreadList :: o in Lists() ==> o as object != this
      ensures forall o: Thread :: o in all ==> o as object != this
    {
    }

    /** thread_add_read: one thread per descriptor. */
    method AddRead(func: int, arg: int, fd: int) returns (thread: Thread?)
      requires Valid()
      modifies this`alloc, this`all, this`readfd, unuse, read, all
      ensures Valid() && OthersKept({Read})
      ensures thread == null <==> fd in old(readfd)
      ensures Schedule() == ReadAdded(old(Schedule()), Job(func, arg, Fd(fd)))
      ensures thread == null ==> readfd == old(readfd) && read.items == old(read.items) && all == old(all)
      ensures thread != null ==>
        && readfd == old(readfd) + {fd} && read.items == old(read.items) + [thread]
        && thread.kind == Read && thread.u == Fd(fd) && thread.func == func && thread.arg == arg
    {
      hide ThreadList.Valid, PlacedIn, FdsOf, SortedTimers, Jobs;
      Six();
      if fd in readfd { return null; }
      FdsMore(Jobs(read.items), readfd, Job(func, arg, Fd(fd)));
      NotParts();
      readfd := readfd + {fd};
      thread := Enlist(read, Read, func, arg, Fd(fd));
    }

    /** thread_add_write: one thread per descriptor. */
    method AddWrite(func: int, arg: int, fd: int) returns (thread: Thread?)
      requires Valid()
      modifies this`alloc, this`all, this`writefd, unuse, write, all
      ensures Valid() && OthersKept({Write})
      ensures thread == null <==> fd in old(writefd)
      ensures Schedule() == WriteAdded(old(Schedule()), Job(func, arg, Fd(fd)))
      ensures thread == null ==> writefd == old(writefd) && write.items == old(write.items) && all == old(all)
      ensures thread != null ==>
        && writefd == old(writefd) + {fd} && write.items == old(write.items) + [thread]
        && thread.kind == Write && thread.u == Fd(fd) && thread.func == func && thread.arg == arg
    {
      hide ThreadList.Valid, PlacedIn, FdsOf, SortedTimers, Jobs;
      Six();
      if fd in writefd { return null; }
      FdsMore(Jobs(write.items), writefd, Job(func, arg, Fd(fd)));
      NotParts();
      writefd := writefd + {fd};
      thread := Enlist(write, Write, func, arg, Fd(fd));
    }

    /** thread_add_event. */
    method AddEvent(func: int, arg: int, val: int) returns (thread: Thread)
      requires Valid()
      modifies this`alloc, this`all, unuse, event, all
      ensures Valid() && OthersKept({Event})
      ensures Schedule() == EventAdded(old(Schedule()), Job(func, arg, Value(val)))
      ensures event.items == old(event.items) + [thread]
      ensures thread.kind == Event && thread.u == Value(val) && thread.func == func && thread.arg == arg
    {
      hide ThreadList.Valid, PlacedIn, FdsOf, SortedTimers, Jobs;
      Six();
      thread := Enlist(event, Event, func, arg, Value(val));
    }

    lemma NotYetPlaced(thread: Thread)
      requires Placed(thread)
      ensures thread in all && forall k :: thread !in L(k).items
    {
      hide ThreadList.Valid;
    }

    // ---------- Timers ----------

    /** Threads of a list can be followed from one to the next. */
    lemma NextIs(list: ThreadList, k: Kind, at: nat, out: Thread?)
      requires Placed(out) && list == L(k) && at < |list.items|
      ensures list.items[at].next == At(list.items, at + 1) && list.items[at] in all && list.items[at] != out
      ensures list.head == list.items[0]
    {
      assert list.Valid();
      assert list.Linked(at);
    }

    lemma HeadOf(list: ThreadList, k: Kind, out: Thread?)
      requires Placed(out) && list == L(k)
      ensures list.head == At(list.items, 0) && Distinct(list.items)
    {
    }

    /** One list a thread longer, the others as they were. */
    method OneMore(list: ThreadList, point: Thread, thread: Thread, ghost k: nat)
      requires Apart() && list == L(thread.kind) && list.Valid() && thread !in list.items
      requires k < |list.items| && point == list.items[k]
      modifies list, list.Members()`next, list.Members()`prev, thread`next, thread`prev
      ensures list.Valid() && list.items == old(list.items[..k]) + [thread] + old(list.items[k..])
      ensures Total() == old(Total()) + 1
    {
      OneOf(list, thread.kind);
      list.AddBefore(point, thread, k);
      assert read.count == old(read.count) + Is(list, read) && write.count == old(write.count) + Is(list, write)
        && timer.count == old(timer.count) + Is(list, timer) && event.count == old(event.count) + Is(list, event)
        && ready.count == old(ready.count) + Is(list, ready) && unuse.count == old(unuse.count) + Is(list, unuse);
    }

    /** Onto a list, in front of its k-th thread. */
    method PutBefore(list: ThreadList, point: Thread, thread: Thread, ghost k: nat)
      requires Placed(thread) && list == L(thread.kind) && k < |list.items| && point == list.items[k]
      modifies list, all`next, all`prev
      ensures Placed(null) && list.items == old(list.items[..k]) + [thread] + old(list.items[k..])
    {
      hide Total, ThreadList.Valid;
      assert forall m :: m != thread.kind ==> L(m) != list && forall t :: t in L(m).items ==> t !in list.items;
      OneMore(list, point, thread, k);
      assert forall m :: m != thread.kind ==> L(m).Valid() && L(m).items == old(L(m).items);
    }

    /** Where a new deadline goes: in front of the first timer that is not earlier. */
    method FindPlace(thread: Thread) returns (tt: Thread?, ghost k: nat)
      requires Placed(thread) && thread.u.Until? && SortedTimers(Jobs(timer.items))
      ensures Placed(thread) && SortedTimers(Jobs(timer.items))
      ensures k <= |timer.items| && tt == At(timer.items, k)
      ensures forall j :: 0 <= j < k ==> Compare(thread.u.sands, timer.items[j].u.sands) > 0
      ensures k < |timer.items| ==> Compare(thread.u.sands, timer.items[k].u.sands) <= 0
    {
      hide ThreadList.Valid, PlacedIn;
      Six();
      HeadOf(timer, Timer, thread);
      tt, k := timer.head, 0;
      while tt != null
        invariant Placed(thread) && k <= |timer.items| && tt == At(timer.items, k)
        invariant forall j :: 0 <= j < k ==> Compare(thread.u.sands, timer.items[j].u.sands) > 0
        decreases |timer.items| - k
      {
        assert Jobs(timer.items)[k].u == tt.u;
        if Compare(thread.u.sands, tt.u.sands) <= 0 { break; }
        NextIs(timer, Timer, k, thread);
        tt, k := tt.next, k + 1;
      }
    }

    /** A new timer, put in its place. */
    method PutTimer(func: int, arg: int, u: Wait) returns (thread: Thread, ghost k: nat)
      requires Placed(null) && SortedTimers(Jobs(timer.items)) && u.Until?
      modifies this`alloc, this`all, unuse, timer, all
      ensures Placed(null) && k <= |old(timer.items)|
      ensures timer.items == old(timer.items[..k]) + [thread] + old(timer.items[k..])
      ensures forall j :: 0 <= j < k ==> var w := old(Jobs(timer.items))[j].u; w.Until? && Compare(u.sands, w.sands) > 0
      ensures k < |old(timer.items)| ==> var w := old(Jobs(timer.items))[k].u;
              w.Until? && Compare(u.sands, w.sands) <= 0
      ensures thread.kind == Timer && thread.u == u && thread.func == func && thread.arg == arg
      ensures all == old(all) || (all == old(all) + {thread} && fresh(thread))
      ensures thread in old(all) ==> old(thread.kind) == Unused
      ensures forall t :: t in old(all) && t != thread ==>
        t.kind == old(t.kind) && t.u == old(t.u) && t.func == old(t.func) && t.arg == old(t.arg)
    {
      hide ThreadList.Valid, PlacedIn, SortedTimers, Jobs;
      InAll();
      SixLists();
      Six();
      ghost var ws := Jobs(timer.items);
      AllUntil(ws);
      thread := Get(Timer, func, arg, u);
      NotYetPlaced(thread);
      assert Jobs(timer.items) == ws;
      var tt;
      tt, k := FindPlace(thread);
      forall j | 0 <= j < k ensures Compare(u.sands, ws[j].u.sands) > 0 { assert ws[j].u == timer.items[j].u; }
      if tt != null {
        PutBefore(timer, tt, thread, k);
      } else {
        PutOn(timer, thread);
      }
    }

    /** thread_add_timer, at the time `now'. */
    method AddTimer(func: int, arg: int, secs: int, now: Timeval) returns (thread: Thread, ghost k: nat)
      requires Valid()
      modifies this`alloc, this`all, unuse, timer, all
      ensures Valid() && OthersKept({Timer})
      ensures thread.kind == Timer && thread.func == func && thread.arg == arg
              && thread.u == Until(Timeval(now.sec + secs, now.usec))
      ensures Schedule() == TimerAdded(old(Schedule()), Job(func, arg, thread.u))
      ensures k <= |old(timer.items)| && timer.items == old(timer.items[..k]) + [thread] + old(timer.items[k..])
      ensures Jobs(timer.items)
              == old(Jobs(timer.items)[..k]) + [Job(func, arg, thread.u)] + old(Jobs(timer.items)[k..])
    {
      hide ThreadList.Valid, PlacedIn, FdsOf, SortedTimers, Jobs, Lists;
      InAll();
      SixLists();
      Six();
      ghost var ws := Jobs(timer.items);
      var u := Until(Timeval(now.sec + secs, now.usec));
      thread, k := PutTimer(func, arg, u);
      AllUntil(ws);
      SortedInsert(ws, k, Job(func, arg, u));
      InsertedAt(ws, Job(func, arg, u), k);
      assert Jobs(timer.items) == ws[..k] + [Job(func, arg, u)] + ws[k..];
      assert read.items == old(read.items) && Jobs(read.items) == old(Jobs(read.items));
      assert write.items == old(write.items) && Jobs(write.items) == old(Jobs(write.items));
      assert event.items == old(event.items) && Jobs(event.items) == old(Jobs(event.items));
      assert ready.items == old(ready.items) && Jobs(ready.items) == old(Jobs(ready.items));
    }

    // ---------- Cancelling ----------

    lemma Located(thread: Thread) returns (k: nat)
      requires Placed(null) && thread in all
      ensures k < |L(thread.kind).items| && L(thread.kind).items[k] == thread
    {
      var items := L(thread.kind).items;
      k :| 0 <= k < |items| && items[k] == thread;
    }

    /** Off its list, copied, and into the pool. */
    method ToPool(list: ThreadList, ghost kind: Kind, thread: Thread, ghost k: nat) returns (copy: (Kind, Job))
      requires Placed(null) && list == L(kind) && kind != Unused && k < |list.items| && list.items[k] == thread
      modifies list, unuse, all`next, all`prev, thread`kind
      ensures Placed(null) && thread.kind == Unused && thread in all
      ensures copy == (kind, Job(thread.func, thread.arg, thread.u))
      ensures list.items == old(list.items[..k]) + old(list.items[k + 1..])
      ensures unuse.items == old(unuse.items) + [thread]
    {
      hide *;
      ListNotPool(list, kind);
      InList(list, kind, k);
      TakeOff(list, thread, kind, k);
      copy := (thread.kind, Job(thread.func, thread.arg, thread.u));
      Retire(thread);
    }

    /** The same, as the other lists see it. */
    method Discharge(list: ThreadList, ghost kind: Kind, thread: Thread, ghost k: nat) returns (copy: (Kind, Job))
      requires Placed(null) && list == L(kind) && kind != Unused && k < |list.items| && list.items[k] == thread
      modifies list, unuse, all`next, all`prev, thread`kind
      ensures Placed(null) && OthersKept({kind}) && thread.kind == Unused && thread in all
      ensures copy == (kind, old(Jobs(list.items)[k]))
      ensures list.items == old(list.items[..k]) + old(list.items[k + 1..])
      ensures Jobs(list.items) == old(Jobs(list.items)[..k]) + old(Jobs(list.items)[k + 1..])
      ensures unuse.items == old(unuse.items) + [thread]
    {
      hide ThreadList.Valid, PlacedIn, Jobs, Lists;
      InAll();
      SixLists();
      OtherLists(list, kind);
      Six();
      copy := ToPool(list, kind, thread, k);
      assert kind != Read ==> read.items == old(read.items) && Jobs(read.items) == old(Jobs(read.items));
      assert kind != Write ==> write.items == old(write.items) && Jobs(write.items) == old(Jobs(write.items));
      assert kind != Timer ==> timer.items == old(timer.items) && Jobs(timer.items) == old(Jobs(timer.items));
      assert kind != Event ==> event.items == old(event.items) && Jobs(event.items) == old(Jobs(event.items));
      assert kind != Ready ==> ready.items == old(ready.items) && Jobs(ready.items) == old(Jobs(ready.items));
    }

    lemma InList(list: ThreadList, kind: Kind, k: nat)
      requires Placed(null) && list == L(kind) && k < |list.items|
      ensures list.items[k] in all && list.items[k].kind == kind
    {
      hide ThreadList.Valid;
    }

    /** thread_cancel, of a thread that is waiting or ready. */
    method Cancel(thread: Thread) returns (ghost k: nat)
      requires Valid() && thread in all && thread.kind != Unused
      modifies this`readfd, this`writefd, read, write, timer, event, ready, unuse, all
      ensures Valid() && OthersKept({old(thread.kind)}) && all == old(all)
      ensures thread.kind == Unused && unuse.items == old(unuse.items) + [thread]
      ensures var list, was := L(old(thread.kind)), old(L(thread.kind).items);
              k < |was| && was[k] == thread && list.items == was[..k] + was[k + 1..]
      ensures k < |ListOf(old(Schedule()), old(thread.kind))|
      ensures Schedule() == Cancelled(old(Schedule()), old(thread.kind), k)
      ensures old(thread.kind) == Read ==> old(thread.u.Fd?) && readfd == old(readfd) - {old(thread.u.fd)}
      ensures old(thread.kind) == Write ==> old(thread.u.Fd?) && writefd == old(writefd) - {old(thread.u.fd)}
      ensures old(thread.kind) != Read ==> readfd == old(readfd)
      ensures old(thread.kind) != Write ==> writefd == old(writefd)
    {
      hide ThreadList.Valid, PlacedIn, FdsOf, SortedTimers, Jobs, Lists, Inserted, NotFor, Left, Picked, Total;
      k := Located(thread);
      var kind := thread.kind;
      Six();
      SixLists();
      NotParts();
      match kind
      case Read =>
        FdsLess(Jobs(read.items), readfd, k);
        assert Jobs(read.items)[k].u == thread.u;
        readfd := readfd - {thread.u.fd};
        var _ := Discharge(read, Read, thread, k);
      case Write =>
        FdsLess(Jobs(write.items), writefd, k);
        assert Jobs(write.items)[k].u == thread.u;
        writefd := writefd - {thread.u.fd};
        var _ := Discharge(write, Write, thread, k);
      case Timer =>
        SortedLess(Jobs(timer.items), k);
        var _ := Discharge(timer, Timer, thread, k);
      case Event =>
        var _ := Discharge(event, Event, thread, k);
      case Ready =>
        var _ := Discharge(ready, Ready, thread, k);
    }

    /** The first m of the threads that were on a list have been gone through: the picked ones are in the pool. */
    ghost predicate Culled(list: ThreadList, to: ThreadList, was: seq<Thread>, pick: set<Thread>, m: nat,
            pool: seq<Thread>)
      reads list, to
    {
      m <= |was| && list.items == Left(was[..m], pick) + was[m..] && to.items == pool + Picked(was[..m], pick)
    }

    lemma CulledAt(list: ThreadList, to: ThreadList, was: seq<Thread>, pick: set<Thread>, m: nat, pool: seq<Thread>)
            returns (k: nat)
      requires Culled(list, to, was, pick, m, pool) && m < |was|
      ensures k < |list.items| && list.items[k] == was[m] && At(list.items, k + 1) == At(was, m + 1)
      ensures was[m] in pick ==>
        list.items[..k] + list.items[k + 1..] == Left(was[..m + 1], pick) + was[m + 1..]
        && to.items + [was[m]] == pool + Picked(was[..m + 1], pick)
      ensures was[m] !in pick ==>
        list.items == Left(was[..m + 1], pick) + was[m + 1..] && to.items == pool + Picked(was[..m + 1], pick)
    {
      hide Left, Picked;
      k := |Left(was[..m], pick)|;
      PickOne(was, pick, m);
      assert was[m..] == [was[m]] + was[m + 1..];
    }

    method CullOne(t: Thread, arg: int, ghost was: seq<Thread>, ghost pick: set<Thread>, ghost m: nat,
            ghost pool: seq<Thread>)
      returns (next: Thread?)
      requires Placed(null) && Culled(event, unuse, was, pick, m, pool) && m < |was| && was[m] == t
               && (t in pick <==> t.arg == arg)
      modifies event, unuse, all`next, all`prev, t`kind
      ensures Placed(null) && OthersKept({Event}) && Culled(event, unuse, was, pick, m + 1, pool)
              && next == At(was, m + 1)
    {
      hide ThreadList.Valid, PlacedIn, Jobs, Picked, Left, Lists;
      Six();
      SixLists();
      ghost var k := CulledAt(event, unuse, was, pick, m, pool);
      NextIs(event, Event, k, null);
      next := t.next;
      if t.arg == arg {
        var _ := Discharge(event, Event, t, k);
      }
    }

    method CullAll(arg: int, ghost pick: set<Thread>)
      requires Placed(null) && pick == set t | t in event.items && t.arg == arg
      modifies event, unuse, all`next, all`prev, all`kind
      ensures Placed(null) && OthersKept({Event})
      ensures event.items == Left(old(event.items), pick) && unuse.items == old(unuse.items) + Picked(old(event.items),
              pick)
    {
      hide ThreadList.Valid, PlacedIn, Jobs, Picked, Left, Lists, Seen, Culled;
      ghost var was, pool := event.items, unuse.items;
      ghost var m := 0;
      Six();
      HeadOf(event, Event, null);
      CulledNone(event, unuse, pick);
      InAll();
      var thread := event.head;
      while thread != null
        invariant Placed(null) && OthersKept({Event}) && Culled(event, unuse, was, pick, m, pool)
                  && thread == At(was, m)
        decreases |was| - m
      {
        thread := CullOne(thread, arg, was, pick, m, pool);
        m := m + 1;
      }
      CulledAll(event, unuse, was, pick, pool, m);
    }

    lemma CulledAll(list: ThreadList, to: ThreadList, was: seq<Thread>, pick: set<Thread>, pool: seq<Thread>, m: nat)
      requires Culled(list, to, was, pick, m, pool) && At(was, m) == null
      ensures list.items == Left(was, pick) && to.items == pool + Picked(was, pick)
    {
      hide Left, Picked;
      assert was[..m] == was;
    }

    lemma CulledNone(list: ThreadList, to: ThreadList, pick: set<Thread>)
      ensures Culled(list, to, list.items, pick, 0, to.items)
    {
      NonePicked(list.items, pick);
    }

    method CullJobs(arg: int)
      requires Placed(null)
      modifies event, unuse, all`next, all`prev, all`kind
      ensures Placed(null) && OthersKept({Event}) && Jobs(event.items) == NotFor(old(Jobs(event.items)), arg)
      ensures var pick := old(set t | t in event.items && t.arg == arg);
              event.items == Left(old(event.items), pick) && unuse.items == old(unuse.items) + Picked(old(event.items),
                pick)
    {
      hide ThreadList.Valid, PlacedIn, Picked, Left, Lists, Seen, NotFor;
      ghost var was, pick := event.items, set t | t in event.items && t.arg == arg;
      InAll();
      CullAll(arg, pick);
      assert Jobs(was) == old(Jobs(was));
      JobsNotFor(was, arg, pick);
    }

    /** thread_cancel_event: every event with that argument goes, and no other; the rest keep their order. */
    method CancelEvent(arg: int)
      requires Valid()
      modifies event, unuse, all`next, all`prev, all`kind
      ensures Valid() && OthersKept({Event}) && all == old(all)
      ensures Schedule() == EventsCancelled(old(Schedule()), arg)
      ensures var pick := old(set t | t in event.items && t.arg == arg);
              event.items == Left(old(event.items), pick) && unuse.items == old(unuse.items) + Picked(old(event.items),
                pick)
    {
      hide ThreadList.Valid, PlacedIn, FdsOf, SortedTimers, Jobs, Picked, Left, NotFor;
      CullJobs(arg);
    }

    lemma JobsNotFor(items: seq<Thread>, arg: int, pick: set<Thread>)
      requires forall t :: t in items ==> (t in pick <==> t.arg == arg)
      ensures Jobs(Left(items, pick)) == NotFor(Jobs(items), arg)
    {
      if items != [] {
        var n := |items| - 1;
        JobsNotFor(items[..n], arg, pick);
        assert Jobs(items)[..n] == Jobs(items[..n]);
      }
    }

    lemma NonePicked(items: seq<Thread>, pick: set<Thread>)
      ensures Left(items[..0], pick) == [] && Picked(items[..0], pick) == []
    {
    }

    // ---------- Fetching ----------

    lemma LastJob(items: seq<Thread>)
      requires items != []
      ensures var n := |items| - 1;
              Jobs(items) == Jobs(items[..n]) + Jobs([items[n]]) && Jobs([items[n]]) == [Jobs(items)[n]]
    {
    }

    /** Picked threads, as jobs. */
    lemma JobsOn(items: seq<Thread>, fds: set<int>, pick: set<Thread>)
      requires forall t :: t in items ==> (t in pick <==> t.u.Fd? && t.u.fd in fds)
      ensures Jobs(Left(items, pick)) == Off(Jobs(items), fds) && Jobs(Picked(items, pick)) == On(Jobs(items), fds)
    {
      hide Jobs;
      if items != [] {
        var n := |items| - 1;
        JobsOn(items[..n], fds, pick);
        LastJob(items);
        assert Jobs(items)[..n] == Jobs(items[..n]);
        if items[n] in pick {
          assert Left(items, pick) == Left(items[..n], pick);
          JobsSum(Picked(items[..n], pick), [items[n]]);
        } else {
          assert Picked(items, pick) == Picked(items[..n], pick);
          JobsSum(Left(items[..n], pick), [items[n]]);
        }
      }
    }

    method Shift(list: ThreadList, ghost kind: Kind, thread: Thread, ghost k: nat)
      requires Placed(null) && list == L(kind) && kind != Ready && k < |list.items| && list.items[k] == thread
      modifies list, ready, all`next, all`prev, thread`kind
      ensures Placed(null) && thread.kind == Ready && thread in all
      ensures list.items == old(list.items[..k]) + old(list.items[k + 1..])
      ensures ready.items == old(ready.items) + [thread]
    {
      hide *;
      ListNotReady(list, kind);
      InList(list, kind, k);
      TakeOff(list, thread, kind, k);
      MakeReady(thread);
    }

    lemma ListNotReady(list: ThreadList, kind: Kind)
      requires Placed(null) && list == L(kind) && kind != Ready
      ensures list != ready
    {
      hide ThreadList.Valid;
      Six();
    }

    method MakeReady(thread: Thread)
      requires Placed(thread)
      modifies ready, all`next, all`prev, thread`kind
      ensures Placed(null) && ready.items == old(ready.items) + [thread] && thread.kind == Ready
    {
      hide ThreadList.Valid;
      thread.kind := Ready;
      PutOn(ready, thread);
    }

    /** From its list to the end of the ready list. */
    method Promote(list: ThreadList, ghost kind: Kind, thread: Thread, ghost k: nat)
      requires Placed(null) && list == L(kind) && kind != Ready && k < |list.items| && list.items[k] == thread
      modifies list, ready, all`next, all`prev, thread`kind
      ensures Placed(null) && OthersKept({kind, Ready}) && thread.kind == Ready && thread in all
      ensures list.items == old(list.items[..k]) + old(list.items[k + 1..])
      ensures Jobs(list.items) == old(Jobs(list.items)[..k]) + old(Jobs(list.items)[k + 1..])
      ensures ready.items == old(ready.items) + [thread]
    {
      hide ThreadList.Valid, PlacedIn, Jobs, Lists;
      InAll();
      SixLists();
      OtherLists(list, kind);
      Six();
      Shift(list, kind, thread, k);
      assert kind != Read ==> read.items == old(read.items) && Jobs(read.items) == old(Jobs(read.items));
      assert kind != Write ==> write.items == old(write.items) && Jobs(write.items) == old(Jobs(write.items));
      assert kind != Timer ==> timer.items == old(timer.items) && Jobs(timer.items) == old(Jobs(timer.items));
      assert kind != Event ==> event.items == old(event.items) && Jobs(event.items) == old(Jobs(event.items));
    }

    /** One turn of the loop in thread_process_fd. */
    method ProcessOne(list: ThreadList, ghost kind: Kind, t: Thread, fdset: set<int>, mfdset: set<int>,
                      ghost was: seq<Thread>, ghost pick: set<Thread>, ghost m: nat, ghost pool: seq<Thread>)
      returns (next: Thread?, left: set<int>)
      requires Placed(null) && list == L(kind) && kind != Ready && Culled(list, ready, was, pick, m, pool)
      requires m < |was| && was[m] == t && (t in pick <==> t.u.Fd? && t.u.fd in fdset)
      requires FdsOf(Jobs(list.items), mfdset)
      modifies list, ready, all`next, all`prev, t`kind
      ensures Placed(null) && OthersKept({kind, Ready}) && Culled(list, ready, was, pick, m + 1, pool)
              && next == At(was, m + 1)
      ensures FdsOf(Jobs(list.items), left)
    {
      hide ThreadList.Valid, PlacedIn, Jobs, Picked, Left, Lists, FdsOf;
      ghost var k := CulledAt(list, ready, was, pick, m, pool);
      NextIs(list, kind, k, null);
      FdsLess(Jobs(list.items), mfdset, k);
      assert Jobs(list.items)[k].u == t.u;
      next, left := t.next, mfdset;
      if t.u.fd in fdset {
        left := left - {t.u.fd};
        Promote(list, kind, t, k);
      }
    }

    method ProcessAll(list: ThreadList, ghost kind: Kind, fdset: set<int>, mfdset: set<int>, ghost pick: set<Thread>)
      returns (left: set<int>)
      requires Placed(null) && list == L(kind) && kind != Ready && FdsOf(Jobs(list.items), mfdset)
      requires pick == set t | t in list.items && t.u.Fd? && t.u.fd in fdset
      modifies list, ready, all`next, all`prev, all`kind
      ensures Placed(null) && OthersKept({kind, Ready}) && FdsOf(Jobs(list.items), left)
      ensures list.items == Left(old(list.items), pick) && ready.items == old(ready.items) + Picked(old(list.items),
              pick)
    {
      hide ThreadList.Valid, PlacedIn, Picked, Left, Lists, Seen, Culled, FdsOf, Jobs;
      ghost var was, pool := list.items, ready.items;
      ghost var m := 0;
      InAllOf(list, kind);
      HeadOf(list, kind, null);
      CulledNone(list, ready, pick);
      var thread := list.head;
      left := mfdset;
      while thread != null
        invariant Placed(null) && OthersKept({kind, Ready}) && Culled(list, ready, was, pick, m, pool)
                  && thread == At(was, m)
        invariant FdsOf(Jobs(list.items), left)
        decreases |was| - m
      {
        thread, left := ProcessOne(list, kind, thread, fdset, left, was, pick, m, pool);
        m := m + 1;
      }
      CulledAll(list, ready, was, pick, pool, m);
    }

    /** thread_process_fd: the threads whose descriptors are set become ready, in order; their bits are cleared. */
    method ProcessFd(list: ThreadList, ghost kind: Kind, fdset: set<int>, mfdset: set<int>) returns (left: set<int>)
      requires Placed(null) && list == L(kind) && kind != Ready && FdsOf(Jobs(list.items), mfdset)
      modifies list, ready, all`next, all`prev, all`kind
      ensures Placed(null) && OthersKept({kind, Ready}) && FdsOf(Jobs(list.items), left)
      ensures left == mfdset - fdset
      ensures Jobs(list.items) == Off(old(Jobs(list.items)), fdset)
      ensures Jobs(ready.items) == old(Jobs(ready.items)) + On(old(Jobs(list.items)), fdset)
    {
      hide *;
      ghost var was, pool, pick := list.items, ready.items, set t | t in list.items && t.u.Fd? && t.u.fd in fdset;
      left := ProcessAll(list, kind, fdset, mfdset, pick);
      assert Jobs(was) == old(Jobs(was)) && Jobs(pool) == old(Jobs(pool));
      Processed(list, was, pool, pick, fdset, mfdset, left);
    }

    lemma Processed(list: ThreadList, was: seq<Thread>, pool: seq<Thread>, pick: set<Thread>,
                    fdset: set<int>, mfdset: set<int>, left: set<int>)
      requires list.items == Left(was, pick) && ready.items == pool + Picked(was, pick)
      requires forall t :: t in was ==> (t in pick <==> t.u.Fd? && t.u.fd in fdset)
      requires FdsOf(Jobs(was), mfdset) && FdsOf(Jobs(list.items), left)
      ensures left == mfdset - fdset
      ensures Jobs(list.items) == Off(Jobs(was), fdset) && Jobs(ready.items) == Jobs(pool) + On(Jobs(was), fdset)
    {
      hide Left, Picked, FdsOf, On, Off, Jobs;
      JobsOn(was, fdset, pick);
      OffFds(Jobs(was), mfdset, fdset);
      FdsUnique(Jobs(list.items), left, mfdset - fdset);
      JobsSum(pool, Picked(was, pick));
    }

    lemma InAllOf(list: ThreadList, kind: Kind)
      requires Placed(null) && list == L(kind)
      ensures forall t :: t in list.items ==> t in all
    {
      hide ThreadList.Valid;
    }

    lemma JobsSum(a: seq<Thread>, b: seq<Thread>)
      ensures Jobs(a + b) == Jobs(a) + Jobs(b)
    {
    }

    /** The oldest event off its list, and run. */
    method RunEvent() returns (outcome: Outcome)
      requires Valid() && event.items != [] && event.head == event.items[0]
      modifies event, unuse, all`next, all`prev, all`kind
      ensures Valid() && all == old(all) && OthersKept({Event})
      ensures var was := old(Schedule());
              Schedule() == was.(event := was.event[1..]) && outcome == Ran(Event, was.event[0])
    {
      hide ThreadList.Valid, PlacedIn, FdsOf, SortedTimers, Jobs, Lists;
      Six();
      InAll();
      var copy := Discharge(event, Event, event.head, 0);
      outcome := Ran(copy.0, copy.1);
    }

    method RunReady() returns (outcome: Outcome)
      requires Valid() && ready.items != [] && ready.head == ready.items[0]
      modifies ready, unuse, all`next, all`prev, all`kind
      ensures Valid() && all == old(all) && OthersKept({Ready})
      ensures var was := old(Schedule());
              Schedule() == was.(ready := was.ready[1..]) && outcome == Ran(Ready, was.ready[0])
    {
      hide ThreadList.Valid, PlacedIn, FdsOf, SortedTimers, Jobs, Lists;
      Six();
      InAll();
      var copy := Discharge(ready, Ready, ready.head, 0);
      outcome := Ran(copy.0, copy.1);
    }

    method RunTimer(thread: Thread) returns (outcome: Outcome)
      requires Valid() && timer.items != [] && thread == timer.items[0]
      modifies timer, unuse, all`next, all`prev, all`kind
      ensures Valid() && all == old(all) && OthersKept({Timer})
      ensures var was := old(Schedule());
              Schedule() == was.(timer := was.timer[1..]) && outcome == Ran(Timer, was.timer[0])
    {
      hide ThreadList.Valid, PlacedIn, FdsOf, SortedTimers, Jobs, Lists;
      Six();
      InAll();
      TailSorted(Jobs(timer.items));
      ghost var was := Jobs(timer.items);
      var copy := Discharge(timer, Timer, thread, 0);
      assert Jobs(timer.items) == was[1..];
      outcome := Ran(copy.0, copy.1);
    }

    /** The first timer on the list whose time has come: on a sorted list, the head. */
    method FirstDue(now: Timeval) returns (thread: Thread?)
      requires Valid()
      ensures Valid() && Schedule() == old(Schedule())
      ensures thread == null <==> !Due(Schedule(), now)
      ensures thread != null ==> timer.items != [] && thread == timer.items[0]
    {
      hide ThreadList.Valid, PlacedIn, Jobs, FdsOf;
      Six();
      HeadOf(timer, Timer, null);
      thread := timer.head;
      ghost var k := 0;
      while thread != null
        invariant Valid() && Schedule() == old(Schedule()) && k <= |timer.items| && thread == At(timer.items, k)
        invariant forall j :: 0 <= j < k ==> Compare(now, Jobs(timer.items)[j].u.sands) < 0
        decreases |timer.items| - k
      {
        ghost var due := Jobs(timer.items)[0].u.sands;
        assert Jobs(timer.items)[k].u == thread.u;
        if Compare(now, thread.u.sands) >= 0 {
          CompareOrder(due, thread.u.sands, now);
          CompareOrder(thread.u.sands, now, now);
          break;
        }
        NextIs(timer, Timer, k, null);
        thread, k := thread.next, k + 1;
      }
    }

    /** thread_timer_wait: how long select may wait. It never sleeps past a deadline, but for 10 microseconds when one
        has passed. */
    method TimerWait(now: Timeval) returns (wait: Option<Timeval>)
      requires Valid()
      ensures Valid() && Schedule() == old(Schedule())
      ensures wait.None? <==> timer.items == []
      ensures wait.Some? ==>
        wait.value == Adjusted(Micros(Jobs(timer.items)[0].u.sands) - Micros(now)) && Normal(wait.value)
      ensures wait.Some? && AllNormal(Jobs(timer.items)) ==>
        forall k :: 0 <= k < |timer.items| ==> NotPast(wait.value, now, Jobs(timer.items)[k])
    {
      hide ThreadList.Valid, Jobs, NotPast, AllNormal, Adjusted;
      Six();
      HeadOf(timer, Timer, null);
      if timer.head == null { return None; }
      assert Jobs(timer.items)[0].u == timer.head.u;
      var min := Subtract(timer.head.u.sands, now);
      AdjustedShortens(Micros(timer.head.u.sands) - Micros(now));
      SleepsNotPast(Jobs(timer.items), now);
      if min.sec < 0 {
        min := Timeval(0, 10);
      }
      wait := Some(min);
    }

    predicate AllNormal(timers: seq<Job>) {
      forall k :: 0 <= k < |timers| ==> timers[k].u.Until? && Normal(timers[k].u.sands)
    }

    predicate NotPast(wait: Timeval, now: Timeval, job: Job) {
      job.u.Until? && Micros(wait) <= Max(10, Micros(job.u.sands) - Micros(now))
    }

    lemma SleepsNotPast(timers: seq<Job>, now: Timeval)
      requires SortedTimers(timers) && timers != []
      ensures var wait := Adjusted(Micros(timers[0].u.sands) - Micros(now));
              wait.sec >= 0 && (AllNormal(timers) ==> forall k :: 0 <= k < |timers| ==> NotPast(wait, now, timers[k]))
    {
      var first := timers[0].u.sands;
      var wait := Adjusted(Micros(first) - Micros(now));
      AdjustedShortens(Micros(first) - Micros(now));
      if AllNormal(timers) {
        forall k | 0 <= k < |timers| ensures NotPast(wait, now, timers[k]) {
          CompareMicros(timers[k].u.sands, first);
          CompareOrder(timers[k].u.sands, first, first);
        }
      }
    }

    method GatherRead(found: set<int>)
      requires Valid() && found <= readfd
      modifies this`readfd, read, ready, all`next, all`prev, all`kind
      ensures Valid() && all == old(all) && OthersKept({Read, Ready})
      ensures var was := old(Schedule());
              Schedule() == was.(read := Off(was.read, found), ready := was.ready + On(was.read, found),
                readfd := was.readfd - found)
    {
      hide ThreadList.Valid, PlacedIn, FdsOf, SortedTimers, Jobs, Lists, On, Off;
      Six();
      SixLists();
      var left := ProcessFd(read, Read, found, readfd);
      NotParts();
      readfd := left;
    }

    method GatherWrite(found: set<int>)
      requires Valid() && found <= writefd
      modifies this`writefd, write, ready, all`next, all`prev, all`kind
      ensures Valid() && all == old(all) && OthersKept({Write, Ready})
      ensures var was := old(Schedule());
              Schedule() == was.(write := Off(was.write, found), ready := was.ready + On(was.write, found),
                writefd := was.writefd - found)
    {
      hide ThreadList.Valid, PlacedIn, FdsOf, SortedTimers, Jobs, Lists, On, Off;
      Six();
      SixLists();
      var left := ProcessFd(write, Write, found, writefd);
      NotParts();
      writefd := left;
    }

    /** What select found. */
    method Gather(readable: set<int>, writable: set<int>)
      requires Valid() && readable <= readfd && writable <= writefd
      modifies this`readfd, this`writefd, read, write, ready, all`next, all`prev, all`kind
      ensures Valid() && all == old(all) && Schedule() == Collect(old(Schedule()), readable, writable)
    {
      hide Valid, OthersKept, On, Off;
      GatherRead(readable);
      GatherWrite(writable);
    }

    ghost predicate WaitsAt(items: seq<Thread>, k: int, fd: int)
      reads items
    {
      0 <= k < |items| && items[k].u == Fd(fd)
    }

    lemma FdsMeaning(items: seq<Thread>, fds: set<int>)
      requires FdsOf(Jobs(items), fds)
      ensures forall fd :: fd in fds <==> exists k :: WaitsAt(items, k, fd)
      ensures forall fd, i, j :: WaitsAt(items, i, fd) && WaitsAt(items, j, fd) ==> i == j
    {
      hide Jobs;
      var ws := Jobs(items);
      forall fd ensures fd in fds <==> exists k :: WaitsAt(items, k, fd) {
        if fd in fds {
          var k :| 0 <= k < |ws| && ws[k].u == Fd(fd);
          assert WaitsAt(items, k, fd);
        }
        if k :| WaitsAt(items, k, fd) { assert ws[k].u.fd in fds; }
      }
      forall fd, i, j | WaitsAt(items, i, fd) && WaitsAt(items, j, fd) ensures i == j {
        assert ws[i].u == ws[j].u;
      }
    }

    lemma ValidFds()
      requires Valid()
      ensures Placed(null) && FdsOf(Jobs(read.items), readfd) && FdsOf(Jobs(write.items), writefd)
    {
      hide PlacedIn, FdsOf, Jobs;
    }

    lemma Spread()
      requires Placed(null)
      ensures alloc == |all|
              == |read.items| + |write.items| + |timer.items| + |event.items| + |ready.items| + |unuse.items|
      ensures forall t, k :: t in all ==> (t in L(k).items <==> t.kind == k)
      ensures forall k, t :: t in L(k).items ==> t in all
      ensures forall k, i, j :: 0 <= i < j < |L(k).items| ==> L(k).items[i] != L(k).items[j]
    {
      Six();
      assert forall k :: L(k).Valid();
    }

    lemma Heads()
      requires Valid()
      ensures event.head == At(event.items, 0) && timer.head == At(timer.items, 0) && ready.head == At(ready.items, 0)
      ensures Placed(null) && SortedTimers(Jobs(timer.items))
    {
      hide ThreadList.Valid, Jobs, FdsOf, SortedTimers;
      Six();
      HeadOf(event, Event, null);
      HeadOf(timer, Timer, null);
      HeadOf(ready, Ready, null);
    }

    /** The end of a turn: wait in select, and run the first thread that has become ready. */
    method Select(round: Round) returns (outcome: Outcome)
      requires Valid() && ready.items == []
      modifies this`readfd, this`writefd, read, write, ready, unuse, all`next, all`prev, all`kind
      ensures Valid() && all == old(all)
      ensures old(Schedule()).event == [] && !Due(old(Schedule()), round.now) ==>
        (Schedule(), outcome) == Turn(old(Schedule()), round)
    {
      hide Valid, OthersKept, Collect, SortedTimers;
      Heads();
      var wait := TimerWait(round.later);
      Heads();
      match round.answer
      case Failed => outcome := Broken;
      case Again => outcome := StillWaiting;
      case Found(readable, writable) =>
        Gather(readable * readfd, writable * writefd);
        Heads();
        if ready.head == null { return StillWaiting; }
        outcome := RunReady();
    }

    /** One turn of the loop in thread_fetch. */
    method TakeTurn(round: Round) returns (outcome: Outcome)
      requires Valid()
      modifies this`readfd, this`writefd, read, write, timer, event, ready, unuse, all`next, all`prev, all`kind
      ensures Valid() && all == old(all)
      ensures (Schedule(), outcome) == Turn(old(Schedule()), round)
    {
      hide Valid, OthersKept, Collect, SortedTimers, Jobs;
      Heads();
      if event.head != null {
        outcome := RunEvent();
        return;
      }
      var thread := FirstDue(round.now);
      if thread != null {
        outcome := RunTimer(thread);
        return;
      }
      if ready.head != null {
        outcome := RunReady();
        return;
      }
      outcome := Select(round);
    }

    /** thread_fetch, until it returns or the given rounds are used up. */
    method Fetch(rounds: seq<Round>) returns (outcome: Outcome)
      requires Valid()
      modifies this`readfd, this`writefd, read, write, timer, event, ready, unuse, all`next, all`prev, all`kind
      ensures Valid() && all == old(all)
      ensures (Schedule(), outcome) == Schedules.Fetch(old(Schedule()), rounds)
    {
      hide Valid, Turn, Schedule;
      var i := 0;
      while i < |rounds|
        invariant Valid() && all == old(all) && i <= |rounds|
        invariant Schedules.Fetch(old(Schedule()), rounds) == Schedules.Fetch(Schedule(), rounds[i..])
      {
        outcome := TakeTurn(rounds[i]);
        if !outcome.StillWaiting? { return; }
        assert rounds[i..][1..] == rounds[i + 1..];
        i := i + 1;
      }
      outcome := StillWaiting;
    }

    /** What the invariant means: every allocated thread is on exactly one list, the one of its type; the allocation
        count is the sum of the six counts; a descriptor's bit is set when exactly one thread waits for it. */
    lemma Conserved()
      requires Valid()
      ensures alloc == |all|
              == |read.items| + |write.items| + |timer.items| + |event.items| + |ready.items| + |unuse.items|
      ensures forall t, k :: t in all ==> (t in L(k).items <==> t.kind == k)
      ensures forall k, t :: t in L(k).items ==> t in all
      ensures forall k, i, j :: 0 <= i < j < |L(k).items| ==> L(k).items[i] != L(k).items[j]
      ensures forall fd :: fd in readfd <==> exists k :: WaitsAt(read.items, k, fd)
      ensures forall fd, i, j :: WaitsAt(read.items, i, fd) && WaitsAt(read.items, j, fd) ==> i == j
      ensures forall fd :: fd in writefd <==> exists k :: WaitsAt(write.items, k, fd)
      ensures forall fd, i, j :: WaitsAt(write.items, i, fd) && WaitsAt(write.items, j, fd) ==> i == j
    {
      hide *;
      ValidFds();
      Spread();
      FdsMeaning(read.items, readfd);
      FdsMeaning(write.items, writefd);
    }
  }
}
