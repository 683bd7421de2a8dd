/** The schedule that public/cmd/thread.c keeps, on values: what is waiting, and what a fetch returns next. */
module Schedules {
  import opened ThreadLists

  // ---------- Descriptors and deadlines ----------

  /** Each descriptor waited for is set, is waited for once, and no other is set. */
  ghost predicate FdsOf(ws: seq<Job>, fds: set<int>) {
    && (forall k :: 0 <= k < |ws| ==> ws[k].u.Fd? && ws[k].u.fd in fds)
    && (forall fd :: fd in fds ==> exists k :: 0 <= k < |ws| && ws[k].u == Fd(fd))
    && (forall i, j :: 0 <= i < j < |ws| ==> ws[i].u != ws[j].u)
  }

  ghost predicate SortedTimers(ws: seq<Job>) {
    && (forall k :: 0 <= k < |ws| ==> ws[k].u.Until?)
    && (forall i, j :: 0 <= i < j < |ws| ==> Compare(ws[i].u.sands, ws[j].u.sands) <= 0)
  }

  lemma FdsMore(ws: seq<Job>, fds: set<int>, job: Job)
    requires FdsOf(ws, fds) && job.u.Fd? && job.u.fd !in fds
    ensures FdsOf(ws + [job], fds + {job.u.fd})
  {
    var more := ws + [job];
    assert more[|ws|] == job;
    forall f | f in fds ensures exists k :: 0 <= k < |more| && more[k].u == Fd(f) {
      var k :| 0 <= k < |ws| && ws[k].u == Fd(f);
      assert more[k] == ws[k];
    }
  }

  lemma FdsLess(ws: seq<Job>, fds: set<int>, k: nat)
    requires FdsOf(ws, fds) && k < |ws|
    ensures ws[k].u.Fd? && FdsOf(ws[..k] + ws[k + 1..], fds - {ws[k].u.fd})
  {
    var rest := ws[..k] + ws[k + 1..];
    forall j | 0 <= j < |rest| ensures rest[j] == ws[if j < k then j else j + 1] { }
    forall fd | fd in fds - {ws[k].u.fd} ensures exists j :: 0 <= j < |rest| && rest[j].u == Fd(fd) {
      var j :| 0 <= j < |ws| && ws[j].u == Fd(fd);
      assert rest[if j < k then j else j - 1] == ws[j];
    }
  }

  lemma CompareOrder(a: Timeval, b: Timeval, c: Timeval)
    ensures Compare(a, b) == -Compare(b, a)
    ensures Compare(a, b) <= 0 && Compare(b, c) <= 0 ==> Compare(a, c) <= 0
  {
  }

  lemma SortedInsert(ws: seq<Job>, k: nat, job: Job)
    requires SortedTimers(ws) && k <= |ws| && job.u.Until?
    requires forall j :: 0 <= j < k ==> Compare(job.u.sands, ws[j].u.sands) > 0
    requires k < |ws| ==> Compare(job.u.sands, ws[k].u.sands) <= 0
    ensures SortedTimers(ws[..k] + [job] + ws[k..])
  {
    var more := ws[..k] + [job] + ws[k..];
    var due := job.u.sands;
    forall i, j | 0 <= i < j < |more| ensures Compare(more[i].u.sands, more[j].u.sands) <= 0 {
      if i < k && j == k { CompareOrder(due, ws[i].u.sands, due); }
      if i == k && j > k { CompareOrder(due, ws[k].u.sands, ws[j - 1].u.sands); }
    }
  }

  lemma SortedLess(ws: seq<Job>, k: nat)
    requires SortedTimers(ws) && k < |ws|
    ensures SortedTimers(ws[..k] + ws[k + 1..])
  {
    var rest := ws[..k] + ws[k + 1..];
    forall j | 0 <= j < |rest| ensures rest[j] == ws[if j < k then j else j + 1] { }
  }

  /** The descriptors waited for determine the set. */
  lemma FdsUnique(ws: seq<Job>, fds: set<int>, gds: set<int>)
    requires FdsOf(ws, fds) && FdsOf(ws, gds)
    ensures fds == gds
  {
    forall fd | fd in fds ensures fd in gds { var k :| 0 <= k < |ws| && ws[k].u == Fd(fd); }
    forall fd | fd in gds ensures fd in fds { var k :| 0 <= k < |ws| && ws[k].u == Fd(fd); }
  }

  lemma AllUntil(ws: seq<Job>)
    requires SortedTimers(ws)
    ensures forall j :: 0 <= j < |ws| ==> ws[j].u.Until?
  {
  }

  // ---------- The whole schedule ----------

  datatype State = State(read: seq<Job>, write: seq<Job>, timer: seq<Job>, event: seq<Job>, ready: seq<Job>,
                         readfd: set<int>, writefd: set<int>)

  ghost predicate Sound(s: State) {
    FdsOf(s.read, s.readfd) && FdsOf(s.write, s.writefd) && SortedTimers(s.timer)
  }

  function Everything(s: State): multiset<Job> {
    multiset(s.read) + multiset(s.write) + multiset(s.timer) + multiset(s.event) + multiset(s.ready)
  }

  /** What select says: an error, a timeout or a signal, or the descriptors it found. */
  datatype Answer = Failed | Again | Found(readable: set<int>, writable: set<int>)

  /** What the world answers in one turn of the fetch loop: the clock, the clock again before select, and select. */
  datatype Round = Round(now: Timeval, later: Timeval, answer: Answer)

  /** What a fetch gives: a thread with its type, an error, or nothing yet when the rounds are used up. */
  datatype Outcome = Ran(kind: Kind, job: Job) | Broken | StillWaiting

  /** The jobs on the given descriptors, and the others, in order. */
  function On(jobs: seq<Job>, fds: set<int>): (r: seq<Job>)
    ensures forall job :: job in r ==> job in jobs && job.u.Fd? && job.u.fd in fds
  {
    if jobs == [] then []
    else
      var n := |jobs| - 1;
      On(jobs[..n], fds) + if jobs[n].u.Fd? && jobs[n].u.fd in fds then [jobs[n]] else []
  }

  function Off(jobs: seq<Job>, fds: set<int>): (r: seq<Job>)
    ensures forall job :: job in r ==> job in jobs && !(job.u.Fd? && job.u.fd in fds)
  {
    if jobs == [] then []
    else
      var n := |jobs| - 1;
      Off(jobs[..n], fds) + if jobs[n].u.Fd? && jobs[n].u.fd in fds then [] else [jobs[n]]
  }

  /** The threads select found ready, those that wait to read first. */
  function Collect(s: State, readable: set<int>, writable: set<int>): State {
    s.(read := Off(s.read, readable), write := Off(s.write, writable),
       ready := s.ready + On(s.read, readable) + On(s.write, writable),
       readfd := s.readfd - readable, writefd := s.writefd - writable)
  }

  predicate Due(s: State, now: Timeval) {
    s.timer != [] && s.timer[0].u.Until? && Compare(now, s.timer[0].u.sands) >= 0
  }

  /** One turn of the loop. */
  function Turn(s: State, round: Round): (State, Outcome) {
    if s.event != [] then (s.(event := s.event[1..]), Ran(Event, s.event[0]))
    else if Due(s, round.now) then (s.(timer := s.timer[1..]), Ran(Timer, s.timer[0]))
    else if s.ready != [] then (s.(ready := s.ready[1..]), Ran(Ready, s.ready[0]))
    else
      match round.answer
      case Failed => (s, Broken)
      case Again => (s, StillWaiting)
      case Found(readable, writable) =>
        var t := Collect(s, readable * s.readfd, writable * s.writefd);
        if t.ready == [] then (t, StillWaiting) else (t.(ready := t.ready[1..]), Ran(Ready, t.ready[0]))
  }

  function Fetch(s: State, rounds: seq<Round>): (State, Outcome)
    decreases |rounds|
  {
    if rounds == [] then (s, StillWaiting)
    else
      var (t, outcome) := Turn(s, rounds[0]);
      if outcome.StillWaiting? then Fetch(t, rounds[1..]) else (t, outcome)
  }

  // ---------- What a fetch promises ----------

  lemma LastFd(jobs: seq<Job>, fds: set<int>)
    requires FdsOf(jobs, fds) && jobs != []
    ensures var n := |jobs| - 1; jobs[n].u.Fd? && jobs[n].u.fd in fds && FdsOf(jobs[..n], fds - {jobs[n].u.fd})
  {
    var n := |jobs| - 1;
    FdsLess(jobs, fds, n);
    assert jobs[..n] + jobs[n + 1..] == jobs[..n];
  }

  lemma NoFds(fds: set<int>, gone: set<int>)
    requires FdsOf([], fds)
    ensures FdsOf([], fds - gone)
  {
  }

  lemma {:induction false} OffFds(jobs: seq<Job>, fds: set<int>, gone: set<int>)
    requires FdsOf(jobs, fds)
    ensures FdsOf(Off(jobs, gone), fds - gone)
  {
    hide FdsOf;
    if jobs == [] {
      NoFds(fds, gone);
    } else {
      LastFd(jobs, fds);
      var n := |jobs| - 1;
      var fd := jobs[n].u.fd;
      OffFds(jobs[..n], fds - {fd}, gone);
      if fd in gone {
        assert Off(jobs, gone) == Off(jobs[..n], gone) && fds - gone == fds - {fd} - gone;
      } else {
        FdsMore(Off(jobs[..n], gone), fds - {fd} - gone, jobs[n]);
        assert fds - gone == fds - {fd} - gone + {fd};
      }
    }
  }

  lemma TailSorted(timers: seq<Job>)
    requires SortedTimers(timers) && timers != []
    ensures SortedTimers(timers[1..])
  {
    SortedLess(timers, 0);
    assert timers[..0] + timers[1..] == timers[1..];
  }

  lemma CollectSound(s: State, readable: set<int>, writable: set<int>)
    requires Sound(s)
    ensures Sound(Collect(s, readable, writable))
  {
    hide FdsOf, SortedTimers;
    OffFds(s.read, s.readfd, readable);
    OffFds(s.write, s.writefd, writable);
  }

  lemma TurnSound(s: State, round: Round)
    requires Sound(s)
    ensures Sound(Turn(s, round).0)
  {
    hide FdsOf, SortedTimers, Collect;
    if s.timer != [] { TailSorted(s.timer); }
    if round.answer.Found? {
      CollectSound(s, round.answer.readable * s.readfd, round.answer.writable * s.writefd);
    }
  }

  function Given(outcome: Outcome): multiset<Job> {
    if outcome.Ran? then multiset{outcome.job} else multiset{}
  }

  lemma HeadOut(jobs: seq<Job>)
    requires jobs != []
    ensures multiset(jobs) == multiset{jobs[0]} + multiset(jobs[1..])
  {
    assert jobs == [jobs[0]] + jobs[1..];
  }

  lemma OneOut(s: State)
    ensures s.event != [] ==> Everything(s) == Everything(s.(event := s.event[1..])) + multiset{s.event[0]}
    ensures s.timer != [] ==> Everything(s) == Everything(s.(timer := s.timer[1..])) + multiset{s.timer[0]}
    ensures s.ready != [] ==> Everything(s) == Everything(s.(ready := s.ready[1..])) + multiset{s.ready[0]}
  {
    var waiting := multiset(s.read) + multiset(s.write);
    if s.event != [] {
      HeadOut(s.event);
      assert Everything(s.(event := s.event[1..]))
             == waiting + multiset(s.timer) + multiset(s.event[1..]) + multiset(s.ready);
    }
    if s.timer != [] {
      HeadOut(s.timer);
      assert Everything(s.(timer := s.timer[1..]))
             == waiting + multiset(s.timer[1..]) + multiset(s.event) + multiset(s.ready);
    }
    if s.ready != [] {
      HeadOut(s.ready);
      assert Everything(s.(ready := s.ready[1..]))
             == waiting + multiset(s.timer) + multiset(s.event) + multiset(s.ready[1..]);
    }
  }

  lemma Snoc(jobs: seq<Job>, job: Job)
    ensures multiset(jobs + [job]) == multiset(jobs) + multiset{job}
  {
  }

  /** One more element on either side. */
  lemma Regroup(all: multiset<Job>, a: multiset<Job>, b: multiset<Job>, one: multiset<Job>)
    requires all == a + b
    ensures all + one == (a + one) + b && all + one == a + (b + one)
  {
  }

  lemma {:induction false} OnOff(jobs: seq<Job>, fds: set<int>)
    ensures multiset(jobs) == multiset(On(jobs, fds)) + multiset(Off(jobs, fds))
  {
    if jobs != [] {
      var n := |jobs| - 1;
      var on, off := On(jobs[..n], fds), Off(jobs[..n], fds);
      OnOff(jobs[..n], fds);
      Regroup(multiset(jobs[..n]), multiset(on), multiset(off), multiset{jobs[n]});
      assert jobs == jobs[..n] + [jobs[n]];
      Snoc(jobs[..n], jobs[n]);
      if jobs[n].u.Fd? && jobs[n].u.fd in fds {
        assert Off(jobs, fds) == off && On(jobs, fds) == on + [jobs[n]];
        Snoc(on, jobs[n]);
      } else {
        assert On(jobs, fds) == on && Off(jobs, fds) == off + [jobs[n]];
        Snoc(off, jobs[n]);
      }
    }
  }

  lemma CollectConserves(s: State, readable: set<int>, writable: set<int>)
    ensures Everything(s) == Everything(Collect(s, readable, writable))
  {
    var rOn, rOff := multiset(On(s.read, readable)), multiset(Off(s.read, readable));
    var wOn, wOff := multiset(On(s.write, writable)), multiset(Off(s.write, writable));
    OnOff(s.read, readable);
    OnOff(s.write, writable);
    assert multiset(s.read) == rOn + rOff && multiset(s.write) == wOn + wOff;
    assert multiset(Collect(s, readable, writable).ready) == multiset(s.ready) + rOn + wOn;
  }

  lemma TurnConserves(s: State, round: Round)
    ensures var (t, outcome) := Turn(s, round); Everything(s) == Everything(t) + Given(outcome)
  {
    hide Everything, Collect;
    OneOut(s);
    if round.answer.Found? {
      var r, w := round.answer.readable * s.readfd, round.answer.writable * s.writefd;
      CollectConserves(s, r, w);
      OneOut(Collect(s, r, w));
    }
  }

  /** A fetch keeps the descriptor sets exact and the timers in order, and loses or invents no thread. */
  lemma {:induction false} FetchKeeps(s: State, rounds: seq<Round>)
    requires Sound(s)
    ensures var (t, outcome) := Fetch(s, rounds); Sound(t) && Everything(s) == Everything(t) + Given(outcome)
    decreases |rounds|
  {
    if rounds != [] {
      TurnSound(s, rounds[0]);
      TurnConserves(s, rounds[0]);
      var (t, outcome) := Turn(s, rounds[0]);
      if outcome.StillWaiting? { FetchKeeps(t, rounds[1..]); }
    }
  }

  predicate Least(due: Timeval, timers: seq<Job>) {
    forall job :: job in timers ==> job.u.Until? && Compare(due, job.u.sands) <= 0
  }

  predicate DueBy(due: Timeval, rounds: seq<Round>) {
    exists i :: 0 <= i < |rounds| && Compare(rounds[i].now, due) >= 0
  }

  lemma DueLater(due: Timeval, rounds: seq<Round>)
    requires rounds != [] && DueBy(due, rounds[1..])
    ensures DueBy(due, rounds)
  {
    var i :| 0 <= i < |rounds[1..]| && Compare(rounds[1..][i].now, due) >= 0;
    assert rounds[i + 1] == rounds[1..][i];
  }

  lemma LeastFirst(timers: seq<Job>)
    requires SortedTimers(timers) && timers != []
    ensures Least(timers[0].u.sands, timers)
  {
    forall job | job in timers ensures job.u.Until? && Compare(timers[0].u.sands, job.u.sands) <= 0 {
      var k :| 0 <= k < |timers| && timers[k] == job;
      if k == 0 { assert job == timers[0]; }
    }
  }

  /** The clock has not reached any deadline. */
  predicate NoneReached(timers: seq<Job>, now: Timeval) {
    forall k :: 0 <= k < |timers| ==> timers[k].u.Until? && Compare(now, timers[k].u.sands) < 0
  }

  /** Someone waits for one of the descriptors that were found. */
  predicate Awaited(s: State, answer: Answer) {
    answer.Found? && (answer.readable * s.readfd != {} || answer.writable * s.writefd != {})
  }

  /** A round in which nothing happens: there is no event, no deadline is reached, nothing is ready, and select says
      neither that it failed nor that a descriptor waited for is ready. */
  predicate Passes(s: State, round: Round) {
    && s.event == [] && NoneReached(s.timer, round.now) && s.ready == []
    && (round.answer.Again? || (round.answer.Found? && !Awaited(s, round.answer)))
  }

  /** The first of the jobs that wait for one of these descriptors. */
  predicate FirstWaiting(jobs: seq<Job>, fds: set<int>, job: Job) {
    exists k :: 0 <= k < |jobs| && jobs[k] == job && job.u.Fd? && job.u.fd in fds
                && forall m :: 0 <= m < k ==> !(jobs[m].u.Fd? && jobs[m].u.fd in fds)
  }

  /** What the round that ends a fetch gives. An event comes before everything, the oldest first; then a timer whose
      deadline is reached, the earliest first; then a thread that is ready already, the oldest first; and only then
      what select found, those that wait to read first. */
  predicate Ends(s: State, round: Round, outcome: Outcome) {
    if s.event != [] then outcome == Ran(Event, s.event[0])
    else if !NoneReached(s.timer, round.now) then s.timer != [] && outcome == Ran(Timer, s.timer[0])
    else if s.ready != [] then outcome == Ran(Ready, s.ready[0])
    else if round.answer.Failed? then outcome == Broken
    else
      && Awaited(s, round.answer) && outcome.Ran? && outcome.kind == Ready
      && if round.answer.readable * s.readfd != {} then FirstWaiting(s.read, round.answer.readable, outcome.job)
         else FirstWaiting(s.write, round.answer.writable, outcome.job)
  }

  lemma DueIs(s: State, now: Timeval)
    requires Sound(s)
    ensures Due(s, now) <==> !NoneReached(s.timer, now)
  {
    if s.timer != [] {
      LeastFirst(s.timer);
      forall k | 0 <= k < |s.timer| && Compare(now, s.timer[0].u.sands) < 0
        ensures s.timer[k].u.Until? && Compare(now, s.timer[k].u.sands) < 0
      {
        assert s.timer[k] in s.timer;
        CompareOrder(s.timer[0].u.sands, s.timer[k].u.sands, now);
      }
    }
  }

  lemma {:induction false} NothingOn(jobs: seq<Job>, fds: set<int>)
    ensures On(jobs, fds) == [] <==> forall k :: 0 <= k < |jobs| ==> !(jobs[k].u.Fd? && jobs[k].u.fd in fds)
    ensures On(jobs, fds) == [] ==> Off(jobs, fds) == jobs
  {
    if jobs != [] {
      var n := |jobs| - 1;
      NothingOn(jobs[..n], fds);
      assert jobs == jobs[..n] + [jobs[n]] && forall k :: 0 <= k < n ==> jobs[..n][k] == jobs[k];
    }
  }

  lemma {:induction false} FirstOn(jobs: seq<Job>, fds: set<int>) returns (k: nat)
    requires On(jobs, fds) != []
    ensures k < |jobs| && jobs[k] == On(jobs, fds)[0] && jobs[k].u.Fd? && jobs[k].u.fd in fds
    ensures forall m :: 0 <= m < k ==> !(jobs[m].u.Fd? && jobs[m].u.fd in fds)
  {
    var n := |jobs| - 1;
    assert forall m :: 0 <= m < n ==> jobs[..n][m] == jobs[m];
    if On(jobs[..n], fds) != [] {
      k := FirstOn(jobs[..n], fds);
    } else {
      NothingOn(jobs[..n], fds);
      k := n;
    }
  }

  lemma SomeFd(fds: set<int>)
    ensures fds == {} || exists fd :: fd in fds
  {
    if forall fd :: fd !in fds { assert fds == {}; }
  }

  /** Of descriptors that are all waited for, some are there exactly if someone waits for them. */
  lemma OnFds(jobs: seq<Job>, fds: set<int>, found: set<int>)
    requires FdsOf(jobs, fds)
    ensures On(jobs, found * fds) == [] <==> found * fds == {}
    ensures found * fds == {} ==> Off(jobs, found * fds) == jobs
    ensures found * fds != {} ==> On(jobs, found * fds) != [] && FirstWaiting(jobs, found, On(jobs, found * fds)[0])
  {
    var both := found * fds;
    NothingOn(jobs, both);
    if both != {} {
      SomeFd(both);
      var fd :| fd in both;
      var m :| 0 <= m < |jobs| && jobs[m].u == Fd(fd);
      var k := FirstOn(jobs, both);
      assert jobs[k].u.fd in found;
      forall m | 0 <= m < k ensures !(jobs[m].u.Fd? && jobs[m].u.fd in found) { assert jobs[m].u.fd in fds; }
    }
  }

  lemma TurnExactly(s: State, round: Round)
    requires Sound(s)
    ensures var (t, outcome) := Turn(s, round);
            if Passes(s, round) then t == s && outcome == StillWaiting
            else !outcome.StillWaiting? && Ends(s, round, outcome)
  {
    hide FdsOf, SortedTimers, On, Off, NoneReached, FirstWaiting;
    DueIs(s, round.now);
    if round.answer.Found? {
      OnFds(s.read, s.readfd, round.answer.readable);
      OnFds(s.write, s.writefd, round.answer.writable);
      var r, w := round.answer.readable * s.readfd, round.answer.writable * s.writefd;
      assert r == {} ==> s.readfd - r == s.readfd;
      assert w == {} ==> s.writefd - w == s.writefd;
    }
  }

  /** For every clock and every select: a fetch passes the rounds in which nothing happens, and the first round in which
      something does decides what it gives; it gives nothing yet if and only if there is none. */
  lemma {:induction false} FetchExactly(s: State, rounds: seq<Round>, n: nat)
    requires Sound(s) && n <= |rounds| && forall i :: 0 <= i < n ==> Passes(s, rounds[i])
    requires n < |rounds| ==> !Passes(s, rounds[n])
    ensures n == |rounds| ==> Fetch(s, rounds) == (s, StillWaiting)
    ensures n < |rounds| ==> var outcome := Fetch(s, rounds).1; !outcome.StillWaiting? && Ends(s, rounds[n], outcome)
    decreases n
  {
    hide Passes, Ends, Turn, Sound;
    if rounds != [] {
      TurnExactly(s, rounds[0]);
      if n > 0 { FetchExactly(s, rounds[1..], n - 1); }
    }
  }

  /** A deadline that the first clock has reached is served at once, the earliest of them, unless there is an event. */
  lemma TimerServed(s: State, rounds: seq<Round>, k: nat)
    requires Sound(s) && rounds != [] && s.event == []
    requires k < |s.timer| && s.timer[k].u.Until? && Compare(rounds[0].now, s.timer[k].u.sands) >= 0
    ensures Fetch(s, rounds).1 == Ran(Timer, s.timer[0])
    ensures Fetch(s, rounds).0 == s.(timer := s.timer[1..])
  {
    hide SortedTimers, FdsOf, Due;
    assert !Passes(s, rounds[0]) && !NoneReached(s.timer, rounds[0].now);
    FetchExactly(s, rounds, 0);
    DueIs(s, rounds[0].now);
  }

  /** The round that ends a fetch, or the number of rounds. */
  function LastRound(s: State, rounds: seq<Round>): (n: nat)
    ensures n <= |rounds| && (forall i :: 0 <= i < n ==> Passes(s, rounds[i]))
    ensures n < |rounds| ==> !Passes(s, rounds[n])
  {
    if rounds == [] || !Passes(s, rounds[0]) then 0 else 1 + LastRound(s, rounds[1..])
  }

  /** A ready thread comes only when every deadline is later than the clock of its round; the fetch fails if and only if
      select does in a round with no event, no deadline reached and nothing ready; and descriptors waited for give a
      thread. */
  lemma FetchOutcomes(s: State, rounds: seq<Round>)
    requires Sound(s)
    ensures var n, outcome := LastRound(s, rounds), Fetch(s, rounds).1;
            && (outcome.StillWaiting? <==> n == |rounds|)
            && (outcome.Ran? && outcome.kind == Ready ==>
                  n < |rounds| && s.event == []
                  && forall k :: 0 <= k < |s.timer| ==>
                       s.timer[k].u.Until? && Compare(rounds[n].now, s.timer[k].u.sands) < 0)
            && (outcome.Broken? <==>
                  n < |rounds| && rounds[n].answer.Failed? && s.event == [] && s.ready == []
                  && NoneReached(s.timer, rounds[n].now))
            && (n < |rounds| && Awaited(s, rounds[n].answer) ==> outcome.Ran?)
  {
    FetchExactly(s, rounds, LastRound(s, rounds));
  }

  /** An event comes before everything, the oldest first. A timer comes only when no event is pending, when its
      time has been reached, and before every later timer. A ready thread comes only when no event is pending,
      the oldest first; when the schedule had one, nothing is taken from select. */
  lemma {:induction false} FetchOrder(s: State, rounds: seq<Round>)
    requires Sound(s) && rounds != []
    ensures var outcome := Fetch(s, rounds).1;
            && (s.event != [] ==> outcome == Ran(Event, s.event[0]))
            && (outcome.Ran? && outcome.kind != Event ==> s.event == [])
            && (outcome.Ran? ==> outcome.kind in {Event, Timer, Ready})
            && (outcome.Ran? && outcome.kind == Timer ==>
                  s.timer != [] && outcome.job == s.timer[0] && outcome.job.u.Until?
                  && Least(outcome.job.u.sands, s.timer) && DueBy(outcome.job.u.sands, rounds))
            && (outcome.Ran? && outcome.kind == Ready ==> NoneReached(s.timer, rounds[0].now))
            && (outcome.Ran? && outcome.kind == Ready && s.ready != [] ==> outcome.job == s.ready[0])
            && (s.event == [] && NoneReached(s.timer, rounds[0].now) && s.ready != [] ==>
                  outcome == Ran(Ready, s.ready[0]))
    decreases |rounds|
  {
    var (t, outcome) := Turn(s, rounds[0]);
    DueIs(s, rounds[0].now);
    if s.timer != [] { LeastFirst(s.timer); }
    if outcome.StillWaiting? {
      TurnSound(s, rounds[0]);
      if |rounds| > 1 {
        FetchOrder(t, rounds[1..]);
        var last := Fetch(t, rounds[1..]).1;
        if last.Ran? && last.kind == Timer { DueLater(last.job.u.sands, rounds); }
      }
    }
  }

  // ---------- Whole runs ----------

  datatype Op =
    | AddRead(rjob: Job)
    | AddWrite(wjob: Job)
    | AddTimer(tjob: Job)
    | AddEvent(ejob: Job)
    | Cancel(kind: Kind, k: nat)
    | CancelEvents(arg: int)
    | FetchOne(rounds: seq<Round>)

  function FdOf(job: Job): int {
    if job.u.Fd? then job.u.fd else 0
  }

  function DueOf(job: Job): Timeval {
    if job.u.Until? then job.u.sands else Timeval(0, 0)
  }

  function Without(jobs: seq<Job>, k: nat): seq<Job>
    requires k < |jobs|
  {
    jobs[..k] + jobs[k + 1..]
  }

  /** A deadline goes in front of the first timer that is not earlier. */
  function Inserted(timers: seq<Job>, job: Job): seq<Job> {
    if timers == [] then [job]
    else if Compare(DueOf(job), DueOf(timers[0])) <= 0 then [job] + timers
    else [timers[0]] + Inserted(timers[1..], job)
  }

  /** The jobs whose argument is another one. */
  function NotFor(jobs: seq<Job>, arg: int): seq<Job> {
    if jobs == [] then []
    else
      var n := |jobs| - 1;
      NotFor(jobs[..n], arg) + if jobs[n].arg == arg then [] else [jobs[n]]
  }

  function For(jobs: seq<Job>, arg: int): seq<Job> {
    if jobs == [] then []
    else
      var n := |jobs| - 1;
      For(jobs[..n], arg) + if jobs[n].arg == arg then [jobs[n]] else []
  }

  function ListOf(s: State, kind: Kind): seq<Job> {
    match kind
    case Read => s.read
    case Write => s.write
    case Timer => s.timer
    case Event => s.event
    case Ready => s.ready
    case Unused => []
  }

  /** What callers owe: the right kind of wait, and only threads that are waiting or ready are cancelled. */
  predicate Fits(s: State, op: Op) {
    match op
    case AddRead(job) => job.u.Fd?
    case AddWrite(job) => job.u.Fd?
    case AddTimer(job) => job.u.Until?
    case AddEvent(job) => job.u.Value?
    case Cancel(kind, k) => k < |ListOf(s, kind)|
    case CancelEvents(_) => true
    case FetchOne(_) => true
  }

  function Cancelled(s: State, kind: Kind, k: nat): State
    requires k < |ListOf(s, kind)|
  {
    match kind
    case Read => s.(read := Without(s.read, k), readfd := s.readfd - {FdOf(s.read[k])})
    case Write => s.(write := Without(s.write, k), writefd := s.writefd - {FdOf(s.write[k])})
    case Timer => s.(timer := Without(s.timer, k))
    case Event => s.(event := Without(s.event, k))
    case Ready => s.(ready := Without(s.ready, k))
  }

  /** At most one thread waits to read from a descriptor. */
  function ReadAdded(s: State, job: Job): State {
    if FdOf(job) in s.readfd then s else s.(read := s.read + [job], readfd := s.readfd + {FdOf(job)})
  }

  function WriteAdded(s: State, job: Job): State {
    if FdOf(job) in s.writefd then s else s.(write := s.write + [job], writefd := s.writefd + {FdOf(job)})
  }

  function TimerAdded(s: State, job: Job): State {
    s.(timer := Inserted(s.timer, job))
  }

  function EventAdded(s: State, job: Job): State {
    s.(event := s.event + [job])
  }

  function EventsCancelled(s: State, arg: int): State {
    s.(event := NotFor(s.event, arg))
  }

  /** What one call does: the new state, what came in, what was cancelled and what a fetch gave. */
  datatype Effect = Effect(state: State, added: multiset<Job>, cancelled: multiset<Job>, given: seq<(Kind, Job)>)

  function Apply(s: State, op: Op): Effect
    requires Fits(s, op)
  {
    var none := multiset{};
    match op
    case AddRead(job) => Effect(ReadAdded(s, job), if FdOf(job) in s.readfd then none else multiset{job}, none, [])
    case AddWrite(job) => Effect(WriteAdded(s, job), if FdOf(job) in s.writefd then none else multiset{job}, none, [])
    case AddTimer(job) => Effect(TimerAdded(s, job), multiset{job}, none, [])
    case AddEvent(job) => Effect(EventAdded(s, job), multiset{job}, none, [])
    case Cancel(kind, k) => Effect(Cancelled(s, kind, k), none, multiset{ListOf(s, kind)[k]}, [])
    case CancelEvents(arg) => Effect(EventsCancelled(s, arg), none, multiset(For(s.event, arg)), [])
    case FetchOne(rounds) =>
      var (t, outcome) := Fetch(s, rounds);
      Effect(t, none, none, if outcome.Ran? then [(outcome.kind, outcome.job)] else [])
  }

  ghost predicate AllFit(s: State, ops: seq<Op>)
    decreases |ops|
  {
    if ops == [] then true else Fits(s, ops[0]) && AllFit(Apply(s, ops[0]).state, ops[1..])
  }

  function Gift(given: seq<(Kind, Job)>): multiset<Job> {
    if given == [] then multiset{} else multiset{given[0].1} + Gift(given[1..])
  }

  ghost function Run(s: State, ops: seq<Op>): Effect
    requires AllFit(s, ops)
    decreases |ops|
  {
    if ops == [] then Effect(s, multiset{}, multiset{}, [])
    else
      var first := Apply(s, ops[0]);
      var rest := Run(first.state, ops[1..]);
      Effect(rest.state, first.added + rest.added, first.cancelled + rest.cancelled, first.given + rest.given)
  }

  lemma InsertedAt(timers: seq<Job>, job: Job, k: nat)
    requires k <= |timers|
    requires forall j :: 0 <= j < k ==> Compare(DueOf(job), DueOf(timers[j])) > 0
    requires k < |timers| ==> Compare(DueOf(job), DueOf(timers[k])) <= 0
    ensures Inserted(timers, job) == timers[..k] + [job] + timers[k..]
  {
    if timers != [] && k > 0 {
      InsertedAt(timers[1..], job, k - 1);
      assert timers[..k] == [timers[0]] + timers[1..][..k - 1] && timers[1..][k - 1..] == timers[k..];
    }
  }

  lemma PlaceFor(timers: seq<Job>, job: Job) returns (k: nat)
    requires SortedTimers(timers) && job.u.Until?
    ensures k <= |timers| && Inserted(timers, job) == timers[..k] + [job] + timers[k..]
    ensures forall j :: 0 <= j < k ==> timers[j].u.Until? && Compare(job.u.sands, timers[j].u.sands) > 0
    ensures k < |timers| ==> timers[k].u.Until? && Compare(job.u.sands, timers[k].u.sands) <= 0
    ensures SortedTimers(Inserted(timers, job))
  {
    k := 0;
    while k < |timers| && Compare(DueOf(job), DueOf(timers[k])) > 0
      invariant k <= |timers| && forall j :: 0 <= j < k ==> Compare(DueOf(job), DueOf(timers[j])) > 0
    {
      k := k + 1;
    }
    InsertedAt(timers, job, k);
    SortedInsert(timers, k, job);
  }

  lemma SplitAt(jobs: seq<Job>, k: nat)
    requires k < |jobs|
    ensures multiset(jobs) == multiset(Without(jobs, k)) + multiset{jobs[k]}
  {
    assert jobs == jobs[..k] + [jobs[k]] + jobs[k + 1..];
  }

  lemma {:induction false} ForSplits(jobs: seq<Job>, arg: int)
    ensures multiset(jobs) == multiset(NotFor(jobs, arg)) + multiset(For(jobs, arg))
  {
    if jobs != [] {
      var n := |jobs| - 1;
      var those, others := For(jobs[..n], arg), NotFor(jobs[..n], arg);
      ForSplits(jobs[..n], arg);
      Regroup(multiset(jobs[..n]), multiset(others), multiset(those), multiset{jobs[n]});
      assert jobs == jobs[..n] + [jobs[n]];
      Snoc(jobs[..n], jobs[n]);
      if jobs[n].arg == arg {
        assert NotFor(jobs, arg) == others && For(jobs, arg) == those + [jobs[n]];
        Snoc(those, jobs[n]);
      } else {
        assert For(jobs, arg) == those && NotFor(jobs, arg) == others + [jobs[n]];
        Snoc(others, jobs[n]);
      }
    }
  }

  /** Cancelling events by their argument takes all that have it and no others, and leaves the rest in order. */
  lemma {:induction false} ForMeans(jobs: seq<Job>, arg: int)
    ensures forall job :: job in For(jobs, arg) <==> job in jobs && job.arg == arg
    ensures forall job :: job in NotFor(jobs, arg) <==> job in jobs && job.arg != arg
    ensures Within(NotFor(jobs, arg), jobs)
  {
    if jobs != [] {
      var n := |jobs| - 1;
      ForMeans(jobs[..n], arg);
      assert jobs == jobs[..n] + [jobs[n]];
      assert forall job :: job in jobs <==> job in jobs[..n] || job == jobs[n];
      WithinAll([jobs[n]]);
      WithinAll([]);
      assert Within([], [jobs[n]]);
      WithinConcat(NotFor(jobs[..n], arg), jobs[..n], if jobs[n].arg == arg then [] else [jobs[n]], [jobs[n]]);
    }
  }

  lemma CancelSound(s: State, kind: Kind, k: nat)
    requires Sound(s) && k < |ListOf(s, kind)|
    ensures Sound(Cancelled(s, kind, k))
  {
    hide FdsOf, SortedTimers;
    match kind
    case Read => FdsLess(s.read, s.readfd, k);
    case Write => FdsLess(s.write, s.writefd, k);
    case Timer => SortedLess(s.timer, k);
    case Event =>
    case Ready =>
  }

  lemma CancelConserves(s: State, kind: Kind, k: nat)
    requires k < |ListOf(s, kind)|
    ensures Everything(s) == Everything(Cancelled(s, kind, k)) + multiset{ListOf(s, kind)[k]}
  {
    SplitAt(ListOf(s, kind), k);
  }

  lemma ApplySound(s: State, op: Op)
    requires Sound(s) && Fits(s, op)
    ensures Sound(Apply(s, op).state)
  {
    hide FdsOf, SortedTimers, Inserted, Everything, Cancelled, NotFor, Fetch;
    match op
    case AddRead(job) => { if job.u.fd !in s.readfd { FdsMore(s.read, s.readfd, job); } }
    case AddWrite(job) => { if job.u.fd !in s.writefd { FdsMore(s.write, s.writefd, job); } }
    case AddTimer(job) => { var k := PlaceFor(s.timer, job); }
    case AddEvent(job) =>
    case Cancel(kind, k) => CancelSound(s, kind, k);
    case CancelEvents(arg) =>
    case FetchOne(rounds) => FetchKeeps(s, rounds);
  }

  lemma AddConserves(s: State, job: Job)
    ensures Everything(s.(read := s.read + [job])) == Everything(s) + multiset{job}
    ensures Everything(s.(write := s.write + [job])) == Everything(s) + multiset{job}
    ensures Everything(s.(event := s.event + [job])) == Everything(s) + multiset{job}
  {
  }

  lemma TimerConserves(s: State, job: Job)
    requires Sound(s) && job.u.Until?
    ensures Everything(s.(timer := Inserted(s.timer, job))) == Everything(s) + multiset{job}
  {
    hide FdsOf, SortedTimers, Inserted;
    var k := PlaceFor(s.timer, job);
    assert s.timer == s.timer[..k] + s.timer[k..];
  }

  lemma CancelEventsConserves(s: State, arg: int)
    ensures Everything(s) == Everything(s.(event := NotFor(s.event, arg))) + multiset(For(s.event, arg))
  {
    hide For, NotFor;
    ForSplits(s.event, arg);
  }

  lemma SetsAside(s: State, t: State)
    requires s.read == t.read && s.write == t.write && s.timer == t.timer && s.event == t.event && s.ready == t.ready
    ensures Everything(s) == Everything(t)
  {
  }

  lemma FetchConserves(s: State, rounds: seq<Round>)
    requires Sound(s)
    ensures var e := Apply(s, FetchOne(rounds)); Everything(s) == Everything(e.state) + Gift(e.given)
  {
    hide Fetch, Everything, Sound;
    FetchKeeps(s, rounds);
    assert Gift(Apply(s, FetchOne(rounds)).given) == Given(Fetch(s, rounds).1);
  }

  /** What one effect adds, cancels and gives, in balance. */
  lemma Balance(s: State, e: Effect, added: multiset<Job>, cancelled: multiset<Job>, given: multiset<Job>)
    requires e.added == added && e.cancelled == cancelled && Gift(e.given) == given
    requires Everything(s) + added == Everything(e.state) + (cancelled + given)
    ensures Everything(s) + e.added == Everything(e.state) + e.cancelled + Gift(e.given)
  {
    hide Everything, Gift;
  }

  ghost predicate Balanced(s: State, e: Effect) {
    Everything(s) + e.added == Everything(e.state) + e.cancelled + Gift(e.given)
  }

  lemma AddFdConserves(s: State, op: Op)
    requires (op.AddRead? || op.AddWrite?) && Fits(s, op)
    ensures Balanced(s, Apply(s, op))
  {
    hide Everything, Gift;
    GiftNone();
    var e := Apply(s, op);
    match op
    case AddRead(job) => {
      AddConserves(s, job);
      SetsAside(s.(read := s.read + [job]), s.(read := s.read + [job], readfd := s.readfd + {job.u.fd}));
    }
    case AddWrite(job) => {
      AddConserves(s, job);
      SetsAside(s.(write := s.write + [job]), s.(write := s.write + [job], writefd := s.writefd + {job.u.fd}));
    }
    Balance(s, e, e.added, multiset{}, multiset{});
  }

  lemma AddConserved(s: State, op: Op)
    requires (op.AddTimer? || op.AddEvent?) && Sound(s) && Fits(s, op)
    ensures Balanced(s, Apply(s, op))
  {
    hide Everything, Gift, Sound, Inserted;
    GiftNone();
    var e := Apply(s, op);
    match op
    case AddTimer(job) => TimerConserves(s, job);
    case AddEvent(job) => AddConserves(s, job);
    Balance(s, e, e.added, multiset{}, multiset{});
  }

  lemma CancelConserved(s: State, op: Op)
    requires (op.Cancel? || op.CancelEvents?) && Fits(s, op)
    ensures Balanced(s, Apply(s, op))
  {
    hide Everything, Gift, Cancelled, NotFor, For;
    GiftNone();
    var e := Apply(s, op);
    match op
    case Cancel(kind, k) => CancelConserves(s, kind, k);
    case CancelEvents(arg) => CancelEventsConserves(s, arg);
    Balance(s, e, multiset{}, e.cancelled, multiset{});
  }

  lemma ApplyConserves(s: State, op: Op)
    requires Sound(s) && Fits(s, op)
    ensures Balanced(s, Apply(s, op))
  {
    hide Everything, Gift, Fits, Sound, Fetch, Balanced;
    match op
    case AddRead(job) => AddFdConserves(s, op);
    case AddWrite(job) => AddFdConserves(s, op);
    case AddTimer(job) => AddConserved(s, op);
    case AddEvent(job) => AddConserved(s, op);
    case Cancel(kind, k) => CancelConserved(s, op);
    case CancelEvents(arg) => CancelConserved(s, op);
    case FetchOne(rounds) => {
      FetchConserves(s, rounds);
      var e := Apply(s, op);
      Balance(s, e, multiset{}, multiset{}, Gift(e.given));
      IsBalanced(s, e);
    }
  }

  lemma IsBalanced(s: State, e: Effect)
    requires Everything(s) + e.added == Everything(e.state) + e.cancelled + Gift(e.given)
    ensures Balanced(s, e)
  {
  }

  lemma {:induction false} GiftSum(a: seq<(Kind, Job)>, b: seq<(Kind, Job)>)
    ensures Gift(a + b) == Gift(a) + Gift(b)
  {
    if a == [] {
      assert a + b == b;
    } else {
      assert (a + b)[1..] == a[1..] + b;
      GiftSum(a[1..], b);
    }
  }

  /** Over any run of additions, cancellations and fetches: the descriptor sets stay exact, the timers sorted, and
      what came in is on the lists, cancelled or given, each as often as it came. */
  lemma {:induction false} RunKeeps(s: State, ops: seq<Op>)
    requires Sound(s) && AllFit(s, ops)
    ensures var e := Run(s, ops);
            Sound(e.state) && Everything(s) + e.added == Everything(e.state) + e.cancelled + Gift(e.given)
    decreases |ops|
  {
    hide FdsOf, SortedTimers, Everything, Apply, Gift, Fits;
    if ops == [] {
      assert Gift([]) == multiset{} by { GiftNone(); }
    } else {
      ApplySound(s, ops[0]);
      ApplyConserves(s, ops[0]);
      var first := Apply(s, ops[0]);
      RunKeeps(first.state, ops[1..]);
      var rest := Run(first.state, ops[1..]);
      GiftSum(first.given, rest.given);
      InTurn(Everything(s), Everything(first.state), Everything(rest.state), first, rest);
    }
  }

  lemma InTurn(before: multiset<Job>, between: multiset<Job>, after: multiset<Job>, e: Effect, f: Effect)
    requires before + e.added == between + e.cancelled + Gift(e.given)
    requires between + f.added == after + f.cancelled + Gift(f.given)
    ensures before + (e.added + f.added) == after + (e.cancelled + f.cancelled) + (Gift(e.given) + Gift(f.given))
  {
    hide Gift;
    var given := Gift(e.given) + Gift(f.given);
    forall job: Job
      ensures (before + (e.added + f.added))[job] == (after + (e.cancelled + f.cancelled) + given)[job]
    {
      assert (before + e.added)[job] == (between + e.cancelled + Gift(e.given))[job];
      assert (between + f.added)[job] == (after + f.cancelled + Gift(f.given))[job];
    }
  }

  lemma GiftNone()
    ensures Gift([]) == multiset{}
  {
  }

  // ---------- Events leave in the order in which they came ----------

  predicate Ascending(jobs: seq<Job>, top: int) {
    && (forall i :: 0 <= i < |jobs| ==> jobs[i].u.Value? && jobs[i].u.val < top)
    && (forall i, j :: 0 <= i < j < |jobs| ==> jobs[i].u.val < jobs[j].u.val)
  }

  /** Events are added with ever larger values, from top on. */
  predicate Numbered(ops: seq<Op>, top: int) {
    if ops == [] then true
    else if ops[0].AddEvent? then
      ops[0].ejob.u.Value? && ops[0].ejob.u.val >= top && Numbered(ops[1..], ops[0].ejob.u.val + 1)
    else Numbered(ops[1..], top)
  }

  function Events(given: seq<(Kind, Job)>): seq<Job> {
    if given == [] then []
    else (if given[0].0 == Event then [given[0].1] else []) + Events(given[1..])
  }

  lemma AscendingLess(done: seq<Job>, jobs: seq<Job>, k: nat, top: int)
    requires Ascending(done + jobs, top) && k < |jobs|
    ensures Ascending(done + Without(jobs, k), top)
  {
    var less, full := done + Without(jobs, k), done + jobs;
    forall i | 0 <= i < |less| ensures less[i] == full[if i < |done| + k then i else i + 1] { }
  }

  lemma {:induction false} AscendingNotFor(done: seq<Job>, jobs: seq<Job>, arg: int, top: int)
    requires Ascending(done + jobs, top)
    ensures Ascending(done + NotFor(jobs, arg), top)
    decreases |jobs|
  {
    if jobs != [] {
      var n := |jobs| - 1;
      var front, full := done + jobs[..n], done + jobs;
      assert front == full[..|done| + n];
      assert full[|done| + n] == jobs[n];
      var val := jobs[n].u.val;
      forall i | 0 <= i < |front|
        ensures front[i].u.Value? && front[i].u.val < val
      {
        assert full[i].u.val < full[|done| + n].u.val;
      }
      AscendingNotFor(done, jobs[..n], arg, val);
      assert val < top by { assert full[|done| + n].u.val < top; }
      assert jobs[n].arg == arg ==> NotFor(jobs, arg) == NotFor(jobs[..n], arg);
      AscendingMore(done + NotFor(jobs[..n], arg), jobs[n], top);
      if jobs[n].arg != arg { assert done + NotFor(jobs, arg) == done + NotFor(jobs[..n], arg) + [jobs[n]]; }
    }
  }

  lemma AscendingMore(jobs: seq<Job>, job: Job, top: int)
    requires job.u.Value? && job.u.val < top && Ascending(jobs, job.u.val)
    ensures Ascending(jobs, top) && Ascending(jobs + [job], top)
  {
  }

  /** A fetch takes the first pending event, or leaves the pending events alone. */
  lemma FetchEvents(s: State, rounds: seq<Round>)
    ensures var (t, outcome) := Fetch(s, rounds);
            (if outcome.Ran? && outcome.kind == Event then [outcome.job] else []) + t.event == s.event
    decreases |rounds|
  {
    if rounds != [] {
      var (t, outcome) := Turn(s, rounds[0]);
      if outcome.StillWaiting? { FetchEvents(t, rounds[1..]); }
    }
  }

  /** What a call does to the pending events. */
  lemma EventsAfter(s: State, op: Op)
    requires Fits(s, op)
    ensures var e := Apply(s, op);
            match op
            case AddEvent(job) => Events(e.given) == [] && e.state.event == s.event + [job]
            case Cancel(kind, k) =>
              Events(e.given) == [] && e.state.event == if kind == Event then Without(s.event, k) else s.event
            case CancelEvents(arg) => Events(e.given) == [] && e.state.event == NotFor(s.event, arg)
            case _ => Events(e.given) + e.state.event == s.event
  {
    hide NotFor, Fetch, Inserted, For, Without;
    if op.FetchOne? { FetchEvents(s, op.rounds); }
  }

  lemma ApplyEvents(s: State, op: Op, done: seq<Job>, top: int) returns (next: int)
    requires Fits(s, op) && Ascending(done + s.event, top)
    requires op.AddEvent? ==> op.ejob.u.val >= top
    ensures next == if op.AddEvent? then op.ejob.u.val + 1 else top
    ensures var e := Apply(s, op); Ascending(done + Events(e.given) + e.state.event, next)
  {
    hide Apply, Events, NotFor, Without;
    EventsAfter(s, op);
    next := if op.AddEvent? then op.ejob.u.val + 1 else top;
    var e := Apply(s, op);
    assert done + Events(e.given) + e.state.event == done + (Events(e.given) + e.state.event);
    if op.AddEvent? || op.Cancel? || op.CancelEvents? { assert Events(e.given) + e.state.event == e.state.event; }
    if op.AddEvent? {
      assert done + (s.event + [op.ejob]) == done + s.event + [op.ejob];
    } else if op.Cancel? && op.kind == Event {
      AscendingLess(done, s.event, op.k, top);
    } else if op.CancelEvents? {
      AscendingNotFor(done, s.event, op.arg, top);
    }
  }

  lemma {:induction false} EventsSum(a: seq<(Kind, Job)>, b: seq<(Kind, Job)>)
    ensures Events(a + b) == Events(a) + Events(b)
  {
    if a == [] {
      assert a + b == b;
    } else {
      assert (a + b)[1..] == a[1..] + b && (a + b)[0] == a[0];
      EventsSum(a[1..], b);
      var first := if a[0].0 == Event then [a[0].1] else [];
      assert first + (Events(a[1..]) + Events(b)) == first + Events(a[1..]) + Events(b);
    }
  }

  /** Over any run whose events are numbered as they are added, the events that fetches give, followed by those
      still pending, are in that order, whatever is cancelled in between. */
  lemma {:induction false} EventsInOrder(s: State, ops: seq<Op>, done: seq<Job>, top: int) returns (last: int)
    requires AllFit(s, ops) && Ascending(done + s.event, top) && Numbered(ops, top)
    ensures var e := Run(s, ops); Ascending(done + Events(e.given) + e.state.event, last)
    decreases |ops|
  {
    hide Apply, Ascending, Fits;
    if ops == [] {
      assert done + Events(Run(s, ops).given) == done;
      last := top;
    } else {
      var next := ApplyEvents(s, ops[0], done, top);
      var first := Apply(s, ops[0]);
      last := EventsInOrder(first.state, ops[1..], done + Events(first.given), next);
      var rest := Run(first.state, ops[1..]);
      EventsSum(first.given, rest.given);
      assert done + Events(first.given + rest.given) == done + Events(first.given) + Events(rest.given);
    }
  }

  // ---------- Ready threads leave in the order in which they became ready ----------

  /** xs is ys with some left out. */
  ghost predicate Within(xs: seq<Job>, ys: seq<Job>)
    decreases |ys|
  {
    if xs == [] then true
    else ys != [] && ((xs[0] == ys[0] && Within(xs[1..], ys[1..])) || Within(xs, ys[1..]))
  }

  lemma {:induction false} WithinAll(xs: seq<Job>)
    ensures Within(xs, xs)
    decreases |xs|
  {
    if xs != [] { WithinAll(xs[1..]); }
  }

  lemma {:induction false} WithinConcat(a: seq<Job>, b: seq<Job>, c: seq<Job>, d: seq<Job>)
    requires Within(a, b) && Within(c, d)
    ensures Within(a + c, b + d)
    decreases |b|
  {
    if a == [] {
      assert a + c == c;
      WithinBehind(c, b, d);
    } else {
      assert (a + c)[0] == a[0] && (a + c)[1..] == a[1..] + c && (b + d)[0] == b[0] && (b + d)[1..] == b[1..] + d;
      if a[0] == b[0] && Within(a[1..], b[1..]) {
        WithinConcat(a[1..], b[1..], c, d);
      } else {
        WithinConcat(a, b[1..], c, d);
      }
    }
  }

  lemma {:induction false} WithinBehind(c: seq<Job>, b: seq<Job>, d: seq<Job>)
    requires Within(c, d)
    ensures Within(c, b + d)
    decreases |b|
  {
    if b == [] {
      assert b + d == d;
    } else {
      assert (b + d)[1..] == b[1..] + d;
      WithinBehind(c, b[1..], d);
    }
  }

  lemma {:induction false} WithinTrans(a: seq<Job>, b: seq<Job>, c: seq<Job>)
    requires Within(a, b) && Within(b, c)
    ensures Within(a, c)
    decreases |c|
  {
    if a != [] {
      if b[0] == c[0] && Within(b[1..], c[1..]) {
        if a[0] == b[0] && Within(a[1..], b[1..]) {
          WithinTrans(a[1..], b[1..], c[1..]);
        } else {
          WithinTrans(a, b[1..], c[1..]);
        }
      } else {
        WithinTrans(a, b, c[1..]);
      }
    }
  }

  lemma WithinOneLess(jobs: seq<Job>, k: nat)
    requires k < |jobs|
    ensures Within(Without(jobs, k), jobs)
  {
    WithinAll(jobs[..k]);
    WithinAll(jobs[k + 1..]);
    WithinBehind(jobs[k + 1..], [jobs[k]], jobs[k + 1..]);
    WithinConcat(jobs[..k], jobs[..k], jobs[k + 1..], [jobs[k]] + jobs[k + 1..]);
    assert jobs == jobs[..k] + ([jobs[k]] + jobs[k + 1..]);
  }

  function Readies(given: seq<(Kind, Job)>): seq<Job> {
    if given == [] then []
    else (if given[0].0 == Ready then [given[0].1] else []) + Readies(given[1..])
  }

  /** What becomes ready in one turn of the loop, in order: those that wait to read come first. */
  function JoiningNow(s: State, round: Round): seq<Job> {
    if s.event == [] && s.ready == [] && round.answer.Found?
       && (s.timer == [] || !s.timer[0].u.Until? || Compare(round.now, s.timer[0].u.sands) < 0)
    then On(s.read, round.answer.readable * s.readfd) + On(s.write, round.answer.writable * s.writefd)
    else []
  }

  /** What becomes ready during a fetch. */
  function Joining(s: State, rounds: seq<Round>): seq<Job>
    decreases |rounds|
  {
    if rounds == [] then []
    else
      var (t, outcome) := Turn(s, rounds[0]);
      JoiningNow(s, rounds[0]) + if outcome.StillWaiting? then Joining(t, rounds[1..]) else []
  }

  /** What becomes ready during a run. */
  ghost function Joins(s: State, ops: seq<Op>): seq<Job>
    requires AllFit(s, ops)
    decreases |ops|
  {
    if ops == [] then []
    else (if ops[0].FetchOne? then Joining(s, ops[0].rounds) else []) + Joins(Apply(s, ops[0]).state, ops[1..])
  }

  function FirstReady(outcome: Outcome): seq<Job> {
    if outcome.Ran? && outcome.kind == Ready then [outcome.job] else []
  }

  lemma TurnReady(s: State, round: Round)
    ensures var (t, outcome) := Turn(s, round); FirstReady(outcome) + t.ready == s.ready + JoiningNow(s, round)
  {
    hide On, Off;
    if s.event == [] && !Due(s, round.now) && s.ready == [] && round.answer.Found? {
      var r, w := round.answer.readable * s.readfd, round.answer.writable * s.writefd;
      assert [] + On(s.read, r) + On(s.write, w) == On(s.read, r) + On(s.write, w);
    }
  }

  /** A fetch takes the thread that has been ready longest, or leaves the ready threads alone. */
  lemma {:induction false} FetchReady(s: State, rounds: seq<Round>)
    ensures var (t, outcome) := Fetch(s, rounds); FirstReady(outcome) + t.ready == s.ready + Joining(s, rounds)
    decreases |rounds|
  {
    hide Turn, JoiningNow;
    if rounds != [] {
      TurnReady(s, rounds[0]);
      var (t, outcome) := Turn(s, rounds[0]);
      if outcome.StillWaiting? {
        FetchReady(t, rounds[1..]);
        Together(s.ready, JoiningNow(s, rounds[0]), Joining(t, rounds[1..]));
      }
    }
  }

  lemma ReadyAfterFetch(s: State, op: Op)
    requires op.FetchOne?
    ensures var e := Apply(s, op); Within(Readies(e.given) + e.state.ready, s.ready + Joining(s, op.rounds))
  {
    hide Fetch, Joining, Within;
    var (t, outcome) := Fetch(s, op.rounds);
    FetchReady(s, op.rounds);
    WithinAll(s.ready + Joining(s, op.rounds));
    assert Readies(Apply(s, op).given) == FirstReady(outcome);
  }

  lemma ReadyAfter(s: State, op: Op)
    requires Fits(s, op)
    ensures var e := Apply(s, op);
            Within(Readies(e.given) + e.state.ready, s.ready + if op.FetchOne? then Joining(s, op.rounds) else [])
  {
    hide NotFor, Fetch, Inserted, For, Without, Joining, Within;
    if op.FetchOne? {
      ReadyAfterFetch(s, op);
    } else {
      var e := Apply(s, op);
      WithinAll(s.ready);
      assert e.given == [] && Readies(e.given) + e.state.ready == e.state.ready && s.ready + [] == s.ready;
      if op.Cancel? && op.kind == Ready { WithinOneLess(s.ready, op.k); }
    }
  }

  lemma Together(a: seq<Job>, b: seq<Job>, c: seq<Job>)
    ensures a + (b + c) == a + b + c
  {
  }

  lemma InOrderInTurn(given: seq<Job>, between: seq<Job>, last: seq<Job>, later: seq<Job>, before: seq<Job>,
                      joined: seq<Job>)
    requires Within(given + between, before + joined) && Within(last, between + later)
    ensures Within(given + last, before + (joined + later))
  {
    hide Within;
    WithinAll(given);
    WithinConcat(given, given, last, between + later);
    WithinAll(later);
    WithinConcat(given + between, before + joined, later, later);
    Together(given, between, later);
    Together(before, joined, later);
    WithinTrans(given + last, given + between + later, before + joined + later);
  }

  lemma {:induction false} ReadiesSum(a: seq<(Kind, Job)>, b: seq<(Kind, Job)>)
    ensures Readies(a + b) == Readies(a) + Readies(b)
  {
    if a == [] {
      assert a + b == b;
    } else {
      assert (a + b)[1..] == a[1..] + b && (a + b)[0] == a[0];
      ReadiesSum(a[1..], b);
      var first := if a[0].0 == Ready then [a[0].1] else [];
      assert first + (Readies(a[1..]) + Readies(b)) == first + Readies(a[1..]) + Readies(b);
    }
  }

  /** Over any run, the ready threads that fetches give, followed by those still ready, are in the order in which they
      became ready, whatever is cancelled in between. */
  lemma {:induction false} ReadyInOrder(s: State, ops: seq<Op>)
    requires AllFit(s, ops)
    ensures var e := Run(s, ops); Within(Readies(e.given) + e.state.ready, s.ready + Joins(s, ops))
    decreases |ops|
  {
    hide Apply, Within, Fits, Joining, Readies;
    if ops == [] {
      WithinAll(s.ready);
      assert Readies([]) == [] by { NoReadies(); }
      assert [] + s.ready == s.ready && s.ready + [] == s.ready;
    } else {
      ReadyAfter(s, ops[0]);
      var first := Apply(s, ops[0]);
      ReadyInOrder(first.state, ops[1..]);
      var rest := Run(first.state, ops[1..]);
      var joined := if ops[0].FetchOne? then Joining(s, ops[0].rounds) else [];
      var later, given, last := Joins(first.state, ops[1..]), Readies(first.given),
        Readies(rest.given) + rest.state.ready;
      ReadiesSum(first.given, rest.given);
      InOrderInTurn(given, first.state.ready, last, later, s.ready, joined);
      assert given + last == given + Readies(rest.given) + rest.state.ready;
    }
  }

  lemma NoReadies()
    ensures Readies([]) == []
  {
  }
}
