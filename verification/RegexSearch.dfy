/** re_search_2 over one string: starts are tried in order, and a fastmap only saves work. */
module RegexSearch {
  import opened RegexTree
  import opened RegexCode
  import opened RegexPaths
  import opened RegexLayout
  import opened RegexMachine
  import opened RegexSoundness
  import opened RegexMatcher
  import opened RegexFirst
  import opened RegexItems
  import opened RegexFastmap

  /** Found(start) is the start of a match; Overflowed is the return of -2; Undecided is a call of the matcher that had
      not returned after the given number of rounds. */
  datatype Answer = Found(start: nat) | NotFound | Overflowed | Undecided

  /** What every call of the matcher during a search has in common: c0 is the code as compiled. */
  datatype Setting = Setting(g: Input, c0: seq<Byte>, limit: nat, nsub: nat, rounds: nat)

  function TryAt(t: Setting, start: nat): Outcome {
    Match(Job(t.g, t.c0, start, t.limit), t.nsub, t.rounds)
  }

  predicate MatchesAt(t: Setting, start: nat) {
    TryAt(t, start).Finished? && TryAt(t, start).n >= 0
  }

  /** The last start to try: `range' steps from startpos, kept within the text. */
  function LastStart(size: nat, startpos: int, range: int): int {
    var endpos := startpos + range;
    if endpos < 0 then 0 else if endpos > size then size else endpos
  }

  /** The starts to try are those of the text within range steps, forward or backward. */
  lemma StartsTried(size: nat, startpos: nat, range: int, k: nat)
    requires startpos <= size
    ensures Among(startpos, LastStart(size, startpos, range), k) <==>
      k <= size && (startpos <= k <= startpos + range || startpos + range <= k <= startpos)
  {
  }

  /** k is tried before m on the way from startpos. */
  predicate Before(startpos: int, k: int, m: int) {
    (startpos <= k < m) || (m < k <= startpos)
  }

  /** k is one of the starts from startpos to last. */
  predicate Among(startpos: int, last: int, k: int) {
    (startpos <= k <= last) || (last <= k <= startpos)
  }

  ghost predicate NoneBefore(t: Setting, startpos: int, start: int) {
    forall k: nat | Before(startpos, k, start) :: !MatchesAt(t, k)
  }

  ghost predicate NoneAmong(t: Setting, startpos: int, last: int) {
    forall k: nat | Among(startpos, last, k) :: !MatchesAt(t, k)
  }

  /** Every match starts with a character in the map. */
  ghost predicate Useful(syn: Syntax, r: Re, fast: Fastmap) {
    forall s :: InLanguage(syn, r, s) ==> s != [] && fast[s[0]]
  }

  /** A start the map rules out is no start of a match. */
  lemma RuledOut(t: Setting, r: Re, start: nat, fast: Fastmap)
    requires Pattern(t.c0, t.g.syn, r, t.nsub) && start <= |t.g.text| && Useful(t.g.syn, r, fast)
    requires start == |t.g.text| || !fast[t.g.text[start]]
    ensures !MatchesAt(t, start)
  {
    hide InLanguage, Match, Program, Sized, RegsWithin, PlainDotLines, AltsGrouped;
    MatchSound(Job(t.g, t.c0, start, t.limit), r, t.nsub, t.rounds);
  }

  lemma PatternParts(c0: seq<Byte>, syn: Syntax, r: Re, nsub: nat)
    requires Pattern(c0, syn, r, nsub)
    ensures Program(c0, r, syn) && Sized(r) && RegsWithin(r, nsub) && PlainDotLines(r) && |c0| < MAX_OFFSET_CODE
  {
  }

  /** One more start without a match, going toward last. */
  lemma OneMoreTried(t: Setting, startpos: int, last: int, start: int, next: int)
    requires NoneBefore(t, startpos, start) && start >= 0 && !MatchesAt(t, start) && Among(startpos, last, start)
    requires if last > start then next == start + 1 else next == start - 1
    ensures start == last ==> NoneAmong(t, startpos, last)
    ensures start != last ==> Among(startpos, last, next) && NoneBefore(t, startpos, next)
  {
    hide MatchesAt;
    forall k: nat | start == last && Among(startpos, last, k) ensures !MatchesAt(t, k) {
      if k != start { assert Before(startpos, k, start); }
    }
    forall k: nat | start != last && Before(startpos, k, next) ensures !MatchesAt(t, k) {
      if k != start { assert Before(startpos, k, start); }
    }
  }

  /** The loop of re_search_2. The answer does not depend on whether a fastmap is used: it is the first start, in the
      order tried, at which the matcher reports a match. */
  method Search(code: array<Byte>, startpos: int, range: int, fastmap: array?<bool>, room: nat, t: Setting, ghost r: Re)
    returns (a: Answer)
    requires Pattern(t.c0, t.g.syn, r, t.nsub) && Decided(t.c0, code[..], r)
    requires fastmap != null ==> fastmap.Length == 256
    modifies code, fastmap
    ensures Decided(t.c0, code[..], r)
    ensures startpos < 0 || startpos > |t.g.text| ==> a == NotFound
    ensures 0 <= startpos <= |t.g.text| ==>
      var last := LastStart(|t.g.text|, startpos, range);
      && (a.Found? ==> Among(startpos, last, a.start) && MatchesAt(t, a.start) && NoneBefore(t, startpos, a.start))
      && (a.NotFound? ==> NoneAmong(t, startpos, last))
      && (a.Overflowed? && fastmap == null ==> exists k: nat :: TryAt(t, k) == Finished(-2))
      && (a.Undecided? ==> exists k: nat :: TryAt(t, k).Running?)
  {
    hide Pattern, Decided, TryAt, InLanguage, Begins, NoneBefore, NoneAmong;
    if startpos < 0 || startpos > |t.g.text| { return NotFound; }
    var canBeNull := false;
    if fastmap != null {
      var ok;
      ok, canBeNull := CompileFastmap(code[..], t.g.syn, fastmap, room, t.c0, r, t.nsub);
      if !ok { return Overflowed; }
    }
    var left := range;
    if startpos + range < 0 {
      left := 0 - startpos;
    } else if startpos + range > |t.g.text| {
      left := |t.g.text| - startpos;
    }
    if fastmap != null && !canBeNull {
      a := SearchLoop(code, startpos, left, fastmap, t, r);
    } else {
      a := SearchLoop(code, startpos, left, null, t, r);
    }
  }

  /** The loop, over starts already known to lie in the text; the map is given only when it may be used. */
  method SearchLoop(code: array<Byte>, startpos: nat, range: int, fastmap: array?<bool>, t: Setting, ghost r: Re)
    returns (a: Answer)
    requires Pattern(t.c0, t.g.syn, r, t.nsub) && Decided(t.c0, code[..], r)
    requires startpos <= |t.g.text| && 0 <= startpos + range <= |t.g.text|
    requires fastmap != null ==> fastmap.Length == 256 && Useful(t.g.syn, r, fastmap[..])
    modifies code
    ensures Decided(t.c0, code[..], r)
    ensures var last := startpos + range;
      && (a.Found? ==> Among(startpos, last, a.start) && MatchesAt(t, a.start) && NoneBefore(t, startpos, a.start))
      && (a.NotFound? ==> NoneAmong(t, startpos, last))
      && (a.Overflowed? ==> exists k: nat :: TryAt(t, k) == Finished(-2))
      && (a.Undecided? ==> exists k: nat :: TryAt(t, k).Running?)
  {
    hide Pattern, Decided, TryAt, InLanguage, Begins, NoneBefore, NoneAmong, Useful;
    var start, left := startpos, range;
    ghost var last := startpos + range;
    NoneYet(t, startpos);
    while true
      invariant 0 <= start <= |t.g.text| && left == last - start && Among(startpos, last, start)
      invariant Decided(t.c0, code[..], r) && NoneBefore(t, startpos, start)
      decreases if left >= 0 then left else -left
    {
      var tryHere := true;
      if fastmap != null && start < |t.g.text| {
        if left > 0 {
          start, left := SkipForward(start, left, fastmap, t, r, startpos);
        } else if !fastmap[t.g.text[start]] {
          tryHere := false;
        }
      }
      if left >= 0 && start == |t.g.text| && fastmap != null {
        RuledOut(t, r, start, fastmap[..]);
        OneMoreTried(t, startpos, last, start, start - 1);
        return NotFound;
      }
      if tryHere {
        var o := Try(code, start, t, r);
        if o.Running? { return Undecided; }
        if o.n >= 0 { return Found(start); }
        if o.n == -2 { return Overflowed; }
      } else {
        RuledOut(t, r, start, fastmap[..]);
      }
      OneMoreTried(t, startpos, last, start, if left > 0 then start + 1 else start - 1);
      if left == 0 { break; }
      if left > 0 { left, start := left - 1, start + 1; } else { left, start := left + 1, start - 1; }
    }
    return NotFound;
  }

  lemma NoneYet(t: Setting, startpos: int)
    ensures NoneBefore(t, startpos, startpos)
  {
  }

  /** One call of the matcher. */
  method Try(code: array<Byte>, start: nat, t: Setting, ghost r: Re) returns (o: Outcome)
    requires Pattern(t.c0, t.g.syn, r, t.nsub) && Decided(t.c0, code[..], r) && start <= |t.g.text|
    modifies code
    ensures Decided(t.c0, code[..], r) && o == TryAt(t, start) && !o.Crashed?
    ensures o.Finished? && o.n < 0 && o.n != -2 ==> o.n == -1
    ensures MatchesAt(t, start) <==> o.Finished? && o.n >= 0
  {
    hide Pattern, Decided, Match;
    PatternParts(t.c0, t.g.syn, r, t.nsub);
    MatchSound(Job(t.g, t.c0, start, t.limit), r, t.nsub, t.rounds);
    o := ReMatch(code, t.g, start, t.limit, t.nsub, t.rounds, t.c0, r);
  }

  /** Going forward, characters the map does not list are passed over, up to the last start. */
  method SkipForward(from: nat, range: nat, fastmap: array<bool>, t: Setting, ghost r: Re, ghost startpos: nat)
    returns (start: nat, left: nat)
    requires fastmap.Length == 256 && Pattern(t.c0, t.g.syn, r, t.nsub) && Useful(t.g.syn, r, fastmap[..])
    requires startpos <= from && from + range <= |t.g.text| && NoneBefore(t, startpos, from)
    ensures from <= start && start + left == from + range && NoneBefore(t, startpos, start)
  {
    hide Pattern, MatchesAt, InLanguage, NoneBefore, NoneAmong;
    start, left := from, range;
    while left > 0 && !fastmap[t.g.text[start]]
      invariant from <= start && start + left == from + range && 0 <= left && NoneBefore(t, startpos, start)
      decreases left
    {
      RuledOut(t, r, start, fastmap[..]);
      OneMoreTried(t, startpos, from + range, start, start + 1);
      start, left := start + 1, left - 1;
    }
  }
}
