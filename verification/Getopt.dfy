/** public/cmd/getopt.c: options are taken one call at a time, and the argument list is permuted in place. */
module Getopts {
  import opened Arguments
  import opened Wrappers

  function Rotated<T>(s: seq<T>, k: nat): seq<T>
    requires k <= |s|
  {
    s[k..] + s[..k]
  }

  /** The bottom part is the shorter one: after it is exchanged with the far end, the rest is rotated as before. */
  lemma RotateLong<T>(b: seq<T>, t1: seq<T>, t2: seq<T>)
    requires |t2| == |b|
    ensures Rotated(b + t1 + t2, |b|) == Rotated(t2 + t1, |t2|) + b
  {
    assert (b + t1 + t2)[|b|..] == t1 + t2 && (b + t1 + t2)[..|b|] == b;
    assert (t2 + t1)[|t2|..] == t1 && (t2 + t1)[..|t2|] == t2;
  }

  lemma RotateShort<T>(b1: seq<T>, b2: seq<T>, t: seq<T>)
    requires |b1| == |t|
    ensures Rotated(b1 + b2 + t, |b1| + |b2|) == t + Rotated(b2 + b1, |b2|)
  {
    assert (b1 + b2 + t)[|b1| + |b2|..] == t && (b1 + b2 + t)[..|b1| + |b2|] == b1 + b2;
    assert (b2 + b1)[|b2|..] == b1 && (b2 + b1)[..|b2|] == b2;
  }

  /** Two equally long stretches of a sequence have changed places. */
  function Swapped<T>(s: seq<T>, i: nat, j: nat, len: nat): seq<T>
    requires i + len <= j && j + len <= |s|
  {
    s[..i] + s[j..j + len] + s[i + len..j] + s[i..i + len] + s[j + len..]
  }

  lemma SwappedParts<T>(s: seq<T>, i: nat, j: nat, len: nat)
    requires i + len <= j && j + len <= |s|
    ensures var t := Swapped(s, i, j, len);
            && |t| == |s| && t[..i] == s[..i] && t[i..i + len] == s[j..j + len] && t[i + len..j] == s[i + len..j]
            && t[j..j + len] == s[i..i + len] && t[j + len..] == s[j + len..]
  {
  }

  lemma Cut<T>(s: seq<T>, i: nat, j: nat, k: nat)
    requires i <= j <= k <= |s|
    ensures s[i..k] == s[i..j] + s[j..k]
  {
  }

  /** A slice of a common end is a common slice. */
  lemma SameEnds<T>(s: seq<T>, t: seq<T>, lo: nat, i: nat, j: nat, hi: nat)
    requires lo <= i <= j <= hi <= |s| == |t| && s[..i] == t[..i] && s[j..] == t[j..]
    ensures s[lo..i] == t[lo..i] && s[j..hi] == t[j..hi] && s[..lo] == t[..lo] && s[hi..] == t[hi..]
  {
    assert s[lo..i] == s[..i][lo..] && t[lo..i] == t[..i][lo..];
    assert s[j..hi] == s[j..][..hi - j] && t[j..hi] == t[j..][..hi - j];
    assert s[..lo] == s[..i][..lo] && t[..lo] == t[..i][..lo];
    assert s[hi..] == s[j..][hi - j..] && t[hi..] == t[j..][hi - j..];
  }

  /** One of the two inner loops of exchange. */
  method SwapStretches(argv: array<string>, i: nat, j: nat, len: nat)
    requires i + len <= j && j + len <= argv.Length
    modifies argv
    ensures argv[..] == Swapped(old(argv[..]), i, j, len)
  {
    ghost var was := argv[..];
    for k := 0 to len
      invariant argv[..] == Swapped(was, i, j, k)
    {
      argv[i + k], argv[j + k] := argv[j + k], argv[i + k];
      SwapOneMore(was, argv[..], i, j, k);
    }
  }

  lemma SwappedAt<T>(s: seq<T>, i: nat, j: nat, len: nat, m: nat)
    requires i + len <= j && j + len <= |s|
    ensures |Swapped(s, i, j, len)| == |s|
    ensures m < |s| ==>
      Swapped(s, i, j, len)[m]
      == s[if i <= m < i + len then m + (j - i) else if j <= m < j + len then m - (j - i) else m]
  {
  }

  lemma SwapOneMore<T>(s: seq<T>, t: seq<T>, i: nat, j: nat, k: nat)
    requires i + k + 1 <= j && j + k + 1 <= |s|
    requires t == Swapped(s, i, j, k)[i + k := Swapped(s, i, j, k)[j + k]][j + k := Swapped(s, i, j, k)[i + k]]
    ensures t == Swapped(s, i, j, k + 1)
  {
    hide Swapped;
    SwappedAt(s, i, j, k, i + k);
    SwappedAt(s, i, j, k, j + k);
    SwappedAt(s, i, j, k + 1, 0);
    forall m | 0 <= m < |s| ensures t[m] == Swapped(s, i, j, k + 1)[m] {
      SwappedAt(s, i, j, k, m);
      SwappedAt(s, i, j, k + 1, m);
    }
  }

  /** goal is what lies between lo and hi once the part from bottom to top is rotated about middle. */
  ghost predicate Turning<T(!new)>(s: seq<T>, lo: int, bottom: int, middle: int, top: int, hi: int, goal: seq<T>) {
    && 0 <= lo <= bottom <= middle <= top <= hi <= |s|
    && goal == s[lo..bottom] + Rotated(s[bottom..top], middle - bottom) + s[top..hi]
  }

  lemma TurnLong<T(!new)>(s: seq<T>, t: seq<T>, lo: int, bottom: int, middle: int, top: int, hi: int, goal: seq<T>)
    requires Turning(s, lo, bottom, middle, top, hi, goal) && top - middle > middle - bottom
    requires var len := middle - bottom; t == Swapped(s, bottom, top - len, len)
    ensures Turning(t, lo, bottom, middle, top - (middle - bottom), hi, goal) && t[..lo] == s[..lo]
            && t[hi..] == s[hi..]
  {
    hide Swapped, Rotated;
    var len := middle - bottom;
    var b, t1, t2 := s[bottom..middle], s[middle..top - len], s[top - len..top];
    SwappedParts(s, bottom, top - len, len);
    SameEnds(s, t, lo, bottom, top, hi);
    Cut(s, bottom, top - len, top);
    Cut(s, bottom, middle, top - len);
    Cut(t, bottom, middle, top - len);
    Cut(t, top - len, top, hi);
    RotateLong(b, t1, t2);
    assert goal == s[lo..bottom] + (Rotated(t2 + t1, |t2|) + b) + s[top..hi];
  }

  lemma TurnShort<T(!new)>(s: seq<T>, t: seq<T>, lo: int, bottom: int, middle: int, top: int, hi: int, goal: seq<T>)
    requires Turning(s, lo, bottom, middle, top, hi, goal) && top - middle <= middle - bottom
    requires t == Swapped(s, bottom, middle, top - middle)
    ensures Turning(t, lo, bottom + (top - middle), middle, top, hi, goal) && t[..lo] == s[..lo] && t[hi..] == s[hi..]
  {
    hide Swapped, Rotated;
    var len := top - middle;
    var b1, b2, u := s[bottom..bottom + len], s[bottom + len..middle], s[middle..top];
    SwappedParts(s, bottom, middle, len);
    SameEnds(s, t, lo, bottom, top, hi);
    Cut(s, bottom, middle, top);
    Cut(s, bottom, bottom + len, middle);
    Cut(t, lo, bottom, bottom + len);
    Cut(t, bottom + len, middle, top);
    RotateShort(b1, b2, u);
    assert goal == s[lo..bottom] + (u + Rotated(b2 + b1, |b2|)) + s[top..hi];
  }

  lemma Turned<T(!new)>(s: seq<T>, lo: int, bottom: int, middle: int, top: int, hi: int, goal: seq<T>)
    requires Turning(s, lo, bottom, middle, top, hi, goal) && (top == middle || middle == bottom)
    ensures s[lo..hi] == goal
  {
    var part := s[bottom..top];
    assert part[..|part|] == part && part[|part|..] == [] && part[..0] == [] && part[0..] == part;
    Cut(s, lo, bottom, top);
    Cut(s, lo, top, hi);
  }

  datatype Status = Ended | Ordinary(text: string) | Element

  class Getopt {
    const argv: array<string>
    const posixlyCorrect: bool
    var optind: int
    var initialized: bool
    var nextchar: Option<string>     // what is left of the option element in progress
    var ordering: Ordering
    var firstNonopt: int
    var lastNonopt: int

    constructor (argv: array<string>, posixlyCorrect: bool)
      ensures this.argv == argv && this.posixlyCorrect == posixlyCorrect
      ensures optind == 1 && !initialized && nextchar == None
    {
      this.argv, this.posixlyCorrect := argv, posixlyCorrect;
      optind, initialized, nextchar, ordering, firstNonopt, lastNonopt := 1, false, None, Permute, 0, 0;
    }

    predicate InElement()
      reads this
    {
      nextchar.Some? && nextchar.value != ""
    }

    predicate Valid()
      reads this, argv
    {
      && 0 <= firstNonopt <= lastNonopt <= optind <= argv.Length
      && (InElement() ==> optind < argv.Length)
      && (ordering != Permute ==> firstNonopt == lastNonopt)
    }

    /** The options so far, and whatever comes in front of them. */
    function Done(): seq<string>
      requires Valid()
      reads this, argv
    {
      argv[..firstNonopt] + argv[lastNonopt..optind]
    }

    function Skipped(): seq<string>
      requires Valid()
      reads this, argv
    {
      argv[firstNonopt..lastNonopt]
    }

    /** What the calls still to come are to return. */
    function Rest(rd: Reading): Parsed
      requires Valid()
      reads this, argv
    {
      if InElement() then Cluster(rd, argv[optind], nextchar.value, argv[optind + 1..])
      else Parse(rd, argv[optind..])
    }

    /** exchange. */
    method Exchange()
      requires 0 <= firstNonopt <= lastNonopt <= optind <= argv.Length
      modifies this`firstNonopt, this`lastNonopt, argv
      ensures lastNonopt == optind && firstNonopt == old(firstNonopt) + optind - old(lastNonopt)
      ensures argv[..firstNonopt] == old(argv[..firstNonopt]) + old(argv[lastNonopt..optind])
      ensures argv[firstNonopt..optind] == old(argv[firstNonopt..lastNonopt])
      ensures argv[optind..] == old(argv[optind..])
    {
      hide *;
      var bottom, middle, top := firstNonopt, lastNonopt, optind;
      ghost var lo, hi, was := bottom, top, argv[..];
      ghost var goal := Rotated(was[lo..hi], middle - lo);
      NotYetTurned(was, lo, middle, hi);
      while top > middle && middle > bottom
        invariant Turning(argv[..], lo, bottom, middle, top, hi, goal) && lo <= bottom <= middle <= top <= hi
        invariant argv[..lo] == was[..lo] && argv[hi..] == was[hi..]
        decreases top - bottom
        modifies argv
      {
        ghost var before := argv[..];
        if top - middle > middle - bottom {
          var len := middle - bottom;
          SwapStretches(argv, bottom, top - len, len);
          TurnLong(before, argv[..], lo, bottom, middle, top, hi, goal);
          top := top - len;
        } else {
          var len := top - middle;
          SwapStretches(argv, bottom, middle, len);
          TurnShort(before, argv[..], lo, bottom, middle, top, hi, goal);
          bottom := bottom + len;
        }
        assert argv[..lo] == argv[..][..lo] && argv[hi..] == argv[..][hi..];
      }
      Turned(argv[..], lo, bottom, middle, top, hi, goal);
      firstNonopt := firstNonopt + (optind - lastNonopt);
      ExchangedIs(argv[..], was, lo, lastNonopt, hi);
      lastNonopt := optind;
    }

    static lemma NotYetTurned(s: seq<string>, lo: int, middle: int, hi: int)
      requires 0 <= lo <= middle <= hi <= |s|
      ensures Turning(s, lo, lo, middle, hi, hi, Rotated(s[lo..hi], middle - lo))
    {
    }

    static lemma ExchangedIs(t: seq<string>, s: seq<string>, lo: int, middle: int, hi: int)
      requires 0 <= lo <= middle <= hi <= |s| == |t|
      requires t[lo..hi] == Rotated(s[lo..hi], middle - lo) && t[..lo] == s[..lo] && t[hi..] == s[hi..]
      ensures t[..lo + hi - middle] == s[..lo] + s[middle..hi] && t[lo + hi - middle..hi] == s[lo..middle]
    {
      var first := lo + hi - middle;
      var r := t[lo..hi];
      assert r == s[middle..hi] + s[lo..middle];
      assert t[..first] == t[..lo] + r[..first - lo] && t[first..hi] == r[first - lo..];
    }

    /** Options that were processed after some non-options go in front of them. */
    method Settle()
      requires 0 <= firstNonopt <= lastNonopt <= optind <= argv.Length
      modifies this`firstNonopt, this`lastNonopt, argv
      ensures 0 <= firstNonopt <= optind
      ensures argv[..firstNonopt] == old(argv[..firstNonopt]) + old(argv[lastNonopt..optind])
      ensures argv[firstNonopt..optind] == old(argv[firstNonopt..lastNonopt])
      ensures argv[optind..] == old(argv[optind..])
    {
      if firstNonopt != lastNonopt && lastNonopt != optind {
        Exchange();
      } else if lastNonopt != optind {
        firstNonopt := optind;
        assert argv[..optind] == old(argv[..firstNonopt]) + argv[lastNonopt..optind];
      }
    }

    /** The options found so far first; then the non-options, joined by those that follow. The remaining elements are
        what the calls to come have to look at. */
    method Permuted(ghost rd: Reading)
      requires Valid() && !InElement() && ordering == rd.order == Permute
      modifies this`optind, this`firstNonopt, this`lastNonopt, argv
      ensures Valid() && lastNonopt == optind && old(optind) <= optind
      ensures optind < argv.Length ==> !NonOption(argv[optind])
      ensures argv[..firstNonopt] == old(Done())
      ensures var was, p := old(Rest(rd)), Parse(rd, argv[optind..]);
              p.found == was.found && p.options == was.options && Skipped() + p.others == old(Skipped()) + was.others
    {
      hide Parse, NonOption;
      ghost var rest := argv[optind..];
      Settle();
      assert argv[optind..] == rest;
      ghost var from := optind;
      SkipNonOptions(rd);
      lastNonopt := optind;
      ghost var q := Parse(rd, argv[optind..]);
      Rejoined(argv[..], firstNonopt, from, optind, q.others);
    }

    static lemma Rejoined(s: seq<string>, first: int, from: int, last: int, rest: seq<string>)
      requires 0 <= first <= from <= last <= |s|
      ensures s[first..last] + rest == s[first..from] + (s[from..last] + rest)
    {
      assert s[first..last] == s[first..from] + s[from..last];
    }

    method SkipNonOptions(ghost rd: Reading)
      requires 0 <= optind <= argv.Length && rd.order == Permute
      modifies this`optind
      ensures old(optind) <= optind <= argv.Length && (optind < argv.Length ==> !NonOption(argv[optind]))
      ensures var p, q := old(Parse(rd, argv[optind..])), Parse(rd, argv[optind..]);
              p.found == q.found && p.options == q.options && p.others == argv[old(optind)..optind] + q.others
    {
      hide Parse, NonOption;
      ghost var from, rest := optind, argv[optind..];
      while optind < argv.Length && NonOption(argv[optind])
        invariant from <= optind <= argv.Length
        invariant var p, q := Parse(rd, rest), Parse(rd, argv[optind..]);
                  p.found == q.found && p.options == q.options && p.others == argv[from..optind] + q.others
      {
        SkipOne(rd, argv[optind..]);
        assert argv[optind..][1..] == argv[optind + 1..];
        assert argv[from..optind + 1] == argv[from..optind] + [argv[optind]];
        optind := optind + 1;
      }
    }

    static lemma SkipOne(rd: Reading, args: seq<string>)
      requires args != [] && NonOption(args[0]) && rd.order == Permute
      ensures var p, q := Parse(rd, args), Parse(rd, args[1..]);
              p.found == q.found && p.options == q.options && p.others == [args[0]] + q.others
    {
    }

    static lemma OneOf(s: seq<string>, k: nat)
      requires k < |s|
      ensures s[k..k + 1] == [s[k]]
    {
    }

    /** A `--' ends the options: it is treated as the last of them, and everything after it as non-options. */
    method DoubleDash()
      requires 0 <= firstNonopt <= lastNonopt <= optind < argv.Length && argv[optind] == "--"
      requires firstNonopt == lastNonopt || lastNonopt == optind
      modifies this`optind, this`firstNonopt, this`lastNonopt, argv
      ensures 0 <= firstNonopt <= lastNonopt == optind == argv.Length
      ensures argv[..firstNonopt] == old(argv[..firstNonopt]) + old(argv[lastNonopt..optind]) + ["--"]
      ensures argv[firstNonopt..] == old(argv[firstNonopt..lastNonopt]) + old(argv[optind + 1..])
      ensures old(firstNonopt == lastNonopt) ==> argv[..] == old(argv[..])
    {
      optind := optind + 1;
      if firstNonopt != lastNonopt && lastNonopt != optind {
        DashForward();
      } else if firstNonopt == lastNonopt {
        DashIn(argv[..], firstNonopt, optind - 1);
        firstNonopt := optind;
      }
      lastNonopt := argv.Length;
      optind := argv.Length;
    }

    /** The dashes change places with the non-options in front of them. */
    method DashForward()
      requires 0 <= firstNonopt < lastNonopt == optind - 1 < argv.Length && argv[optind - 1] == "--"
      modifies this`firstNonopt, this`lastNonopt, argv
      ensures 0 <= firstNonopt <= lastNonopt == optind
      ensures argv[..firstNonopt] == old(argv[..firstNonopt]) + ["--"]
      ensures argv[firstNonopt..] == old(argv[firstNonopt..lastNonopt]) + old(argv[optind..])
    {
      OneOf(argv[..], optind - 1);
      Exchange();
      Cut(argv[..], firstNonopt, optind, argv.Length);
      assert argv[firstNonopt..] == argv[firstNonopt..optind] + argv[optind..];
    }

    static lemma DashIn(s: seq<string>, first: nat, k: nat)
      requires first <= k < |s| && s[k] == "--"
      ensures s[..k + 1] == s[..first] + s[first..k] + ["--"]
    {
    }

    /** Where a run stands: p is what was found but not yet returned, and how all elements divide in the end. */
    predicate Stage(rd: Reading, p: Parsed)
      reads this, argv
    {
      Valid() && rd.order == ordering && p == After([], Done(), Skipped(), Rest(rd))
    }

    method PermutedStage(ghost rd: Reading, ghost p: Parsed)
      requires Stage(rd, p) && !InElement() && ordering == Permute
      modifies this`optind, this`firstNonopt, this`lastNonopt, argv
      ensures old(optind) <= optind && Stage(rd, p) && lastNonopt == optind
      ensures optind < argv.Length ==> !NonOption(argv[optind])
    {
      hide Parse, NonOption, Cluster;
      ghost var done, skipped, was := Done(), Skipped(), Rest(rd);
      Permuted(rd);
      assert Done() == done;
    }

    /** The caller may have moved optind back between two calls. */
    method FollowCaller()
      modifies this`firstNonopt, this`lastNonopt
      ensures lastNonopt == if optind < old(lastNonopt) then optind else old(lastNonopt)
      ensures firstNonopt == if optind < old(firstNonopt) then optind else old(firstNonopt)
    {
      if lastNonopt > optind { lastNonopt := optind; }
      if firstNonopt > optind { firstNonopt := optind; }
    }

    /** The run is over: the options come first, and optind is behind them. */
    predicate Finished(p: Parsed)
      reads this, argv
    {
      p.found == [] && argv[..] == p.options + p.others && optind == |p.options|
    }

    /** The first step of a call that has no element in progress. */
    method Advance(ghost rd: Reading, ghost p: Parsed) returns (status: Status)
      requires Stage(rd, p) && !InElement()
      modifies this`optind, this`firstNonopt, this`lastNonopt, this`nextchar, argv
      ensures status.Element? ==> old(optind) <= optind && InElement() && Stage(rd, p)
      ensures status.Ordinary? ==> old(optind) < optind && !InElement() && ordering == ReturnInOrder
      ensures status.Ordinary? ==>
        p.found != [] && p.found[0] == InPlace(status.text) && Stage(Later(rd), p.(found := p.found[1..]))
      ensures status.Ended? ==> Finished(p)
      ensures ordering != Permute ==> argv[..] == old(argv[..])
    {
      hide Stage, Cluster, Parse, Done, Skipped, Rest;
      OrderOf(rd, p);
      FollowCaller();
      if ordering == Permute {
        PermutedStage(rd, p);
      }
      AtElement(rd, p);
      if optind != argv.Length && argv[optind] == "--" {
        EndAtDash(p);
        return Ended;
      }
      if optind == argv.Length {
        if firstNonopt != lastNonopt { optind := firstNonopt; }
        return Ended;
      }
      if NonOption(argv[optind]) {
        if ordering == RequireOrder { return Ended; }
        status := Ordinary(argv[optind]);
        GiveInPlace(rd, p);
        return;
      }
      status := Element;
      EnterElement(rd, p);
    }

    method EndAtDash(ghost p: Parsed)
      requires Valid() && !InElement() && (lastNonopt == optind || firstNonopt == lastNonopt)
      requires optind < argv.Length && argv[optind] == "--"
      requires p.found == [] && p.options == Done() + ["--"] && p.others == Skipped() + argv[optind + 1..]
      modifies this`optind, this`firstNonopt, this`lastNonopt, argv
      ensures Finished(p) && (ordering != Permute ==> argv[..] == old(argv[..]))
    {
      hide Done, Skipped;
      ghost var done, skipped, rest := Done(), Skipped(), argv[optind + 1..];
      DoneIs();
      DoubleDash();
      AfterDash(p, done, skipped, rest);
      if firstNonopt != lastNonopt { optind := firstNonopt; }
    }

    method EnterElement(ghost rd: Reading, ghost p: Parsed)
      requires Valid() && !InElement() && optind < argv.Length && !NonOption(argv[optind]) && rd.order == ordering
      requires p == After([], Done(), Skipped(), Cluster(rd, argv[optind], argv[optind][1..], argv[optind + 1..]))
      modifies this`nextchar
      ensures InElement() && Stage(rd, p)
    {
      hide Stage, Cluster, Done, Skipped;
      DoneIs();
      nextchar := Some(argv[optind][1..]);
      DoneIs();
      Began(rd, p);
    }

    /** A non-option returned as it stands. */
    method GiveInPlace(ghost rd: Reading, ghost p: Parsed)
      requires Valid() && !InElement() && (lastNonopt == optind || firstNonopt == lastNonopt) && optind < argv.Length
      requires rd.order == ordering
      requires p == After([], Done(), Skipped(),
                          After([InPlace(argv[optind])], [argv[optind]], [], Parse(Later(rd), argv[optind + 1..])))
      modifies this`optind
      ensures optind == old(optind) + 1
      ensures p.found != [] && p.found[0] == InPlace(argv[old(optind)]) && Stage(Later(rd), p.(found := p.found[1..]))
    {
      hide Stage, Parse;
      ghost var from, done := optind, Done();
      optind := optind + 1;
      assert argv[from..optind] == [argv[from]];
      ghost var was := After([InPlace(argv[from])], [argv[from]], [], Parse(Later(rd), argv[optind..]));
      Moved(rd, p, done, was, from, InPlace(argv[from]));
    }

    lemma OrderOf(rd: Reading, p: Parsed)
      requires Stage(rd, p)
      ensures Valid() && ordering == rd.order
    {
    }

    lemma DoneIs()
      requires Valid()
      ensures Done() == argv[..firstNonopt] + argv[lastNonopt..optind] && Skipped() == argv[firstNonopt..lastNonopt]
    {
    }

    lemma AfterDash(p: Parsed, done: seq<string>, skipped: seq<string>, rest: seq<string>)
      requires 0 <= firstNonopt <= lastNonopt == argv.Length
      requires argv[..firstNonopt] == done + ["--"] && argv[firstNonopt..] == skipped + rest
      requires p.found == [] && p.options == done + ["--"] && p.others == skipped + rest
      ensures argv[..] == p.options + p.others && firstNonopt == |p.options|
    {
      assert argv[..] == argv[..firstNonopt] + argv[firstNonopt..];
    }

    /** What the stage says at the start of an element. */
    lemma AtElement(rd: Reading, p: Parsed)
      requires Stage(rd, p) && !InElement() && (lastNonopt == optind || firstNonopt == lastNonopt)
      requires ordering == Permute ==> optind < argv.Length ==> !NonOption(argv[optind])
      ensures Valid() && rd.order == ordering
      ensures if optind == argv.Length then
                p.found == [] && argv[..] == p.options + p.others
                && |p.options| == if firstNonopt == lastNonopt then optind else firstNonopt
              else if argv[optind] == "--" then
                p.found == [] && p.options == Done() + ["--"] && p.others == Skipped() + argv[optind + 1..]
              else if NonOption(argv[optind]) then
                if ordering == RequireOrder then Finished(p)
                else
                  p == After([], Done(), Skipped(),
                             After([InPlace(argv[optind])], [argv[optind]], [], Parse(Later(rd), argv[optind + 1..])))
              else
                p == After([], Done(), Skipped(), Cluster(rd, argv[optind], argv[optind][1..], argv[optind + 1..]))
    {
      hide Cluster;
      assert argv[optind..] != [] ==> argv[optind..][0] == argv[optind] && argv[optind..][1..] == argv[optind + 1..];
      if firstNonopt == lastNonopt {
        assert Done() == argv[..optind] && Skipped() == [];
      } else {
        assert argv[lastNonopt..optind] == [] && argv[..firstNonopt] + [] == argv[..firstNonopt];
      }
      assert argv[..] == argv[..firstNonopt] + argv[firstNonopt..];
      assert argv[..] == argv[..optind] + argv[optind..];
    }

    lemma Began(rd: Reading, p: Parsed)
      requires Valid() && InElement() && rd.order == ordering
      requires argv[optind] != "" && nextchar.value == argv[optind][1..]
      requires p == After([], Done(), Skipped(), Cluster(rd, argv[optind], argv[optind][1..], argv[optind + 1..]))
      ensures Stage(rd, p)
    {
      hide Cluster;
    }

    /** my_index: where a character is first found, or the length. */
    static method MyIndex(text: string, c: char) returns (k: nat)
      ensures k == IndexOf(text, c)
    {
      k := 0;
      while k < |text|
        invariant k <= |text| && IndexOf(text, c) == k + IndexOf(text[k..], c)
      {
        if text[k] == c { return; }
        assert text[k..][1..] == text[k + 1..];
        k := k + 1;
      }
    }

    /** What a character does to the rest: either its element goes on, or one or two elements are done with. */
    static lemma ClusterIs(rd: Reading, e: string, chars: string, rest: seq<string>)
      requires chars != ""
      ensures var c, tail, was := chars[0], chars[1..], Cluster(rd, e, chars, rest);
              match NeedOf(rd.now, c)
              case Unknown => was == Onward(rd, Found('?', None, Some(c)), e, tail, rest)
              case Flag => was == Onward(rd, Found(c, None, None), e, tail, rest)
              case Optional =>
                was == After([Found(c, if tail == "" then None else Some(tail), None)], [e], [], Parse(Later(rd), rest))
              case Required =>
                && (tail != "" ==> was == After([Found(c, Some(tail), None)], [e], [], Parse(Later(rd), rest)))
                && (tail == "" && rest == [] ==> was == After([Missing(rd.now, c)], [e], [], Parse(Later(rd), rest)))
                && (tail == "" && rest != [] ==>
                      was == After([Found(c, Some(rest[0]), None)], [e, rest[0]], [], Parse(Later(rd), rest[1..])))
    {
    }

    lemma Moved(rd: Reading, p: Parsed, done: seq<string>, was: Parsed, from: int, f: Found)
      requires Valid() && !InElement() && lastNonopt <= from <= optind && rd.order == ordering
      requires done == argv[..firstNonopt] + argv[lastNonopt..from]
      requires p == After([], done, Skipped(), was)
      requires was == After([f], argv[from..optind], [], Parse(Later(rd), argv[optind..]))
      ensures p.found != [] && p.found[0] == f && Stage(Later(rd), p.(found := p.found[1..]))
    {
      hide Parse, NonOption, Cluster;
      var q, taken := Parse(Later(rd), argv[optind..]), argv[from..optind];
      Joined(argv[..], lastNonopt, from, optind);
      Regroup(argv[..firstNonopt], argv[lastNonopt..from], taken, q.options);
      assert [] + was.options == taken + q.options && was.others == q.others;
    }

    static lemma Joined(s: seq<string>, i: int, j: int, k: int)
      requires 0 <= i <= j <= k <= |s|
      ensures s[i..k] == s[i..j] + s[j..k]
    {
    }

    static lemma Regroup<T>(a: seq<T>, b: seq<T>, c: seq<T>, d: seq<T>)
      ensures a + b + (c + d) == a + (b + c) + d
    {
    }

    lemma Stayed(rd: Reading, p: Parsed, was: Parsed, f: Found)
      requires Valid() && InElement() && rd.order == ordering
      requires p == After([], Done(), Skipped(), was) && was == After([f], [], [], Rest(Later(rd)))
      ensures p.found != [] && p.found[0] == f && Stage(Later(rd), p.(found := p.found[1..]))
    {
      hide Parse, Cluster;
    }

    /** The next character of the option element in progress. */
    method Decode(opts: string, ghost rd: Reading, ghost p: Parsed) returns (found: Found)
      requires InElement() && ShortOnly(opts) && opts == rd.now && Stage(rd, p)
      modifies this`optind, this`nextchar
      ensures Valid() && old(optind) <= optind
      ensures p.found != [] && found == p.found[0] && Stage(Later(rd), p.(found := p.found[1..]))
    {
      hide Parse, Cluster, NonOption, IndexOf;
      ghost var from, done, rest, was := optind, Done(), argv[optind + 1..], Rest(rd);
      ClusterIs(rd, argv[from], nextchar.value, rest);
      var c := nextchar.value[0];
      nextchar := Some(nextchar.value[1..]);
      var temp := MyIndex(opts, c);
      if nextchar.value == "" { optind := optind + 1; }
      found := Found('?', None, Some(c));
      if temp != |opts| && c != ':' {
        found := Found(c, None, None);
        if CharAt(opts, temp + 1, ':') {
          found := Argument(opts, c, CharAt(opts, temp + 2, ':'), from);
          nextchar := None;
        }
      }
      if InElement() {
        Stayed(rd, p, was, found);
      } else {
        assert argv[from..optind] == if optind == from + 1 then [argv[from]] else [argv[from], rest[0]];
        Moved(rd, p, done, was, from, found);
      }
    }

    /** An option whose argument is the rest of its element or, when it must have one, the next element. */
    method Argument(opts: string, c: char, optional: bool, ghost from: int) returns (found: Found)
      requires 0 <= from < argv.Length && nextchar.Some? && optind == if nextchar.value == "" then from + 1 else from
      modifies this`optind
      ensures optional ==>
        found == Found(c, if nextchar.value == "" then None else nextchar, None) && optind == from + 1
      ensures !optional && nextchar.value != "" ==> found == Found(c, nextchar, None) && optind == from + 1
      ensures !optional && nextchar.value == "" && from + 1 == argv.Length ==>
        found == Missing(opts, c) && optind == from + 1
      ensures !optional && nextchar.value == "" && from + 1 < argv.Length ==>
        found == Found(c, Some(argv[from + 1]), None) && optind == from + 2
    {
      found := Found(c, None, None);
      if nextchar.value != "" {
        found := Found(c, nextchar, None);
        optind := optind + 1;
      } else if optional {
      } else if optind == argv.Length {
        found := Missing(opts, c);
      } else {
        found := Found(c, Some(argv[optind]), None);
        optind := optind + 1;
      }
    }

    /** _getopt_initialize: the option string without its ordering mark. */
    method Initialize(optstring: string) returns (opts: string)
      modifies this`firstNonopt, this`lastNonopt, this`nextchar, this`ordering
      ensures firstNonopt == lastNonopt == optind && nextchar == None
      ensures ordering == OrderingOf(optstring, posixlyCorrect)
      ensures opts == Unmarked(optstring)
    {
      firstNonopt, lastNonopt, nextchar, opts := optind, optind, None, optstring;
      if CharAt(optstring, 0, '-') {
        ordering, opts := ReturnInOrder, optstring[1..];
      } else if CharAt(optstring, 0, '+') {
        ordering, opts := RequireOrder, optstring[1..];
      } else if posixlyCorrect {
        ordering := RequireOrder;
      } else {
        ordering := Permute;
      }
    }

    static function OrderingOf(optstring: string, posixlyCorrect: bool): Ordering {
      if CharAt(optstring, 0, '-') then ReturnInOrder
      else if CharAt(optstring, 0, '+') || posixlyCorrect then RequireOrder
      else Permute
    }

    /** A call of getopt; None stands for -1. The first call reads the option string without its ordering mark, and the
        calls after it read all of it. */
    method Next(optstring: string, ghost p: Parsed) returns (r: Option<Found>)
      requires ShortOnly(optstring) && 0 <= optind <= argv.Length && argv.Length > 0
      requires optstring != "" ==> ShortOnly(optstring[1..])
      requires initialized && optind != 0 ==> Stage(Reading(ordering, optstring, optstring), p)
      requires !initialized || optind == 0 ==>
        var start := if optind == 0 then 1 else optind;
        p == After([], argv[..start], [], Parse(AsCalled(OrderingOf(optstring, posixlyCorrect), optstring),
          argv[start..]))
      modifies this, argv
      ensures initialized
      ensures ordering == if old(initialized && optind != 0) then old(ordering)
              else OrderingOf(optstring, posixlyCorrect)
      ensures r.Some? ==> Valid() && 0 < optind <= argv.Length && p.found != [] && r.value == p.found[0]
      ensures r.Some? ==> Stage(Reading(ordering, optstring, optstring), p.(found := p.found[1..]))
      ensures r.None? ==> Finished(p)
      ensures ordering != Permute ==> argv[..] == old(argv[..])
    {
      hide Parse, Cluster, ShortOnly, Finished, Done, Skipped;
      var opts := optstring;
      ghost var rd := Reading(ordering, optstring, optstring);
      if optind == 0 || !initialized {
        if optind == 0 { optind := 1; }
        opts := Initialize(optstring);
        initialized := true;
        rd := AsCalled(ordering, optstring);
        Starts(rd, p);
      }
      if nextchar.None? || nextchar.value == "" {
        var status := Advance(rd, p);
        match status
        case Ended => return None;
        case Ordinary(text) => return Some(InPlace(text));
        case Element =>
      }
      var found := Decode(opts, rd, p);
      r := Some(found);
    }

    lemma Starts(rd: Reading, p: Parsed)
      requires 0 <= firstNonopt == lastNonopt == optind <= argv.Length && nextchar == None && rd.order == ordering
      requires p == After([], argv[..optind], [], Parse(rd, argv[optind..]))
      ensures Stage(rd, p)
    {
      hide Parse;
      assert argv[optind..optind] == [] && argv[..optind] + [] == argv[..optind];
    }
  }

  /** A whole run: getopt is called until it gives -1. What it returned, call by call, is what the original list says
      in its own order; the list now holds the program name, the options with their arguments and a `--', and then the
      rest, each in the original order; optind is the first of the rest. */
  method Run(argv: array<string>, optstring: string, posixlyCorrect: bool) returns (found: seq<Found>, optind: int)
    requires argv.Length > 0 && ShortOnly(optstring) && (optstring != "" ==> ShortOnly(optstring[1..]))
    modifies argv
    ensures var order := Getopt.OrderingOf(optstring, posixlyCorrect);
            var p := Parse(AsCalled(order, optstring), old(argv[1..]));
            && found == p.found && argv[..] == old(argv[..1]) + p.options + p.others && optind == 1 + |p.options|
            && (Harmless(optstring) ==> p == Parse(AsMeant(order, optstring), old(argv[1..])))
            && (order != Permute ==> argv[..] == old(argv[..]))
    ensures "-" <= optstring ==>
      && argv[..] == old(argv[..]) && ReturnedFirst(argv[1..], found)
      && ("--" !in argv[1..] ==> argv[optind..] == [])
    ensures "+" <= optstring || (posixlyCorrect && !("-" <= optstring)) ==>
      && argv[..] == old(argv[..])
      && (argv.Length > 1 && NonOption(argv[1]) ==> found == [] && optind == 1)
      && ("--" !in argv[1..] && optind < argv.Length ==> NonOption(argv[optind]))
    ensures !("-" <= optstring) && !("+" <= optstring) && !posixlyCorrect ==>
      && LeftFirst(old(argv[1..]), argv[optind..])
      && ("--" !in old(argv[1..]) ==> forall e :: e in argv[optind..] ==> NonOption(e))
  {
    hide Parse, ShortOnly, Getopt.Valid, Getopt.Stage, Harmless, ReturnedFirst, LeftFirst;
    var g := new Getopt(argv, posixlyCorrect);
    ghost var order, start := Getopt.OrderingOf(optstring, posixlyCorrect), argv[..];
    ghost var q := Parse(AsCalled(order, optstring), argv[1..]);
    MarkHarmless(order, optstring);
    ghost var was := After([], argv[..1], [], q);
    assert was.found == q.found && was.options == argv[..1] + q.options && was.others == q.others;
    ghost var p := was;
    found := [];
    var r := g.Next(optstring, p);
    while r.Some?
      invariant g.initialized && g.ordering == order && (order != Permute ==> argv[..] == start)
      invariant r.Some? ==> g.Valid() && 0 < g.optind <= argv.Length && p.found != [] && r.value == p.found[0]
      invariant r.Some? ==> g.Stage(Reading(order, optstring, optstring), p.(found := p.found[1..]))
      invariant r.None? ==> g.Finished(p)
      invariant found + p.found == q.found && p.options == was.options && p.others == was.others
      decreases |p.found|, r.Some?
    {
      OneMore(found, p.found);
      found := found + [r.value];
      p := p.(found := p.found[1..]);
      r := g.Next(optstring, p);
    }
    optind := g.optind;
    OrderingSays(AsCalled(order, optstring), start[1..]);
    assert argv[optind..] == q.others && start[1..] == old(argv[1..]);
    if order != Permute { assert argv[1..] == old(argv[1..]); }
  }

  lemma OneMore(done: seq<Found>, rest: seq<Found>)
    requires rest != []
    ensures done + rest == done + [rest[0]] + rest[1..]
  {
  }
}
