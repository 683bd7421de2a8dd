/** What public/cmd/getopt.c makes of an argument list: the options with their arguments, and the rest. */
module Arguments {
  import opened Wrappers

  /** One return of getopt: its value, optarg, and optopt when the value reports an error. */
  datatype Found = Found(value: char, arg: Option<string>, bad: Option<char>)

  datatype Need = Unknown | Flag | Required | Optional

  /** Not an option: it does not start with a dash, or is a dash alone. */
  predicate NonOption(e: string) {
    |e| == 0 || e[0] != '-' || |e| == 1
  }

  function IndexOf(s: string, c: char): (k: nat)
    ensures k <= |s| && (k < |s| ==> s[k] == c) && forall j :: 0 <= j < k ==> s[j] != c
  {
    if s == "" || s[0] == c then 0 else 1 + IndexOf(s[1..], c)
  }

  predicate CharAt(s: string, k: nat, c: char) {
    k < |s| && s[k] == c
  }

  /** What the option string says of a character. */
  function NeedOf(opts: string, c: char): Need {
    var k := IndexOf(opts, c);
    if k == |opts| || c == ':' then Unknown
    else if !CharAt(opts, k + 1, ':') then Flag
    else if CharAt(opts, k + 2, ':') then Optional
    else Required
  }

  /** A -W option with a semicolon asks for long options, which getopt does not have. */
  predicate ShortOnly(opts: string) {
    !('W' in opts && CharAt(opts, IndexOf(opts, 'W') + 1, ';'))
  }

  datatype Ordering = RequireOrder | Permute | ReturnInOrder

  /** How the next call reads the list, and by which option string the calls after it do. */
  datatype Reading = Reading(order: Ordering, now: string, later: string)

  function Later(rd: Reading): Reading { rd.(now := rd.later) }

  /** What all calls together return, and how the elements divide. */
  datatype Parsed = Parsed(found: seq<Found>, options: seq<string>, others: seq<string>)

  function After(first: seq<Found>, options: seq<string>, others: seq<string>, rest: Parsed): Parsed {
    Parsed(first + rest.found, options + rest.options, others + rest.others)
  }

  function Missing(opts: string, c: char): Found {
    Found(if CharAt(opts, 0, ':') then ':' else '?', None, Some(c))
  }

  /** An argument that is returned in its place. */
  function InPlace(e: string): Found { Found('\U{1}', Some(e), None) }

  /** The whole list, in its original order. */
  function Parse(rd: Reading, args: seq<string>): Parsed
    decreases |args|, 0
  {
    if args == [] then Parsed([], [], [])
    else if args[0] == "--" then Parsed([], ["--"], args[1..])
    else if NonOption(args[0]) then
      match rd.order
      case Permute => After([], [], [args[0]], Parse(rd, args[1..]))
      case RequireOrder => Parsed([], [], args)
      case ReturnInOrder => After([InPlace(args[0])], [args[0]], [], Parse(Later(rd), args[1..]))
    else Cluster(rd, args[0], args[0][1..], args[1..])
  }

  /** An option element of which some characters are still to come. */
  function Cluster(rd: Reading, e: string, chars: string, rest: seq<string>): Parsed
    requires chars != ""
    decreases |rest|, |chars|
  {
    var c, tail := chars[0], chars[1..];
    match NeedOf(rd.now, c)
    case Unknown => Onward(rd, Found('?', None, Some(c)), e, tail, rest)
    case Flag => Onward(rd, Found(c, None, None), e, tail, rest)
    case Optional =>
      After([Found(c, if tail == "" then None else Some(tail), None)], [e], [], Parse(Later(rd), rest))
    case Required =>
      if tail != "" then After([Found(c, Some(tail), None)], [e], [], Parse(Later(rd), rest))
      else if rest == [] then After([Missing(rd.now, c)], [e], [], Parse(Later(rd), rest))
      else After([Found(c, Some(rest[0]), None)], [e, rest[0]], [], Parse(Later(rd), rest[1..]))
  }

  /** On to the next character, or to the next element after the last one. */
  function Onward(rd: Reading, found: Found, e: string, tail: string, rest: seq<string>): Parsed
    decreases |rest|, |tail| + 1, 0
  {
    if tail == "" then After([found], [e], [], Parse(Later(rd), rest))
    else After([found], [], [], Cluster(Later(rd), e, tail, rest))
  }

  // ---------- The division keeps both orders ----------

  /** z is x and y dealt together, each in its own order. */
  ghost predicate Interleaves<T(!new)>(z: seq<T>, x: seq<T>, y: seq<T>)
    decreases |z|
  {
    if z == [] then x == [] && y == []
    else
      || (x != [] && x[0] == z[0] && Interleaves(z[1..], x[1..], y))
      || (y != [] && y[0] == z[0] && Interleaves(z[1..], x, y[1..]))
  }

  lemma {:induction false} InterleavesPermutes<T(!new)>(z: seq<T>, x: seq<T>, y: seq<T>)
    requires Interleaves(z, x, y)
    ensures multiset(z) == multiset(x) + multiset(y) && |z| == |x| + |y|
    decreases |z|
  {
    if z != [] {
      assert z == [z[0]] + z[1..];
      if x != [] && x[0] == z[0] && Interleaves(z[1..], x[1..], y) {
        assert x == [x[0]] + x[1..];
        InterleavesPermutes(z[1..], x[1..], y);
      } else {
        assert y == [y[0]] + y[1..];
        InterleavesPermutes(z[1..], x, y[1..]);
      }
    }
  }

  lemma AllSecond<T(!new)>(y: seq<T>)
    ensures Interleaves(y, [], y)
  {
    if y != [] { AllSecond(y[1..]); }
  }

  lemma OneFirst<T(!new)>(e: T, z: seq<T>, x: seq<T>, y: seq<T>)
    requires Interleaves(z, x, y)
    ensures Interleaves([e] + z, [e] + x, y) && Interleaves([e] + z, x, [e] + y)
  {
    assert ([e] + z)[1..] == z && ([e] + x)[1..] == x && ([e] + y)[1..] == y;
  }

  /** The options, their arguments and a `--' on one side, the other arguments on the other. */
  lemma {:induction false} ParseInterleaves(rd: Reading, args: seq<string>)
    ensures var p := Parse(rd, args); Interleaves(args, p.options, p.others)
    decreases |args|, 0
  {
    if args != [] {
      assert args == [args[0]] + args[1..];
      if args[0] == "--" {
        AllSecond(args[1..]);
        OneFirst("--", args[1..], [], args[1..]);
      } else if NonOption(args[0]) {
        var next := if rd.order == ReturnInOrder then Later(rd) else rd;
        ParseInterleaves(next, args[1..]);
        var p := Parse(next, args[1..]);
        OneFirst(args[0], args[1..], p.options, p.others);
        assert [] + p.options == p.options && [] + p.others == p.others;
        AllSecond(args);
      } else {
        ClusterInterleaves(rd, args[0], args[0][1..], args[1..]);
      }
    }
  }

  lemma {:induction false} ClusterInterleaves(rd: Reading, e: string, chars: string, rest: seq<string>)
    requires chars != ""
    ensures var p := Cluster(rd, e, chars, rest); Interleaves([e] + rest, p.options, p.others)
    decreases |rest|, |chars|
  {
    var c, tail := chars[0], chars[1..];
    var p := Parse(Later(rd), rest);
    ParseInterleaves(Later(rd), rest);
    OneFirst(e, rest, p.options, p.others);
    assert [] + p.others == p.others;
    match NeedOf(rd.now, c)
    case Required => {
      if tail == "" && rest != [] {
        var q := Parse(Later(rd), rest[1..]);
        ParseInterleaves(Later(rd), rest[1..]);
        OneFirst(rest[0], rest[1..], q.options, q.others);
        assert rest == [rest[0]] + rest[1..] && [] + q.others == q.others;
        OneFirst(e, rest, [rest[0]] + q.options, q.others);
        assert [e] + ([rest[0]] + q.options) == [e, rest[0]] + q.options;
      }
    }
    case Optional =>
    case _ => {
      if tail != "" {
        var q := Cluster(Later(rd), e, tail, rest);
        ClusterInterleaves(Later(rd), e, tail, rest);
        assert [] + q.options == q.options && [] + q.others == q.others;
      }
    }
  }

  // ---------- What ends up on either side ----------

  /** What may be left over, if there is no `--'. */
  predicate LeftOver(order: Ordering, others: seq<string>) {
    match order
    case Permute => forall e :: e in others ==> NonOption(e)
    case RequireOrder => others == [] || NonOption(others[0])
    case ReturnInOrder => others == []
  }

  /** Without a `--', no argument left over looks like an option when the list is permuted, the first of them does not
      when order is required, and there is none when arguments are returned in their places. */
  lemma {:induction false} OthersAreArguments(rd: Reading, args: seq<string>)
    requires "--" !in args
    ensures LeftOver(rd.order, Parse(rd, args).others)
    decreases |args|, 0
  {
    if args != [] {
      if NonOption(args[0]) {
        if rd.order != RequireOrder {
          OthersAreArguments(if rd.order == ReturnInOrder then Later(rd) else rd, args[1..]);
        }
      } else {
        ClusterOthers(rd, args[0], args[0][1..], args[1..]);
      }
    }
  }

  lemma {:induction false} ClusterOthers(rd: Reading, e: string, chars: string, rest: seq<string>)
    requires chars != "" && "--" !in rest
    ensures LeftOver(rd.order, Cluster(rd, e, chars, rest).others)
    decreases |rest|, |chars|
  {
    hide LeftOver;
    OthersAreArguments(Later(rd), rest);
    if rest != [] { OthersAreArguments(Later(rd), rest[1..]); }
    if chars[1..] != "" { ClusterOthers(Later(rd), e, chars[1..], rest); }
    JustOthers(rd, e, chars, rest);
  }

  lemma JustOthers(rd: Reading, e: string, chars: string, rest: seq<string>)
    requires chars != ""
    ensures var o, tail := Cluster(rd, e, chars, rest).others, chars[1..];
            || o == Parse(Later(rd), rest).others
            || (rest != [] && o == Parse(Later(rd), rest[1..]).others)
            || (tail != "" && o == Cluster(Later(rd), e, tail, rest).others)
  {
    hide Parse;
    var p := Parse(Later(rd), rest);
    assert [] + p.others == p.others;
    if rest != [] { assert [] + Parse(Later(rd), rest[1..]).others == Parse(Later(rd), rest[1..]).others; }
    if chars[1..] != "" {
      var q := Cluster(Later(rd), e, chars[1..], rest);
      assert [] + q.others == q.others;
    }
  }

  // ---------- What the characters and elements mean ----------

  lemma {:induction false} FirstIndex(pre: string, c: char, post: string)
    requires c !in pre
    ensures IndexOf(pre + [c] + post, c) == |pre|
  {
    var opts := pre + [c] + post;
    assert opts[|pre|] == c && forall j :: 0 <= j < |pre| ==> opts[j] == pre[j];
  }

  /** One colon behind an option character asks for an argument, two for one in the same element, and none for none; a
      character that is not in the option string, and a colon, is no option. */
  lemma NeedMeans(pre: string, c: char, post: string)
    requires c != ':' && c !in pre
    ensures var need := NeedOf(pre + [c] + post, c);
            && (need == Optional <==> "::" <= post)
            && (need == Required <==> ":" <= post && !("::" <= post))
            && (need == Flag <==> !(":" <= post))
  {
    var opts := pre + [c] + post;
    FirstIndex(pre, c, post);
    assert forall k :: 0 <= k < |post| ==> opts[|pre| + 1 + k] == post[k];
    assert ":" <= post <==> |post| >= 1 && post[0] == ':';
    assert "::" <= post <==> |post| >= 2 && post[0] == ':' && post[1] == ':';
  }

  lemma NoNeed(opts: string, c: char)
    ensures c !in opts || c == ':' <==> NeedOf(opts, c) == Unknown
  {
  }

  /** An argument that is no option is left for later, ends the options, or is returned in its place. */
  lemma FirstArgument(rd: Reading, e: string, rest: seq<string>)
    requires NonOption(e)
    ensures rd.order == Permute ==> Parse(rd, [e] + rest) == Parse(rd, rest).(others := [e] + Parse(rd, rest).others)
    ensures rd.order == RequireOrder ==> Parse(rd, [e] + rest) == Parsed([], [], [e] + rest)
    ensures rd.order == ReturnInOrder ==>
      var q := Parse(Later(rd), rest);
      Parse(rd, [e] + rest) == Parsed([InPlace(e)] + q.found, [e] + q.options, q.others)
  {
    hide Cluster;
    assert ([e] + rest)[1..] == rest;
    assert [] + Parse(rd, rest).found == Parse(rd, rest).found &&
      [] + Parse(rd, rest).options == Parse(rd, rest).options;
    assert [] + Parse(Later(rd), rest).others == Parse(Later(rd), rest).others;
  }

  lemma DashesEnd(rd: Reading, rest: seq<string>)
    ensures Parse(rd, ["--"] + rest) == Parsed([], ["--"], rest) && Parse(rd, []) == Parsed([], [], [])
  {
    assert (["--"] + rest)[1..] == rest;
  }

  /** The first k arguments are no options. */
  predicate Leading(args: seq<string>, k: nat) {
    k <= |args| && forall j :: 0 <= j < k ==> NonOption(args[j])
  }

  /** Arguments in front of which no option stands are returned first, each in its place. */
  ghost predicate ReturnedFirst(args: seq<string>, found: seq<Found>) {
    forall k :: 1 <= k <= |args| && Leading(args, k) ==> |found| >= k && found[k - 1] == InPlace(args[k - 1])
  }

  /** They are the first of what is left over. */
  ghost predicate LeftFirst(args: seq<string>, others: seq<string>) {
    forall k :: 1 <= k <= |args| && Leading(args, k) ==> |others| >= k && others[k - 1] == args[k - 1]
  }

  /** What the orderings mean for a list in front of whose first k elements no option stands. */
  lemma {:induction false} LeadingArguments(rd: Reading, args: seq<string>, k: nat)
    requires 1 <= k <= |args| && Leading(args, k)
    ensures var p := Parse(rd, args);
            match rd.order
            case Permute => |p.others| >= k && p.others[k - 1] == args[k - 1]
            case RequireOrder => p == Parsed([], [], args)
            case ReturnInOrder => |p.found| >= k && p.found[k - 1] == InPlace(args[k - 1])
    decreases k
  {
    hide Parse;
    assert args == [args[0]] + args[1..] && NonOption(args[0]);
    FirstArgument(rd, args[0], args[1..]);
    if k > 1 {
      assert forall j :: 0 <= j < k - 1 ==> args[1..][j] == args[j + 1];
      LeadingArguments(if rd.order == ReturnInOrder then Later(rd) else rd, args[1..], k - 1);
    }
  }

  /** What is returned, and what is left, under each ordering. */
  lemma OrderingSays(rd: Reading, args: seq<string>)
    ensures var p := Parse(rd, args);
            match rd.order
            case Permute => LeftFirst(args, p.others) && ("--" !in args ==> forall e :: e in p.others ==> NonOption(e))
            case RequireOrder =>
              && (args != [] && NonOption(args[0]) ==> p == Parsed([], [], args))
              && ("--" !in args && p.others != [] ==> NonOption(p.others[0]))
            case ReturnInOrder => ReturnedFirst(args, p.found) && ("--" !in args ==> p.others == [])
  {
    hide Parse, Leading;
    if "--" !in args { OthersAreArguments(rd, args); }
    forall k | 1 <= k <= |args| && Leading(args, k)
      ensures var p := Parse(rd, args);
              && (rd.order == Permute ==> |p.others| >= k && p.others[k - 1] == args[k - 1])
              && (rd.order == ReturnInOrder ==> |p.found| >= k && p.found[k - 1] == InPlace(args[k - 1]))
    {
      LeadingArguments(rd, args, k);
    }
    if args != [] && NonOption(args[0]) {
      assert args == [args[0]] + args[1..];
      FirstArgument(rd, args[0], args[1..]);
    }
  }

  function Flags(chars: string): seq<Found> {
    seq(|chars|, i requires 0 <= i < |chars| => Found(chars[i], None, None))
  }

  /** Characters without an argument are returned one by one. */
  lemma {:induction false} FlagsFirst(rd: Reading, e: string, flags: string, tail: string, rest: seq<string>)
    requires rd.now == rd.later && tail != "" && forall c :: c in flags ==> NeedOf(rd.now, c) == Flag
    ensures Cluster(rd, e, flags + tail, rest) == After(Flags(flags), [], [], Cluster(rd, e, tail, rest))
    decreases |flags|
  {
    if flags == "" {
      assert flags + tail == tail;
      Behind(Cluster(rd, e, tail, rest), [], []);
    } else {
      FlagsFirst(rd, e, flags[1..], tail, rest);
      assert (flags + tail)[1..] == flags[1..] + tail;
      assert Cluster(rd, e, flags + tail, rest)
             == After([Found(flags[0], None, None)], [], [], Cluster(rd, e, flags[1..] + tail, rest)) by {
        hide Parse, NeedOf;
        assert Later(rd) == rd;
      }
      assert Flags(flags) == [Found(flags[0], None, None)] + Flags(flags[1..]);
      Behind(Cluster(rd, e, tail, rest), [Found(flags[0], None, None)], Flags(flags[1..]));
    }
  }

  lemma Behind(p: Parsed, a: seq<Found>, b: seq<Found>)
    ensures After(a, [], [], After(b, [], [], p)) == After(a + b, [], [], p)
    ensures After([], [], [], p) == p
  {
    assert a + (b + p.found) == a + b + p.found;
  }

  /** An element of flags and at last a character c, with what stands behind c in the element: what is returned, which
      elements are used up, and where the next call goes on. */
  lemma ElementMeans(rd: Reading, flags: string, c: char, tail: string, rest: seq<string>)
    requires rd.now == rd.later && forall f :: f in flags ==> NeedOf(rd.now, f) == Flag
    requires var e := "-" + flags + [c] + tail; e != "--" && (tail != "" ==> NeedOf(rd.now, c) in {Required, Optional})
    ensures var e := "-" + flags + [c] + tail;
            var p, q := Parse(rd, [e] + rest), Parse(rd, rest);
            match NeedOf(rd.now, c)
            case Unknown => p == Parsed(Flags(flags) + [Found('?', None, Some(c))] + q.found, [e] + q.options, q.others)
            case Flag => p == Parsed(Flags(flags) + [Found(c, None, None)] + q.found, [e] + q.options, q.others)
            case Optional =>
              p == Parsed(Flags(flags) + [Found(c, if tail == "" then None else Some(tail), None)] + q.found,
                          [e] + q.options, q.others)
            case Required =>
              if tail != "" then
                p == Parsed(Flags(flags) + [Found(c, Some(tail), None)] + q.found, [e] + q.options, q.others)
              else if rest == [] then
                p == Parsed(Flags(flags) + [Found(if ":" <= rd.now then ':' else '?', None, Some(c))], [e], [])
              else
                var r := Parse(rd, rest[1..]);
                p == Parsed(Flags(flags) + [Found(c, Some(rest[0]), None)] + r.found, [e, rest[0]] + r.options,
                  r.others)
  {
    hide NeedOf;
    var e := "-" + flags + [c] + tail;
    var args := [e] + rest;
    assert e[0] == '-' && |e| >= 2 && e[1..] == flags + ([c] + tail) && args[0] == e && args[1..] == rest;
    assert Parse(rd, args) == Cluster(rd, e, e[1..], rest);
    FlagsFirst(rd, e, flags, [c] + tail, rest);
    assert ([c] + tail)[1..] == tail && Later(rd) == rd && (":" <= rd.now <==> CharAt(rd.now, 0, ':'));
    LastOne(rd, e, c, tail, rest);
    var last := Cluster(rd, e, [c] + tail, rest);
    assert [] + last.options == last.options && [] + last.others == last.others;
    assert forall x: seq<Found>, y: seq<Found> :: Flags(flags) + (x + y) == Flags(flags) + x + y;
  }

  /** The last character of an element that has a meaning of its own. */
  lemma LastOne(rd: Reading, e: string, c: char, tail: string, rest: seq<string>)
    requires rd.now == rd.later && (tail != "" ==> NeedOf(rd.now, c) in {Required, Optional})
    ensures var p, q := Cluster(rd, e, [c] + tail, rest), Parse(rd, rest);
            match NeedOf(rd.now, c)
            case Unknown => p == Parsed([Found('?', None, Some(c))] + q.found, [e] + q.options, q.others)
            case Flag => p == Parsed([Found(c, None, None)] + q.found, [e] + q.options, q.others)
            case Optional =>
              p == Parsed([Found(c, if tail == "" then None else Some(tail), None)] + q.found, [e] + q.options,
                q.others)
            case Required =>
              if tail != "" then p == Parsed([Found(c, Some(tail), None)] + q.found, [e] + q.options, q.others)
              else if rest == [] then
                p == Parsed([Found(if CharAt(rd.now, 0, ':') then ':' else '?', None, Some(c))], [e], [])
              else
                var r := Parse(rd, rest[1..]);
                p == Parsed([Found(c, Some(rest[0]), None)] + r.found, [e, rest[0]] + r.options, r.others)
  {
    hide NeedOf;
    assert ([c] + tail)[1..] == tail && Later(rd) == rd;
    var q := Parse(rd, rest);
    assert [] + q.others == q.others;
    if rest == [] { assert q == Parsed([], [], []); } else {
      var r := Parse(rd, rest[1..]);
      assert [] + r.others == r.others;
    }
  }

  // ---------- The ordering mark ----------

  predicate Marked(optstring: string) {
    CharAt(optstring, 0, '-') || CharAt(optstring, 0, '+')
  }

  /** The option string without its ordering mark. */
  function Unmarked(optstring: string): string {
    if Marked(optstring) then optstring[1..] else optstring
  }

  /** The first call reads past the ordering mark, the others read it as an option character. */
  function AsCalled(order: Ordering, optstring: string): Reading {
    Reading(order, Unmarked(optstring), optstring)
  }

  function AsMeant(order: Ordering, optstring: string): Reading {
    Reading(order, Unmarked(optstring), Unmarked(optstring))
  }

  /** The mark itself is the same kind of option with and without it, and no missing argument was to be told apart. */
  ghost predicate Harmless(optstring: string) {
    Marked(optstring) ==>
      && NeedOf(optstring, optstring[0]) == NeedOf(optstring[1..], optstring[0])
      && (CharAt(optstring, 1, ':') ==> forall c :: NeedOf(optstring[1..], c) != Required)
  }

  lemma NeedBehindMark(optstring: string, c: char)
    requires optstring != "" && c != optstring[0]
    ensures NeedOf(optstring, c) == NeedOf(optstring[1..], c)
  {
    var k := IndexOf(optstring[1..], c);
    assert IndexOf(optstring, c) == 1 + k;
    assert CharAt(optstring, k + 2, ':') == CharAt(optstring[1..], k + 1, ':');
    assert CharAt(optstring, k + 3, ':') == CharAt(optstring[1..], k + 2, ':');
  }

  /** Two readings that make the same of every character. */
  ghost predicate SameReading(r: Reading, s: Reading) {
    && r.order == s.order
    && (forall c :: NeedOf(r.now, c) == NeedOf(s.now, c) && NeedOf(r.later, c) == NeedOf(s.later, c))
    && (forall c :: NeedOf(r.now, c) == Required ==> Missing(r.now, c) == Missing(s.now, c))
    && (forall c :: NeedOf(r.later, c) == Required ==> Missing(r.later, c) == Missing(s.later, c))
  }

  lemma {:induction false} SameParse(r: Reading, s: Reading, args: seq<string>)
    requires SameReading(r, s)
    ensures Parse(r, args) == Parse(s, args)
    decreases |args|, 0
  {
    if args != [] {
      if NonOption(args[0]) {
        SameParse(r, s, args[1..]);
        SameParse(Later(r), Later(s), args[1..]);
      } else {
        SameCluster(r, s, args[0], args[0][1..], args[1..]);
      }
    }
  }

  lemma {:induction false} SameCluster(r: Reading, s: Reading, e: string, chars: string, rest: seq<string>)
    requires SameReading(r, s) && chars != ""
    ensures Cluster(r, e, chars, rest) == Cluster(s, e, chars, rest)
    decreases |rest|, |chars|
  {
    SameParse(Later(r), Later(s), rest);
    if rest != [] { SameParse(Later(r), Later(s), rest[1..]); }
    if chars[1..] != "" { SameCluster(Later(r), Later(s), e, chars[1..], rest); }
  }

  /** A single element after its first character, if that takes no argument. */
  lemma AfterFirst(rd: Reading, c: char, chars: string)
    requires chars != "" && c != '-' && NeedOf(rd.now, c) in {Unknown, Flag}
    ensures var e := ['-', c] + chars;
            Parse(rd, [e]).found == [if NeedOf(rd.now, c) == Flag then Found(c, None, None)
              else Found('?', None, Some(c))]
                                    + Cluster(Later(rd), e, chars, []).found
  {
    hide NeedOf;
    var e := ['-', c] + chars;
    var args := [e];
    assert |e| >= 3 && e[0] == '-' && e[1] == c && e[1..] == [c] + chars && e[1..][1..] == chars && args[1..] == [];
    assert !NonOption(e) && e != "--";
    assert Parse(rd, args) == Cluster(rd, e, e[1..], args[1..]);
    var first := if NeedOf(rd.now, c) == Flag then Found(c, None, None) else Found('?', None, Some(c));
    assert Cluster(rd, e, e[1..], args[1..]) == Onward(rd, first, e, chars, []);
    assert Onward(rd, first, e, chars, []) == After([first], [], [], Cluster(Later(rd), e, chars, []));
  }

  lemma NeverAnOption(opts: string)
    ensures NeedOf(opts, ':') == Unknown
  {
  }

  /** An element that shows that the mark does harm, behind a character that is never an option. */
  lemma MarkShows(order: Ordering, optstring: string) returns (e: string)
    requires !Harmless(optstring)
    ensures Parse(AsCalled(order, optstring), [e]).found != Parse(AsMeant(order, optstring), [e]).found
  {
    hide NeedOf, IndexOf, Parse, Cluster;
    var m, meant := optstring[0], optstring[1..];
    var n, o := NeedOf(optstring, m), NeedOf(meant, m);
    var chars;
    if n != o {
      chars := if n in {Optional, Required} && o in {Optional, Required} then [m] else [m, ':'];
      assert [m, ':'][1..] == ":" && [m][1..] == "";
    } else {
      var c :| NeedOf(meant, c) == Required;
      if c != m { NeedBehindMark(optstring, c); }
      chars := [c];
      assert CharAt(meant, 0, ':') && !CharAt(optstring, 0, ':') && [c][1..] == "";
    }
    e := ['-', ':'] + chars;
    NeverAnOption(meant);
    AfterFirst(AsCalled(order, optstring), ':', chars);
    AfterFirst(AsMeant(order, optstring), ':', chars);
    FirstFound(Later(AsCalled(order, optstring)), e, chars);
    FirstFound(Later(AsMeant(order, optstring)), e, chars);
    var f, g := Cluster(Later(AsCalled(order, optstring)), e, chars, []).found,
      Cluster(Later(AsMeant(order, optstring)), e, chars, []).found;
    var h := [Found('?', None, Some(':'))];
    assert (h + f)[1] == f[0] && (h + g)[1] == g[0];
  }

  /** What the first character of the last element gives. */
  lemma FirstFound(rd: Reading, e: string, chars: string)
    requires chars != ""
    ensures var f, c, tail := Cluster(rd, e, chars, []).found, chars[0], chars[1..];
            f != [] && f[0] == match NeedOf(rd.now, c)
                               case Unknown => Found('?', None, Some(c))
                               case Flag => Found(c, None, None)
                               case Optional => Found(c, if tail == "" then None else Some(tail), None)
                               case Required => if tail != "" then Found(c, Some(tail), None) else Missing(rd.now, c)
  {
    hide NeedOf, Parse;
  }

  /** However the list is read, getopt returns what the option string without its mark says, for every list, if and only
      if the mark is harmless. */
  lemma MarkHarmless(order: Ordering, optstring: string)
    ensures Harmless(optstring) <==>
            forall args :: Parse(AsCalled(order, optstring), args) == Parse(AsMeant(order, optstring), args)
  {
    hide Parse, NeedOf;
    if Harmless(optstring) {
      forall args ensures Parse(AsCalled(order, optstring), args) == Parse(AsMeant(order, optstring), args) {
        HarmlessSame(order, optstring);
        SameParse(AsCalled(order, optstring), AsMeant(order, optstring), args);
      }
    } else {
      var e := MarkShows(order, optstring);
    }
  }

  lemma HarmlessSame(order: Ordering, optstring: string)
    requires Harmless(optstring)
    ensures SameReading(AsCalled(order, optstring), AsMeant(order, optstring))
  {
    hide NeedOf, IndexOf;
    if Marked(optstring) {
      forall c ensures NeedOf(optstring, c) == NeedOf(optstring[1..], c) {
        if c != optstring[0] { NeedBehindMark(optstring, c); }
      }
      assert CharAt(optstring[1..], 0, ':') == CharAt(optstring, 1, ':');
    }
  }

  /** With the option string -a the element -a- gives the option - in the second call. With -:ba: the missing argument
      in -ba is reported as ?, although the colon asks for it to be told apart. */
  lemma MarkHarms(order: Ordering)
    ensures Parse(AsCalled(order, "-a"), ["-a-"]).found == [Found('a', None, None), Found('-', None, None)]
    ensures Parse(AsMeant(order, "-a"), ["-a-"]).found == [Found('a', None, None), Found('?', None, Some('-'))]
    ensures Parse(AsCalled(order, "-:ba:"), ["-ba"]).found == [Found('b', None, None), Found('?', None, Some('a'))]
    ensures Parse(AsMeant(order, "-:ba:"), ["-ba"]).found == [Found('b', None, None), Found(':', None, Some('a'))]
  {
    MarkNeeds();
    TwoChars(AsCalled(order, "-a"), 'a', '-');
    TwoChars(AsMeant(order, "-a"), 'a', '-');
    TwoChars(AsCalled(order, "-:ba:"), 'b', 'a');
    TwoChars(AsMeant(order, "-:ba:"), 'b', 'a');
  }

  lemma MarkNeeds()
    ensures NeedOf("a", 'a') == NeedOf("-a", '-') == Flag && NeedOf("a", '-') == Unknown
    ensures NeedOf(":ba:", 'b') == Flag && NeedOf(":ba:", 'a') == NeedOf("-:ba:", 'a') == Required
    ensures Unmarked("-a") == "a" && Unmarked("-:ba:") == ":ba:"
  {
    assert "a"[1..] == "" && "-a"[1..] == "a" && "-:ba:"[1..] == ":ba:" && ":ba:"[1..] == "ba:" && "ba:"[1..] == "a:";
  }

  /** An element of two characters, the first a flag and the second a flag, an unknown character or one that misses its
      argument. */
  lemma TwoChars(rd: Reading, c: char, d: char)
    requires NeedOf(rd.now, c) == Flag && NeedOf(rd.later, d) != Optional && c != '-'
    ensures Parse(rd, [['-', c, d]]).found ==
            [Found(c, None, None),
             match NeedOf(rd.later, d)
             case Unknown => Found('?', None, Some(d))
             case Required => Missing(rd.later, d)
             case _ => Found(d, None, None)]
  {
    hide NeedOf;
    AfterFirst(rd, c, [d]);
    assert ['-', c] + [d] == ['-', c, d] && [d][1..] == "";
    assert Parse(Later(Later(rd)), []) == Parsed([], [], []);
  }
}
