/** re_compile_fastmap: which characters can start a match, found by running the compiled code with a stack of paths
    still to be followed and no text. */
module RegexFastmap {
  import opened RegexTree
  import opened RegexCode
  import opened RegexPaths
  import opened RegexLayout
  import opened RegexMachine
  import opened RegexSoundness
  import opened RegexMatcher
  import opened RegexFirst
  import opened RegexItems

  /** The compiled pattern with no text, for talking about addresses reached without using any. */
  function Textless(code: seq<Byte>, syn: Syntax): Job {
    Job(Input(syn, []), code, 0, 0)
  }

  ghost predicate Pattern(code: seq<Byte>, syn: Syntax, r: Re, nsub: nat) {
    && Program(code, r, syn) && Sized(r) && RegsWithin(r, nsub) && PlainDotLines(r) && AltsGrouped(r)
    && |code| < MAX_OFFSET_CODE
  }

  /** Control can be at x with no text used. */
  ghost predicate Live(code: seq<Byte>, syn: Syntax, r: Re, x: int) {
    Boundary(r, x) && Inside(Input(syn, []), r, 0, x, 0, 0)
  }

  /** Some item that can be the first to look at the text takes c. */
  ghost predicate CanStart(code: seq<Byte>, syn: Syntax, r: Re, c: Byte) {
    exists x: nat :: Live(code, syn, r, x) && Offers(code, syn, x, c)
  }

  /** What can start by the code can start by the tree. */
  lemma CanStartBegins(code: seq<Byte>, syn: Syntax, r: Re, nsub: nat, c: Byte)
    requires Pattern(code, syn, r, nsub) && CanStart(code, syn, r, c)
    ensures Begins(syn, r, c)
  {
    hide Pattern, Inside, Depth, Len, Offers;
    var x: nat :| Live(code, syn, r, x) && Offers(code, syn, x, c);
    LiveOp(code, syn, r, nsub, x);
    if x == Len(r) { NothingThere(code, syn, x, c); }
    PatternLaid(code, syn, r, nsub);
    ItemBegins(code, syn, r, 0, x, c);
  }

  lemma NothingThere(code: seq<Byte>, syn: Syntax, x: nat, c: Byte)
    requires x >= |code| || code[x] == SUCCEED
    ensures !Offers(code, syn, x, c)
  {
  }

  lemma PatternLaid(code: seq<Byte>, syn: Syntax, r: Re, nsub: nat)
    requires Pattern(code, syn, r, nsub)
    ensures Laid(code, 0, r) && Sized(r) && |code| < MAX_OFFSET_CODE
  {
  }

  // ---------- Termination ----------

  function Pow3(n: nat): (p: nat)
    ensures p >= 1 && (n > 0 ==> p >= 3)
  {
    if n == 0 then 1 else 3 * Pow3(n - 1)
  }

  /** An address near the start can lead to many paths; an item ends its path. */
  function Weight(code: seq<Byte>, x: int): (w: nat)
    ensures w >= 1
  {
    if x < 0 || x >= |code| then 1 else if IsItem(code[x]) then 2 else Pow3(|code| - x)
  }

  function WeightOf(code: seq<Byte>, stack: seq<int>): nat {
    if stack == [] then 0 else WeightOf(code, stack[..|stack| - 1]) + Weight(code, stack[|stack| - 1])
  }

  lemma {:induction false} Pow3Grows(m: nat, n: nat)
    requires m <= n
    ensures Pow3(m) <= Pow3(n)
    decreases n
  {
    if m < n { Pow3Grows(m, n - 1); }
  }

  lemma LaterWeighsLess(code: seq<Byte>, x: nat, y: int)
    requires x < y && x < |code| && !IsItem(code[x])
    ensures Weight(code, x) >= 3 * Weight(code, y)
  {
    if y < |code| { Pow3Grows(|code| - y, |code| - x - 1); }
  }

  // ---------- Moving without text ----------

  lemma TextlessCompiled(code: seq<Byte>, syn: Syntax, r: Re, nsub: nat)
    requires Pattern(code, syn, r, nsub)
    ensures Compiled(Textless(code, syn), r, nsub)
  {
  }

  lemma LiveStart(code: seq<Byte>, syn: Syntax, r: Re)
    ensures Live(code, syn, r, 0)
  {
    InsideStart(Input(syn, []), r, 0, 0);
    DepthEnds(r, 0);
  }

  /** The opcodes that do not look at the text. */
  lemma LiveMove(code: seq<Byte>, syn: Syntax, r: Re, nsub: nat, x: int, y: int)
    requires Pattern(code, syn, r, nsub) && Live(code, syn, r, x) && x < Len(r)
    requires Next(code, x, y) && !IsItem(Get(code, x))
    ensures Live(code, syn, r, y)
  {
    hide Pattern, Inside, Depth, Len, Compiled, Next;
    var job := Textless(code, syn);
    TextlessCompiled(code, syn, r, nsub);
    NextMoves(job.g, code, x, y);
    Advance(job, r, nsub, x, 0, y, 0, Depth(r, 0, x));
    BoundaryMove(job, r, nsub, x, y);
  }

  lemma NextMoves(g: Input, code: seq<Byte>, x: int, y: int)
    requires Next(code, x, y) && !IsItem(Get(code, x))
    ensures Move(g, code, x, 0, y, 0)
  {
  }

  lemma LiveOp(code: seq<Byte>, syn: Syntax, r: Re, nsub: nat, x: int)
    requires Pattern(code, syn, r, nsub) && Live(code, syn, r, x)
    ensures x < Len(r) ==> x < |code| && OpcodeOk(code, x, nsub) && DotLineOk(code, x) && x + OpLen(code, x) <= Len(r)
    ensures x == Len(r) ==> x == |code| || (x < |code| && code[x] == SUCCEED)
    ensures 0 <= x <= Len(r) <= |code|
  {
    hide Pattern, Inside, Depth, Len, Compiled, OpcodeOk, DotLineOk, OpLen;
    var job := Textless(code, syn);
    TextlessCompiled(code, syn, r, nsub);
    LaidHere(job, r, nsub);
    EndOp(job, r, nsub, x);
    if x < Len(r) {
      HereOpcode(job, r, nsub, x, 0, Depth(r, 0, x));
      OpLenPositive(code, x);
    }
  }

  lemma OpLenPositive(code: seq<Byte>, x: int)
    ensures OpLen(code, x) >= 1
  {
  }

  lemma LaidHere(job: Job, r: Re, nsub: nat)
    requires Compiled(job, r, nsub)
    ensures Len(r) <= |job.code|
  {
    hide Len;
    LaidProgram(job, r, nsub);
  }

  lemma LiveEnd(code: seq<Byte>, syn: Syntax, r: Re)
    requires Live(code, syn, r, Len(r))
    ensures InLanguage(syn, r, [])
  {
    hide Len, Depth, Inside, Matches;
    InsideEnd(Input(syn, []), r, 0, 0, 0);
  }

  // ---------- One step ----------

  /** A jump is followed to an address that weighs less. */
  lemma JumpStep(code: seq<Byte>, syn: Syntax, r: Re, nsub: nat, x: nat)
    requires Pattern(code, syn, r, nsub) && Live(code, syn, r, x) && x < |code| && IsPlainJump(code[x])
    ensures Live(code, syn, r, Beyond(code, x)) && Weight(code, Beyond(code, x)) < Weight(code, x)
  {
    hide Pattern, Live, Len, Target, Pow3, Boundary;
    JumpFacts(code, syn, r, nsub, x);
    var t := Target(code, x);
    LiveMove(code, syn, r, nsub, x, t) by { JumpNext(code, x); }
    LiveOp(code, syn, r, nsub, t);
    if Offset(code, x) <= 0 && Get(code, t) == ON_FAILURE_JUMP {
      ForkForward(code, syn, r, nsub, t);
      LiveMove(code, syn, r, nsub, t, Target(code, t));
    }
    if code[x] == JUMP && Offset(code, x) <= 0 {
      assert Weight(code, t) == 2;
      assert |code| - x > 0;
    } else {
      LaterWeighsLess(code, x, Beyond(code, x));
    }
  }

  lemma JumpNext(code: seq<Byte>, x: nat)
    requires x < |code| && IsPlainJump(code[x])
    ensures Next(code, x, Target(code, x))
  {
  }

  /** Where each kind of jump leads. */
  lemma JumpFacts(code: seq<Byte>, syn: Syntax, r: Re, nsub: nat, x: nat)
    requires Pattern(code, syn, r, nsub) && Live(code, syn, r, x) && x < |code| && IsPlainJump(code[x])
    ensures x < Len(r) && Target(code, x) == x + 3 + Offset(code, x)
    ensures code[x] == JUMP ==> Get(code, Target(code, x)) == ANYCHAR
    ensures code[x] != JUMP ==> Beyond(code, x) > x
  {
    hide Pattern, Live, Len, Boundary;
    LiveOp(code, syn, r, nsub, x);
    assert OpcodeOk(code, x, nsub);
    if code[x] == JUMP_PAST_ALT && Offset(code, x) == 0 && Get(code, x + 3) == ON_FAILURE_JUMP {
      LiveMove(code, syn, r, nsub, x, x + 3);
      ForkForward(code, syn, r, nsub, x + 3);
    }
  }

  lemma ForkForward(code: seq<Byte>, syn: Syntax, r: Re, nsub: nat, x: int)
    requires Pattern(code, syn, r, nsub) && Live(code, syn, r, x) && IsFork(Get(code, x))
    ensures 0 <= x < Len(r) <= |code| && x + 3 <= Target(code, x) && Next(code, x, Target(code, x))
            && Next(code, x, x + 3)
  {
    hide Pattern, Live, Len, Boundary, OpLen;
    LiveOp(code, syn, r, nsub, x);
  }

  lemma ForkStep(code: seq<Byte>, syn: Syntax, r: Re, nsub: nat, x: nat)
    requires Pattern(code, syn, r, nsub) && Live(code, syn, r, x) && x < |code| && IsFork(code[x])
    ensures Live(code, syn, r, x + 3) && Live(code, syn, r, Target(code, x))
            && x + 3 <= Target(code, x) <= Len(r) <= |code|
    ensures Weight(code, x + 3) + Weight(code, Target(code, x)) < Weight(code, x)
  {
    hide Pattern, Live, Len, Target, Pow3, Boundary, Next;
    ForkForward(code, syn, r, nsub, x);
    LiveMove(code, syn, r, nsub, x, x + 3);
    LiveMove(code, syn, r, nsub, x, Target(code, x));
    LiveOp(code, syn, r, nsub, Target(code, x));
    LaterWeighsLess(code, x, x + 3);
    LaterWeighsLess(code, x, Target(code, x));
  }

  /** The opcodes that are simply stepped over. */
  lemma SimpleStep(code: seq<Byte>, syn: Syntax, r: Re, nsub: nat, x: nat, y: nat)
    requires Pattern(code, syn, r, nsub) && Live(code, syn, r, x) && x < |code|
    requires var op := code[x];
             ((op == START_MEMORY || op == STOP_MEMORY) && y == x + 3)
               || ((op == PUSH_DUMMY_FAILURE || op == NO_OP) && y == x + 1)
    ensures Live(code, syn, r, y) && Weight(code, y) < Weight(code, x)
  {
    hide Pattern, Live, Len, Pow3, Boundary, Depth, Inside;
    LiveOp(code, syn, r, nsub, x);
    assert Next(code, x, y);
    LiveMove(code, syn, r, nsub, x, y);
    LaterWeighsLess(code, x, y);
  }

  // ---------- The state of the scan ----------

  ghost predicate Waiting(stack: seq<int>, p: int, path: bool, x: int) {
    (path && x == p) || x in stack
  }

  ghost predicate Covered(code: seq<Byte>, syn: Syntax, fast: Fastmap, v: set<int>, stack: seq<int>, p: int,
          path: bool) {
    forall x | x in v :: Waiting(stack, p, path, x) || ClosedAt(syn, code, fast, v, x)
  }

  /** v has been reached without text; what is not yet followed up waits on the stack or is where the scan is. */
  ghost predicate Scan(code: seq<Byte>, syn: Syntax, r: Re, fast: Fastmap, nullable: bool, v: set<int>,
          stack: seq<int>, p: int, path: bool) {
    && 0 in v
    && (forall x | x in v :: Live(code, syn, r, x))
    && (forall k | 0 <= k < |stack| :: stack[k] in v)
    && (if path then p in v else p == |code|)
    && (nullable || Covered(code, syn, fast, v, stack, p, path))
    && (nullable ==> InLanguage(syn, r, []))
    && (forall c: Byte | fast[c] :: CanStart(code, syn, r, c))
  }

  lemma ClosedGrows(syn: Syntax, code: seq<Byte>, fast: Fastmap, v: set<int>, fast2: Fastmap, v2: set<int>, x: int)
    requires ClosedAt(syn, code, fast, v, x) && v <= v2 && forall c: Byte :: fast[c] ==> fast2[c]
    ensures ClosedAt(syn, code, fast2, v2, x)
  {
    hide Beyond, Target, BitmapAt, SetAccepts;
  }

  /** From p the scan goes on to y. */
  lemma ScanMove(code: seq<Byte>, syn: Syntax, r: Re, fast: Fastmap, nullable: bool, v: set<int>, stack: seq<int>,
          p: int, y: int)
    requires Scan(code, syn, r, fast, nullable, v, stack, p, true) && Live(code, syn, r, y)
    requires ClosedAt(syn, code, fast, v + {y}, p)
    ensures Scan(code, syn, r, fast, nullable, v + {y}, stack, y, true)
  {
    hide Live, ClosedAt, CanStart, InLanguage;
    var v2 := v + {y};
    if !nullable {
      forall x | x in v2 ensures Waiting(stack, y, true, x) || ClosedAt(syn, code, fast, v2, x) {
        if x in v && ClosedAt(syn, code, fast, v, x) { ClosedGrows(syn, code, fast, v, fast, v2, x); }
      }
    }
  }

  /** ... leaving t for later. */
  lemma ScanFork(code: seq<Byte>, syn: Syntax, r: Re, fast: Fastmap, nullable: bool, v: set<int>, stack: seq<int>,
          p: int, y: int, t: int)
    requires Scan(code, syn, r, fast, nullable, v, stack, p, true) && Live(code, syn, r, y) && Live(code, syn, r, t)
    requires ClosedAt(syn, code, fast, v + {y, t}, p)
    ensures Scan(code, syn, r, fast, nullable, v + {y, t}, stack + [t], y, true)
  {
    hide Live, ClosedAt, CanStart, InLanguage;
    var v2 := v + {y, t};
    if !nullable {
      forall x | x in v2 ensures Waiting(stack + [t], y, true, x) || ClosedAt(syn, code, fast, v2, x) {
        if x in v && ClosedAt(syn, code, fast, v, x) { ClosedGrows(syn, code, fast, v, fast, v2, x); }
        if x in stack { assert x in stack + [t]; }
        assert t in stack + [t];
      }
    }
  }

  /** A stacked path that starts where the scan is now is redundant. */
  lemma ScanDrop(code: seq<Byte>, syn: Syntax, r: Re, fast: Fastmap, nullable: bool, v: set<int>, stack: seq<int>,
          p: int)
    requires Scan(code, syn, r, fast, nullable, v, stack, p, true) && stack != [] && stack[|stack| - 1] == p
    ensures Scan(code, syn, r, fast, nullable, v, stack[..|stack| - 1], p, true)
  {
    hide Live, ClosedAt, CanStart, InLanguage;
    var rest := stack[..|stack| - 1];
    if !nullable {
      forall x | x in v ensures Waiting(rest, p, true, x) || ClosedAt(syn, code, fast, v, x) {
        if x in stack && x != p { StackRest(stack, x); }
      }
    }
  }

  lemma StackRest(stack: seq<int>, x: int)
    requires stack != [] && x in stack && x != stack[|stack| - 1]
    ensures x in stack[..|stack| - 1]
  {
    var k :| 0 <= k < |stack| && stack[k] == x;
    assert stack[..|stack| - 1][k] == x;
  }

  /** An item ends its path. */
  lemma ScanItem(code: seq<Byte>, syn: Syntax, r: Re, fast: Fastmap, nullable: bool, v: set<int>, stack: seq<int>,
          p: nat, fast2: Fastmap)
    requires Scan(code, syn, r, fast, nullable, v, stack, p, true)
    requires p < |code| && IsItem(code[p])
    requires forall c: Byte :: fast2[c] <==> fast[c] || Offers(code, syn, p, c)
    ensures Scan(code, syn, r, fast2, nullable, v, stack, |code|, false)
  {
    hide Live, InLanguage;
    ItemClosed(code, syn, v, p, fast2);
    forall c: Byte | fast2[c] ensures CanStart(code, syn, r, c) {
      if !fast[c] { assert Live(code, syn, r, p) && Offers(code, syn, p, c); }
    }
    hide ClosedAt, CanStart, Offers;
    if !nullable {
      forall x | x in v ensures Waiting(stack, |code|, false, x) || ClosedAt(syn, code, fast2, v, x) {
        if ClosedAt(syn, code, fast, v, x) { ClosedGrows(syn, code, fast, v, fast2, v, x); }
      }
    }
  }

  lemma ItemClosed(code: seq<Byte>, syn: Syntax, v: set<int>, p: nat, fast: Fastmap)
    requires p < |code| && IsItem(code[p])
    requires forall c: Byte :: Offers(code, syn, p, c) ==> fast[c]
    ensures ClosedAt(syn, code, fast, v, p)
  {
    hide BitmapAt, InBitmap;
    if code[p] == EXACTN { assert Offers(code, syn, p, Get(code, p + 2)); }
    if code[p] == ANYCHAR {
      forall c: Byte | DotAccepts(syn, c) ensures fast[c] { assert Offers(code, syn, p, c); }
    }
    if code[p] == CHARSET || code[p] == CHARSET_NOT {
      forall c: Byte | SetAccepts(code[p] == CHARSET_NOT, BitmapAt(code, p), c)
        ensures fast[c]
      {
        assert Offers(code, syn, p, c);
      }
    }
  }

  /** The next path is taken from the stack; if the last one reached the end, the pattern matches the empty string. */
  lemma ScanPop(code: seq<Byte>, syn: Syntax, r: Re, fast: Fastmap, nullable: bool, v: set<int>, stack: seq<int>,
          p: int, path: bool)
    requires Scan(code, syn, r, fast, nullable, v, stack, p, path) && stack != []
    requires path ==> InLanguage(syn, r, [])
    ensures Scan(code, syn, r, fast, nullable || path, v, stack[..|stack| - 1], stack[|stack| - 1], true)
  {
    hide Live, ClosedAt, CanStart, InLanguage;
    var rest, top := stack[..|stack| - 1], stack[|stack| - 1];
    if !nullable && !path {
      forall x | x in v ensures Waiting(rest, top, true, x) || ClosedAt(syn, code, fast, v, x) {
        if x in stack && x != top { StackRest(stack, x); }
      }
    }
  }

  /** With nothing left to follow, the map and the flag are right. */
  lemma ScanDone(code: seq<Byte>, syn: Syntax, r: Re, nsub: nat, fast: Fastmap, nullable: bool, v: set<int>, p: int,
          path: bool)
    requires Pattern(code, syn, r, nsub) && Scan(code, syn, r, fast, nullable, v, [], p, path)
    requires path ==> InLanguage(syn, r, [])
    ensures nullable || path <==> InLanguage(syn, r, [])
    ensures !(nullable || path) ==> forall s :: InLanguage(syn, r, s) ==> s != [] && fast[s[0]]
  {
    hide Live, ClosedAt, CanStart, InLanguage, Program, Sized, RegsWithin, PlainDotLines, AltsGrouped;
    if !nullable && !path {
      assert AllClosed(syn, code, fast, v);
      forall s | InLanguage(syn, r, s) ensures s != [] && fast[s[0]] {
        FirstOfProgram(code, r, syn, fast, v, s);
      }
    }
  }

  lemma ScanNullable(code: seq<Byte>, syn: Syntax, r: Re, fast: Fastmap, nullable: bool, v: set<int>, stack: seq<int>,
          p: int, y: int)
    requires Scan(code, syn, r, fast, nullable, v, stack, p, true) && Live(code, syn, r, y) && InLanguage(syn, r, [])
    ensures Scan(code, syn, r, fast, true, v + {y}, stack, y, true)
  {
    hide Live, ClosedAt, CanStart, InLanguage;
  }

  lemma ScanStart(code: seq<Byte>, syn: Syntax, r: Re, fast: Fastmap)
    requires forall c: Byte :: !fast[c]
    ensures Scan(code, syn, r, fast, false, {0}, [], 0, true)
  {
    hide Live, ClosedAt, CanStart, InLanguage;
    LiveStart(code, syn, r);
  }

  // ---------- The same on a buffer with decisions made ----------

  lemma SameOpcode(c0: seq<Byte>, c: seq<Byte>, r: Re, x: nat)
    requires Decided(c0, c, r) && x < |c0|
    ensures |c| == |c0|
    ensures c[x] == c0[x] || (c0[x] == MAYBE_POP_JUMP && (c[x] == POP_FAILURE_JUMP || c[x] == JUMP))
  {
    hide Pops, Depth;
    assert ByteDecided(c0, r, x, c[x]);
  }

  lemma SameOffers(c0: seq<Byte>, c: seq<Byte>, syn: Syntax, r: Re, nsub: nat, x: nat, ch: Byte)
    requires Pattern(c0, syn, r, nsub) && Decided(c0, c, r) && Live(c0, syn, r, x) && x < |c0| && IsItem(c0[x])
    ensures Offers(c, syn, x, ch) <==> Offers(c0, syn, x, ch)
  {
    hide Pattern, Decided, Boundary, Inside, BitmapAt, SetAccepts;
    var job := Textless(c0, syn);
    TextlessCompiled(c0, syn, r, nsub);
    SameOpcode(c0, c, r, x);
    GetIs(c0, x);
    GetIs(c, x);
    if c0[x] == EXACTN {
      ItemCount(job, r, nsub, c, x);
      SameItem(job, r, nsub, c, x, x + 2);
    } else if c0[x] != ANYCHAR {
      SameBitmap(job, r, nsub, c, x);
    }
  }

  lemma SameBeyond(c0: seq<Byte>, c: seq<Byte>, syn: Syntax, r: Re, nsub: nat, x: nat)
    requires Pattern(c0, syn, r, nsub) && Decided(c0, c, r) && Live(c0, syn, r, x) && x < |c0|
    requires IsPlainJump(c0[x]) || IsFork(c0[x])
    ensures Target(c, x) == Target(c0, x) && Offset(c, x) == Offset(c0, x)
    ensures IsPlainJump(c0[x]) ==> Beyond(c, x) == Beyond(c0, x)
    ensures IsPlainJump(c0[x]) ==> (Get(c, Target(c, x)) == ON_FAILURE_JUMP
            <==> Get(c0, Target(c0, x)) == ON_FAILURE_JUMP)
    ensures Target(c0, x) >= 0
  {
    hide Pattern, Decided, Depth, Len, Inside, Target, Offset;
    var job := Textless(c0, syn);
    TextlessCompiled(c0, syn, r, nsub);
    InCode(job, r, nsub, x);
    GetIs(c0, x);
    SameTarget(job, r, nsub, c, x);
    if IsFork(c0[x]) {
      ForkForward(c0, syn, r, nsub, x);
    } else {
      var t := Target(c0, x);
      JumpLands(job, r, nsub, x);
      SameTest(c0, c, r, t, ON_FAILURE_JUMP);
      if Get(c0, t) == ON_FAILURE_JUMP {
        EndOp(job, r, nsub, t);
        SameTarget(job, r, nsub, c, t);
      }
    }
  }

  // ---------- The scan ----------

  /** The characters of a charset or charset_not, from the highest bit down. */
  method AddSet(code: seq<Byte>, syn: Syntax, p: nat, fastmap: array<bool>)
    requires fastmap.Length == 256 && p < |code| && (code[p] == CHARSET || code[p] == CHARSET_NOT)
    requires p + 2 + Get(code, p + 1) <= |code| && Get(code, p + 1) <= 32
    modifies fastmap
    ensures forall c: Byte :: fastmap[c] <==> old(fastmap[c]) || Offers(code, syn, p, c)
  {
    var negated := code[p] == CHARSET_NOT;
    var width := 8 * (code[p + 1] as int);
    if negated {
      var j := width;
      while j < 256
        invariant width <= j <= 256
        invariant forall c: Byte :: fastmap[c] <==> old(fastmap[c]) || width <= c < j
      {
        fastmap[j] := true;
        j := j + 1;
      }
    }
    label before:
    ghost var bits := BitmapAt(code, p);
    assert |bits| == code[p + 1] && forall k :: 0 <= k < |bits| ==> bits[k] == code[p + 2 + k];
    var j := width - 1;
    while j >= 0
      invariant -1 <= j < width
      invariant forall c: Byte :: fastmap[c] <==>
        old@before(fastmap[c]) || (j < c < width && InBitmap(bits, c) != negated)
    {
      var listed := Bit(code[p + 2 + j / 8], j % 8);
      assert listed == InBitmap(bits, j);
      if listed != negated { fastmap[j] := true; }
      j := j - 1;
    }
  }

  /** `.' matches anything except perhaps newline. */
  method AddAny(code: seq<Byte>, syn: Syntax, p: nat, fastmap: array<bool>)
    requires fastmap.Length == 256 && p < |code| && code[p] == ANYCHAR
    modifies fastmap
    ensures forall c: Byte :: fastmap[c] <==> old(fastmap[c]) || Offers(code, syn, p, c)
  {
    var newline := fastmap[NEWLINE];
    var j := 0;
    while j < 256
      invariant 0 <= j <= 256
      invariant forall c: Byte :: fastmap[c] <==> old(fastmap[c]) || c < j
    {
      fastmap[j] := true;
      j := j + 1;
    }
    if !syn.dotNewline { fastmap[NEWLINE] := newline; }
  }

  method AddItem(code: seq<Byte>, syn: Syntax, p: nat, fastmap: array<bool>)
    requires fastmap.Length == 256 && p < |code| && IsItem(code[p])
    requires code[p] == CHARSET || code[p] == CHARSET_NOT ==>
      p + 2 + Get(code, p + 1) <= |code| && Get(code, p + 1) <= 32
    modifies fastmap
    ensures forall c: Byte :: fastmap[c] <==> old(fastmap[c]) || Offers(code, syn, p, c)
  {
    if code[p] == EXACTN { fastmap[Get(code, p + 2)] := true; }
    else if code[p] == ANYCHAR { AddAny(code, syn, p, fastmap); }
    else { AddSet(code, syn, p, fastmap); }
  }

  /** What an address the scan is at allows, read from the buffer as it is. */
  lemma ScanOp(c0: seq<Byte>, c: seq<Byte>, syn: Syntax, r: Re, nsub: nat, p: nat)
    requires Pattern(c0, syn, r, nsub) && Decided(c0, c, r) && Live(c0, syn, r, p)
    ensures |c| == |c0| && p <= |c0|
    ensures p == |c0| || c[p] == SUCCEED ==> InLanguage(syn, r, [])
    ensures p < |c0| && c[p] != SUCCEED ==>
      && (IsItem(c[p]) <==> IsItem(c0[p])) && (IsFork(c[p]) <==> IsFork(c0[p]))
         && (IsPlainJump(c[p]) <==> IsPlainJump(c0[p]))
      && (IsItem(c[p]) ==> c[p] == c0[p])
      && (!IsItem(c[p]) && !IsFork(c[p]) && !IsPlainJump(c[p]) ==>
            c[p] == c0[p] && (c[p] == START_MEMORY || c[p] == STOP_MEMORY || c[p] == PUSH_DUMMY_FAILURE))
      && (c[p] == CHARSET || c[p] == CHARSET_NOT ==> p + 2 + Get(c, p + 1) <= |c| && Get(c, p + 1) <= 32)
  {
    hide Pattern, Decided, Boundary, Inside, Len, InLanguage, Live;
    LiveOp(c0, syn, r, nsub, p);
    if p == Len(r) { LiveEnd(c0, syn, r); }
    if p < |c0| {
      SameOpcode(c0, c, r, p);
      if c[p] == CHARSET || c[p] == CHARSET_NOT { ScanWidth(c0, c, syn, r, nsub, p); }
    } else {
      SameLength(c0, c, r);
    }
  }

  lemma ScanWidth(c0: seq<Byte>, c: seq<Byte>, syn: Syntax, r: Re, nsub: nat, p: nat)
    requires Pattern(c0, syn, r, nsub) && Decided(c0, c, r) && Live(c0, syn, r, p) && p < |c0|
    requires c0[p] == CHARSET || c0[p] == CHARSET_NOT
    ensures Get(c, p + 1) == Get(c0, p + 1)
  {
    hide Pattern, Decided, Boundary, Inside;
    TextlessCompiled(c0, syn, r, nsub);
    GetIs(c0, p);
    ItemCount(Textless(c0, syn), r, nsub, c, p);
  }

  lemma ClosedSimple(code: seq<Byte>, syn: Syntax, fast: Fastmap, v: set<int>, p: nat, y: int)
    requires p < |code| && code[p] != SUCCEED
    requires (IsPlainJump(code[p]) && y == Beyond(code, p))
      || ((code[p] == START_MEMORY || code[p] == STOP_MEMORY) && y == p + 3)
         || (code[p] == PUSH_DUMMY_FAILURE && y == p + 1)
    ensures ClosedAt(syn, code, fast, v + {y}, p)
  {
    hide Beyond;
  }

  lemma ClosedFork(code: seq<Byte>, syn: Syntax, fast: Fastmap, v: set<int>, p: nat)
    requires p < |code| && IsFork(code[p])
    ensures ClosedAt(syn, code, fast, v + {p + 3, Target(code, p)}, p)
  {
    hide Target;
  }

  lemma WeightSnoc(code: seq<Byte>, stack: seq<int>, t: int)
    ensures WeightOf(code, stack + [t]) == WeightOf(code, stack) + Weight(code, t)
  {
    assert (stack + [t])[..|stack|] == stack;
  }

  lemma WeightPop(code: seq<Byte>, stack: seq<int>, p: int)
    requires stack != []
    ensures var n := |stack| - 1;
            WeightOf(code, stack[..n]) + Weight(code, stack[n]) < WeightOf(code, stack) + Weight(code, p)
  {
  }

  lemma WeightDrop(code: seq<Byte>, stack: seq<int>)
    requires stack != []
    ensures WeightOf(code, stack[..|stack| - 1]) < WeightOf(code, stack)
  {
  }

  lemma ItemWeight(code: seq<Byte>, p: nat)
    requires p < |code| && IsItem(code[p])
    ensures Weight(code, |code|) < Weight(code, p)
  {
  }

  lemma ScanAt(code: seq<Byte>, syn: Syntax, r: Re, fast: Fastmap, nullable: bool, v: set<int>, stack: seq<int>,
          p: int, path: bool)
    requires Scan(code, syn, r, fast, nullable, v, stack, p, path)
    ensures if path then p >= 0 && Live(code, syn, r, p) else p == |code|
  {
    hide Depth, Len, Inside;
  }

  lemma ScanNull(code: seq<Byte>, syn: Syntax, r: Re, fast: Fastmap, v: set<int>, stack: seq<int>, p: int, path: bool)
    requires Scan(code, syn, r, fast, true, v, stack, p, path)
    ensures InLanguage(syn, r, [])
  {
    hide Live, ClosedAt, CanStart, InLanguage;
  }

  /** What the scan has put in the map so far can start a match. */
  lemma OnlyBegins(code: seq<Byte>, syn: Syntax, r: Re, nsub: nat, fast: Fastmap, nullable: bool, v: set<int>,
          stack: seq<int>, p: int, path: bool)
    requires Pattern(code, syn, r, nsub) && Scan(code, syn, r, fast, nullable, v, stack, p, path)
    ensures forall c: Byte :: fast[c] ==> Begins(syn, r, c)
  {
    hide Pattern, Live, ClosedAt, CanStart, InLanguage, Begins;
    forall c: Byte | fast[c] ensures Begins(syn, r, c) { CanStartBegins(code, syn, r, nsub, c); }
  }

  lemma AllSameOffers(c0: seq<Byte>, c: seq<Byte>, syn: Syntax, r: Re, nsub: nat, x: nat)
    requires Pattern(c0, syn, r, nsub) && Decided(c0, c, r) && Live(c0, syn, r, x) && x < |c0| && IsItem(c0[x])
    ensures forall ch: Byte :: Offers(c, syn, x, ch) <==> Offers(c0, syn, x, ch)
  {
    hide Pattern, Decided, Live, Offers;
    forall ch: Byte
      ensures Offers(c, syn, x, ch) <==> Offers(c0, syn, x, ch)
    {
      SameOffers(c0, c, syn, r, nsub, x, ch);
    }
  }

  /** A path to the end of the buffer has matched the empty string. */
  lemma WholeEnd(code: seq<Byte>, syn: Syntax, r: Re, nsub: nat, to: int)
    requires Pattern(code, syn, r, nsub) && Live(code, syn, r, to) && to >= |code|
    ensures InLanguage(syn, r, [])
  {
    hide Pattern, Boundary, Inside, Len, InLanguage, Live;
    LiveOp(code, syn, r, nsub, to);
    LiveEnd(code, syn, r);
  }

  lemma BeyondIs(code: seq<Byte>, x: int)
    ensures Beyond(code, x) ==
      if Offset(code, x) > 0 || Get(code, Target(code, x)) != ON_FAILURE_JUMP then Target(code, x)
      else Target(code, Target(code, x))
  {
    hide Target, Offset;
  }

  method Clear(fastmap: array<bool>)
    modifies fastmap
    ensures forall k :: 0 <= k < fastmap.Length ==> !fastmap[k]
  {
    for k := 0 to fastmap.Length
      invariant forall j :: 0 <= j < k ==> !fastmap[j]
    {
      fastmap[k] := false;
    }
  }

  /** re_compile_fastmap, on a buffer some of whose maybe_pop_jumps may have been decided already. `room' bounds the
      stack; false means it overflowed. The flag is set exactly when the pattern matches the empty string. If it does
      not, every match starts with a character in the map. And only characters that some item can take first are
      there. */
  method CompileFastmap(code: seq<Byte>, syn: Syntax, fastmap: array<bool>, room: nat, ghost c0: seq<Byte>,
          ghost r: Re, ghost nsub: nat)
    returns (ok: bool, canBeNull: bool)
    requires fastmap.Length == 256 && Pattern(c0, syn, r, nsub) && Decided(c0, code, r)
    modifies fastmap
    ensures ok ==> (canBeNull <==> InLanguage(syn, r, []))
    ensures ok && !canBeNull ==> forall s :: InLanguage(syn, r, s) ==> s != [] && fastmap[s[0]]
    ensures forall c: Byte :: fastmap[c] ==> Begins(syn, r, c)
  {
    hide Pattern, Decided, Scan, Live, InLanguage, CanStart, Beyond, Target, Offers, Weight, WeightOf,
         Begins;
    Clear(fastmap);
    var stack: seq<int> := [];
    var p: int := 0;
    var path := true;
    canBeNull := false;
    ghost var v: set<int> := {0};
    ScanStart(c0, syn, r, fastmap[..]);
    while true
      invariant Scan(c0, syn, r, fastmap[..], canBeNull, v, stack, p, path)
      decreases WeightOf(c0, stack) + Weight(c0, p)
    {
      ScanAt(c0, syn, r, fastmap[..], canBeNull, v, stack, p, path);
      if path { ScanOp(c0, code, syn, r, nsub, p); } else { SameLength(c0, code, r); }
      if p == |code| || code[p] == SUCCEED {
        if stack == [] { break; }
        ScanPop(c0, syn, r, fastmap[..], canBeNull, v, stack, p, path);
        WeightPop(c0, stack, p);
        canBeNull := canBeNull || path;
        path := true;
        p := stack[|stack| - 1];
        stack := stack[..|stack| - 1];
      } else if IsItem(code[p]) {
        ghost var was, x := fastmap[..], p;
        AddItem(code, syn, p, fastmap);
        AllSameOffers(c0, code, syn, r, nsub, x);
        ScanItem(c0, syn, r, was, canBeNull, v, stack, x, fastmap[..]);
        ItemWeight(c0, x);
        if code[p] == ANYCHAR && syn.dotNewline && canBeNull {
          // The map is irrelevant now.
          ScanNull(c0, syn, r, fastmap[..], v, stack, |c0|, false);
          OnlyBegins(c0, syn, r, nsub, fastmap[..], true, v, stack, |c0|, false);
          return true, true;
        }
        path := false;
        p := |code|;
      } else if IsFork(code[p]) {
        ForkStep(c0, syn, r, nsub, p);
        SameBeyond(c0, code, syn, r, nsub, p);
        ClosedFork(c0, syn, fastmap[..], v, p);
        var to := Target(code, p);
        if to < |code| {
          if |stack| >= room {
            OnlyBegins(c0, syn, r, nsub, fastmap[..], canBeNull, v, stack, p, path);
            return false, canBeNull;
          }
          ScanFork(c0, syn, r, fastmap[..], canBeNull, v, stack, p, p + 3, to);
          WeightSnoc(c0, stack, to);
          stack := stack + [to];
          v := v + {p + 3, to};
        } else {
          WholeEnd(c0, syn, r, nsub, to);
          ScanNullable(c0, syn, r, fastmap[..], canBeNull, v, stack, p, p + 3);
          canBeNull := true;
          v := v + {p + 3};
        }
        p := p + 3;
      } else if IsPlainJump(code[p]) {
        JumpStep(c0, syn, r, nsub, p);
        SameBeyond(c0, code, syn, r, nsub, p);
        ghost var y := Beyond(c0, p);
        ClosedSimple(c0, syn, fastmap[..], v, p, y);
        ScanMove(c0, syn, r, fastmap[..], canBeNull, v, stack, p, y);
        v := v + {y};
        var offset := Offset(code, p);
        BeyondIs(code, p);
        p := Target(code, p);
        if offset <= 0 && Get(code, p) == ON_FAILURE_JUMP {
          p := Target(code, p);
          if stack != [] && stack[|stack| - 1] == p {
            ScanDrop(c0, syn, r, fastmap[..], canBeNull, v, stack, p);
            WeightDrop(c0, stack);
            stack := stack[..|stack| - 1];
          }
        }
      } else {
        var y := if code[p] == PUSH_DUMMY_FAILURE then p + 1 else p + 3;
        SimpleStep(c0, syn, r, nsub, p, y);
        ClosedSimple(c0, syn, fastmap[..], v, p, y);
        ScanMove(c0, syn, r, fastmap[..], canBeNull, v, stack, p, y);
        v := v + {y};
        p := y;
      }
    }
    OnlyBegins(c0, syn, r, nsub, fastmap[..], canBeNull, v, stack, p, path);
    ScanDone(c0, syn, r, nsub, fastmap[..], canBeNull, v, p, path);
    canBeNull := canBeNull || path;
    ok := true;
  }
}
