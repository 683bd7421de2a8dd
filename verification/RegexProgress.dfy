/** What the compiler has established about the tokens it has read. */
module RegexProgress {
  import opened Wrappers
  import opened RegexTree
  import opened RegexCode
  import opened RegexLayout
  import opened RegexGrammar
  import opened RegexLevels
  import opened RegexEmission

  predicate AtStart(toks: seq<Token>, k: nat)
    requires k <= |toks|
  {
    k == 0 || toks[k - 1].Open? || toks[k - 1].Bar?
  }

  /** A repetition character with no expression before it. */
  predicate BadRepeatAt(toks: seq<Token>, k: nat) {
    k < |toks| && IsRepeat(toks[k]) && AtStart(toks, k)
  }

  /** A `)' with no group open. */
  predicate UnmatchedAt(toks: seq<Token>, k: nat) {
    k < |toks| && toks[k].Close? && Nesting(toks[..k]) == 0
  }

  predicate NoErrorBefore(syn: Syntax, toks: seq<Token>, k: nat) {
    forall j :: 0 <= j < k ==>
      (UnmatchedAt(toks, j) ==> syn.unmatchedOrd) && (BadRepeatAt(toks, j) ==> !syn.invalidOps)
  }

  predicate EscapedBefore(toks: seq<Token>, k: nat) {
    exists j :: 0 <= j < k - 1 && EscapedDotLineAt(toks, j)
  }

  predicate RepeatNext(toks: seq<Token>, k: nat) {
    k < |toks| && IsRepeat(toks[k])
  }

  /** The first k tokens are read. */
  ghost predicate Progress(syn: Syntax, toks: seq<Token>, k: nat, outer: seq<Level>, cur: Level, w: Places) {
    && k <= |toks|
    && Reading(syn, outer, cur, toks[..k])
    && Starts(cur, w)
    && Nesting(toks[..k]) == |outer|
    && (AllPlain(outer, cur) <==> syn.dotNewline || !EscapedBefore(toks, k))
    && (syn.invalidOps ==> (w.laststart.None? <==> AtStart(toks, k)))
    && (k > 0 && toks[k - 1].Lit? ==> w.laststart.Some?)
    && (RepeatNext(toks, k) && w.laststart.Some? ==>
          IsAtom(syn, cur.branch.b, NothingBefore(cur.branch.a), outer == []))
    && NoErrorBefore(syn, toks, k)
  }

  lemma EscapedGrows(toks: seq<Token>, k: nat)
    ensures EscapedBefore(toks, k + 1) <==> EscapedBefore(toks, k) || (k >= 1 && EscapedDotLineAt(toks, k - 1))
  {
    if k >= 1 && EscapedDotLineAt(toks, k - 1) { assert EscapedBefore(toks, k + 1); }
    if EscapedBefore(toks, k) {
      var j :| 0 <= j < k - 1 && EscapedDotLineAt(toks, j);
      assert 0 <= j < (k + 1) - 1 && EscapedDotLineAt(toks, j);
    }
  }

  /** Reading one more literal, `.' or bracket expression. */
  lemma OneMore(syn: Syntax, toks: seq<Token>, k: nat, outer: seq<Level>, cur: Level, w: Places, cur2: Level,
          w2: Places)
    requires Progress(syn, toks, k, outer, cur, w) && k < |toks|
    requires Reading(syn, outer, cur2, toks[..k + 1]) && Starts(cur2, w2) && w2.laststart.Some?
    requires AllPlain(outer, cur2) <==> AllPlain(outer, cur)
    requires RepeatNext(toks, k + 1) ==> IsAtom(syn, cur2.branch.b, NothingBefore(cur2.branch.a), outer == [])
    requires !toks[k].Open? && !toks[k].Bar?
    requires toks[k].Close? ==> syn.unmatchedOrd && outer == []
    requires IsRepeat(toks[k]) ==> !syn.invalidOps && w.laststart.None?
    ensures Progress(syn, toks, k + 1, outer, cur2, w2)
  {
    hide Reading, Starts, AllPlain, Nesting, IsAtom, NothingBefore;
    assert toks[..k + 1] == toks[..k] + [toks[k]];
    NestingSnoc(toks[..k], toks[k]);
    EscapedGrows(toks, k);
  }

  lemma ReadPiece(syn: Syntax, toks: seq<Token>, k: nat, k2: nat, outer: seq<Level>, cur: Level, piece: Re)
    requires k <= k2 <= |toks| && Reading(syn, outer, cur, toks[..k])
    requires IsPiece(syn, piece, NothingBefore(cur.branch), outer == [])
    requires Numbered(piece, Groups(outer, cur))
    requires Yield(piece) == toks[k..k2]
    ensures Reading(syn, outer, WithPiece(cur, piece), toks[..k2])
    ensures AllPlain(outer, WithPiece(cur, piece)) <==> AllPlain(outer, cur) && PlainDotLines(piece)
  {
    hide Reading, AllPlain, IsPiece, NothingBefore, Numbered, Groups, PlainDotLines;
    AddPiece(syn, outer, cur, toks[..k], piece);
    assert toks[..k] + toks[k..k2] == toks[..k2];
  }

  /** The last piece, with the tokens after it, read as another piece. */
  lemma ReadInstead(syn: Syntax, toks: seq<Token>, k: nat, k2: nat, outer: seq<Level>, cur: Level, piece: Re)
    requires k <= k2 <= |toks| && Reading(syn, outer, cur, toks[..k]) && cur.branch.Cat?
    requires IsPiece(syn, piece, NothingBefore(cur.branch.a), outer == [])
    requires forall lo: nat :: Numbered(cur.branch.b, lo) ==> Numbered(piece, lo)
    requires Yield(piece) == Yield(cur.branch.b) + toks[k..k2]
    ensures var rest := cur.(branch := cur.branch.a);
            && Reading(syn, outer, WithPiece(rest, piece), toks[..k2])
            && (AllPlain(outer, WithPiece(rest, piece)) <==> AllPlain(outer, rest) && PlainDotLines(piece))
            && (AllPlain(outer, cur) <==> AllPlain(outer, rest) && PlainDotLines(cur.branch.b))
            && IsPiece(syn, cur.branch.b, NothingBefore(cur.branch.a), outer == [])
            && |Yield(cur.branch.b)| <= k && toks[k - |Yield(cur.branch.b)|..k] == Yield(cur.branch.b)
  {
    hide Reading, AllPlain, IsPiece, NothingBefore, Numbered, Groups, PlainDotLines, Yield;
    BranchFirst(syn, outer, cur, toks[..k]);
    DropPiece(syn, outer, cur, toks[..k]);
    var rest := cur.(branch := cur.branch.a);
    var k0 := k - |Yield(cur.branch.b)|;
    assert toks[..k][..k0] == toks[..k0] && toks[..k][k0..] == toks[k0..k];
    assert toks[k0..k] + toks[k..k2] == toks[k0..k2];
    ReadPiece(syn, toks, k0, k2, outer, rest, piece);
  }

  // ---------- Literals ----------

  lemma ExactFacts(t: Token, ts: seq<Token>)
    ensures Yield(Exact([t])) == [t] && GroupCount(Exact([t])) == 0 && PlainDotLines(Exact([t]))
    ensures GroupCount(Exact(ts)) == 0 && PlainDotLines(Exact(ts)) && forall lo: nat :: Numbered(Exact(ts), lo)
    ensures Chars(ts + [t]) == Chars(ts) + [CharOf(t)]
  {
  }

  /** A new literal run of one character. */
  lemma NewExact(syn: Syntax, toks: seq<Token>, k: nat, outer: seq<Level>, cur: Level)
    requires k < |toks| && Reading(syn, outer, cur, toks[..k])
    requires LiteralOk(syn, toks[k], NothingBefore(cur.branch), outer == [])
    ensures var cur2 := WithPiece(cur, Exact([toks[k]]));
            && Reading(syn, outer, cur2, toks[..k + 1])
            && (AllPlain(outer, cur2) <==> AllPlain(outer, cur))
            && IsAtom(syn, cur2.branch.b, NothingBefore(cur2.branch.a), outer == [])
    ensures Code(Exact([toks[k]])) == [EXACTN, 1, CharOf(toks[k])] && GroupCount(Exact([toks[k]])) == 0
  {
    hide Reading, AllPlain, Groups, NothingBefore, LiteralOk;
    ExactFacts(toks[k], [toks[k]]);
    CodeOfExact([toks[k]]);
    ReadPiece(syn, toks, k, k + 1, outer, cur, Exact([toks[k]]));
  }

  /** One more character of the literal run that ends the code. */
  lemma LongerExact(syn: Syntax, toks: seq<Token>, k: nat, outer: seq<Level>, cur: Level, code: seq<Byte>, w: Places)
    requires k < |toks| && Reading(syn, outer, cur, toks[..k]) && Emitted(outer, cur, code, w)
    requires LiteralOk(syn, toks[k], NothingBefore(cur.branch), outer == [])
    requires w.pending.Some? && w.pending.value < |code| && code[w.pending.value] != 255
    requires w.pending.value + code[w.pending.value] + 1 == |code|
    ensures cur.branch.Cat? && cur.branch.b.Exact? && w.pending.value == w.begalt + Len(cur.branch.a) + 1
    ensures var q := w.pending.value;
            var cur2 := cur.(branch := Cat(cur.branch.a, Exact(cur.branch.b.ts + [toks[k]])));
            && Reading(syn, outer, cur2, toks[..k + 1])
            && (AllPlain(outer, cur2) <==> AllPlain(outer, cur))
            && Emitted(outer, cur2, (code + [CharOf(toks[k])])[q := code[q] + 1], w)
  {
    hide Reading, AllPlain, Groups, NothingBefore, LiteralOk, Emitted, Code, Len, Chars, CharOf;
    PendingLast(outer, cur, code, w);
    var ts, t, q := cur.branch.b.ts, toks[k], w.pending.value;
    LongerRun(syn, toks, k, outer, cur);
    LongerBytes(code, q, ts, t);
    ExactFacts(t, ts);
    ExactFacts(t, ts + [t]);
    EmitInstead(outer, cur, code, w, Exact(ts + [t]), (code + [CharOf(t)])[q := code[q] + 1], w);
  }

  lemma LongerRun(syn: Syntax, toks: seq<Token>, k: nat, outer: seq<Level>, cur: Level)
    requires k < |toks| && Reading(syn, outer, cur, toks[..k]) && cur.branch.Cat? && cur.branch.b.Exact?
    requires LiteralOk(syn, toks[k], NothingBefore(cur.branch), outer == [])
    ensures 1 <= |cur.branch.b.ts| <= 255
    ensures |cur.branch.b.ts| < 255 ==>
      var cur2 := cur.(branch := Cat(cur.branch.a, Exact(cur.branch.b.ts + [toks[k]])));
      Reading(syn, outer, cur2, toks[..k + 1]) && (AllPlain(outer, cur2) <==> AllPlain(outer, cur))
  {
    hide Reading, AllPlain, Groups, NothingBefore, LiteralOk;
    BranchFirst(syn, outer, cur, toks[..k]);
    DropPiece(syn, outer, cur, toks[..k]);
    var ts, t := cur.branch.b.ts, toks[k];
    if |ts| < 255 {
      ExactIsSomething(cur.branch);
      ExactFacts(t, ts);
      ExactFacts(t, ts + [t]);
      LiteralAnywhere(syn, t, NothingBefore(cur.branch.a), outer == []);
      ReadInstead(syn, toks, k, k + 1, outer, cur, Exact(ts + [t]));
    }
  }

  lemma LongerBytes(code: seq<Byte>, q: nat, ts: seq<Token>, t: Token)
    requires 1 <= q < |code| && code[q - 1..] == Code(Exact(ts)) && |ts| <= 255 && code[q] != 255
    ensures code[q] == |ts|
    ensures (code + [CharOf(t)])[q := code[q] + 1] == code[..q - 1] + Code(Exact(ts + [t]))
  {
    hide Code, Chars;
    ExactFacts(t, ts);
    CodeOfExact(ts);
    CodeOfExact(ts + [t]);
    assert code[q] == code[q - 1..][1] == |ts|;
    assert code == code[..q - 1] + ([EXACTN, code[q]] + Chars(ts));
    assert (code + [CharOf(t)])[q := code[q] + 1] == code[..q - 1] + ([EXACTN,
           code[q] + 1] + (Chars(ts) + [CharOf(t)]));
  }

  lemma ExactIsSomething(branch: Re)
    requires branch.Cat? && branch.b.Exact?
    ensures !NothingBefore(branch)
  {
  }

  lemma LiteralAnywhere(syn: Syntax, t: Token, start: bool, top: bool)
    requires LiteralOk(syn, t, false, top)
    ensures LiteralOk(syn, t, start, top)
  {
  }

  lemma PendingLast(outer: seq<Level>, cur: Level, code: seq<Byte>, w: Places)
    requires Emitted(outer, cur, code, w) && w.pending.Some?
    ensures w.begalt <= w.pending.value < |code| == w.begalt + Len(cur.branch)
    ensures var q := w.pending.value;
            && q + code[q] + 1 <= |code|
            && (q + code[q] + 1 == |code| ==>
                  && cur.branch.Cat? && cur.branch.b.Exact? && q == w.begalt + Len(cur.branch.a) + 1
                  && q - 1 <= |code| && code[q - 1..] == Code(cur.branch.b))
  {
    hide Code, Len, OuterCode, LevelCode, FramesOk, HeadLen, FixupOf, Groups, PreCode, HeadCode;
    CodeSplit(outer, cur, code, w);
    var q := w.pending.value;
    assert code[q] == code[w.begalt..][q - w.begalt];
    if cur.branch.Cat? { PieceSplit(outer, cur, code, w); }
  }

  // ---------- Repetitions ----------

  /** The first and the last character of a token in the pattern's text. */
  function FirstChar(t: Token): Byte {
    match t
    case Lit(c, escaped) => if escaped then 92 else c
    case Dot => PERIOD
    case Bracket(_, _) => 91
    case Open => 40
    case Close => 41
    case Bar => 124
    case _ => CharOf(t)
  }

  function LastChar(t: Token): Byte {
    match t
    case Lit(c, _) => c
    case Bracket(_, _) => 93
    case _ => FirstChar(t)
  }

  /** The test for the exact sequence `.*\n', made on the characters around the last repetition character. */
  predicate KeepString(syn: Syntax, toks: seq<Token>, k2: nat, zero: bool)
    requires k2 <= |toks|
  {
    && k2 >= 2 && LastChar(toks[k2 - 2]) == PERIOD && zero
    && k2 < |toks| && FirstChar(toks[k2]) == NEWLINE && !syn.dotNewline
  }

  /** The repetition a run of repetition characters stands for. */
  function Looped(body: Re, ops: seq<Token>, keep: bool): Re {
    if !ManyOk(ops) then Optional(body, ops)
    else if keep then DotLine(body)
    else if ZeroOk(ops) then ZeroOrMore(body, ops)
    else OneOrMore(body, ops)
  }

  lemma {:induction false} LoopedFacts(body: Re, ops: seq<Token>, keep: bool)
    requires AllRepeats(ops) && (keep && ManyOk(ops) ==> ops == [Star])
    ensures var r := Looped(body, ops, keep);
            && Yield(r) == Yield(body) + ops && GroupCount(r) == GroupCount(body)
            && (forall lo: nat :: Numbered(r, lo) <==> Numbered(body, lo))
            && (PlainDotLines(r) <==> if keep && ManyOk(ops) then body.AnyChar? else PlainDotLines(body))
            && IsOperand(r) && !r.Exact?
  {
    hide ZeroOk, ManyOk, Numbered, PlainDotLines;
    forall lo: nat ensures Numbered(Looped(body, ops, keep), lo) <==> Numbered(body, lo) {
      LoopedNumbered(body, ops, keep, lo);
    }
    LoopedPlain(body, ops, keep);
  }

  lemma {:induction false} LoopedNumbered(body: Re, ops: seq<Token>, keep: bool, lo: nat)
    ensures Numbered(Looped(body, ops, keep), lo) <==> Numbered(body, lo)
  {
    hide ZeroOk, ManyOk;
  }

  lemma {:induction false} LoopedPlain(body: Re, ops: seq<Token>, keep: bool)
    ensures PlainDotLines(Looped(body, ops, keep)) <==> if keep && ManyOk(ops) then body.AnyChar?
            else PlainDotLines(body)
  {
    hide ZeroOk, ManyOk;
  }

  lemma LeafPlain(body: Re)
    requires body.AnyChar? || IsPeriod(body)
    ensures PlainDotLines(body)
  {
  }

  lemma LoopedIsPiece(syn: Syntax, body: Re, ops: seq<Token>, keep: bool, start: bool, top: bool)
    requires IsAtom(syn, body, start, top) && AllRepeats(ops)
    requires keep && ManyOk(ops) ==> !syn.dotNewline && (body.AnyChar? || IsPeriod(body))
    ensures IsPiece(syn, Looped(body, ops, keep), start, top)
  {
    assert ops[0] != Plus || ops[0] != Quest;
  }

  lemma LoopedCode(body: Re, ops: seq<Token>, keep: bool)
    requires AllRepeats(ops) && (keep && ManyOk(ops) ==> ops == [Star])
    ensures var n := Len(body);
            var many := ManyOk(ops);
            Code(Looped(body, ops, keep)) ==
              (if ZeroOk(ops) then [] else JumpCode(DUMMY_FAILURE_JUMP, 3))
              + JumpCode(if many && keep then ON_FAILURE_KEEP_STRING_JUMP else ON_FAILURE_JUMP,
                         if many then n + 3 else n)
              + Code(body)
              + (if !many then [] else if keep then JumpCode(JUMP, -(n + 3)) else JumpCode(MAYBE_POP_JUMP, -(n + 6)))
  {
    hide Code, Len, Low, High;
    if !ManyOk(ops) {
      assert ops[0] == Quest;
      assert ZeroOk(ops);
      CodeOfOptional(body, ops);
    } else if keep {
      assert ZeroOk(ops);
      CodeOfDotLine(body);
    } else if ZeroOk(ops) {
      CodeOfZeroOrMore(body, ops);
    } else {
      CodeOfOneOrMore(body, ops);
    }
  }

  predicate Run(toks: seq<Token>, k: nat, k2: nat)
    requires k2 <= |toks|
  {
    k < k2 && forall j :: k <= j < k2 ==> IsRepeat(toks[j])
  }

  lemma RunAsOps(toks: seq<Token>, k: nat, k2: nat)
    requires k2 <= |toks| && Run(toks, k, k2)
    ensures AllRepeats(toks[k..k2])
    ensures toks[k..k2][0] == toks[k] && toks[k..k2][k2 - k - 1] == toks[k2 - 1]
    ensures k2 == k + 1 ==> toks[k..k2] == [toks[k]]
  {
  }

  /** What comes before a repetition character, as a tree and as a token. */
  lemma AtomToken(syn: Syntax, body: Re, start: bool, top: bool)
    requires IsAtom(syn, body, start, top)
    ensures Yield(body) != []
    ensures var t := Yield(body)[|Yield(body)| - 1];
            && (LastChar(t) == PERIOD ==> body.AnyChar? || (t.Lit? && IsPeriod(body)))
            && (t.Lit? ==> body == Exact([t]))
            && (t.Dot? ==> body.AnyChar?)
  {
    match body
    case Exact(ts) =>
      assert ts == [ts[0]];
      assert LiteralOk(syn, ts[0], start, top);
    case Group(_, _, b) => assert Yield(body)[|Yield(body)| - 1] == Close;
    case _ =>
  }

  /** Everything about reading a run of repetition characters after an expression. */
  lemma Repeated(syn: Syntax, toks: seq<Token>, k: nat, k2: nat, outer: seq<Level>, cur: Level, w: Places, keep: bool,
          w2: Places)
    requires Progress(syn, toks, k, outer, cur, w) && w.laststart.Some?
    requires k2 <= |toks| && Run(toks, k, k2) && !RepeatNext(toks, k2)
    requires ManyOk(toks[k..k2]) ==> (keep <==> KeepString(syn, toks, k2, ZeroOk(toks[k..k2])))
    requires w2 == w.(pending := None)
    ensures keep && ManyOk(toks[k..k2]) ==> toks[k..k2] == [Star]
    ensures cur.branch.Cat?
    ensures var cur2 := cur.(branch := Cat(cur.branch.a, Looped(cur.branch.b, toks[k..k2], keep)));
            Progress(syn, toks, k2, outer, cur2, w2)
  {
    hide Reading, AllPlain, Nesting, IsAtom, NothingBefore, Numbered, PlainDotLines, Yield, GroupCount, Looped,
         IsPiece, EscapedBefore;
    var ops, body := toks[k..k2], cur.branch.b;
    RunAsOps(toks, k, k2);
    KeepFacts(syn, toks, k, k2, outer, cur, w, keep);
    LoopedFacts(body, ops, keep);
    if keep && ManyOk(ops) { LeafPlain(body); }
    LoopedIsPiece(syn, body, ops, keep, NothingBefore(cur.branch.a), outer == []);
    ReadInstead(syn, toks, k, k2, outer, cur, Looped(body, ops, keep));
    RepeatsNest(toks, k, k2);
    EscapedRun(toks, k, k2);
  }

  /** The test for `.*\n' holds exactly for a lone star between `.', operator or literal, and a newline that is not
      escaped; so it holds wherever an escaped `.' is starred before a newline. */
  lemma KeepFacts(syn: Syntax, toks: seq<Token>, k: nat, k2: nat, outer: seq<Level>, cur: Level, w: Places, keep: bool)
    requires Progress(syn, toks, k, outer, cur, w) && w.laststart.Some?
    requires k2 <= |toks| && Run(toks, k, k2) && !RepeatNext(toks, k2)
    requires ManyOk(toks[k..k2]) ==> (keep <==> KeepString(syn, toks, k2, ZeroOk(toks[k..k2])))
    ensures cur.branch.Cat? && k >= 1
    ensures var body := cur.branch.b;
            && (keep && ManyOk(toks[k..k2]) ==>
                 && toks[k..k2] == [Star] && k2 == k + 1 && !syn.dotNewline && (body.AnyChar? || IsPeriod(body))
                 && (body.AnyChar? <==> !EscapedDotLineAt(toks, k - 1)))
            && (EscapedDotLineAt(toks, k - 1) && !syn.dotNewline ==> keep && ManyOk(toks[k..k2]))
    ensures keep && ManyOk(toks[k..k2]) <==> !syn.dotNewline && toks[k] == Star && IsDot(toks[k - 1])
                                             && k + 1 < |toks| && toks[k + 1] == Lit(NEWLINE, false)
  {
    hide AllPlain, Nesting, IsAtom, NothingBefore, Numbered, PlainDotLines, Yield, GroupCount, EscapedBefore, Reading;
    var ops, body := toks[k..k2], cur.branch.b;
    RunAsOps(toks, k, k2);
    AtomToken(syn, body, NothingBefore(cur.branch.a), outer == []);
    BranchFirst(syn, outer, cur, toks[..k]);
    DropPiece(syn, outer, cur, toks[..k]);
    var n := |Yield(body)|;
    assert toks[k - 1] == toks[..k][k - n..][n - 1] == Yield(body)[n - 1];
    if keep && ManyOk(ops) {
      BeforeLastOp(toks, k, k2);
      OneOp(toks[k]);
    }
    if toks[k] == Star && k + 1 < |toks| && toks[k + 1] == Lit(NEWLINE, false) {
      LoneOp(toks, k, k2);
      OneOp(Star);
    }
  }

  lemma LoneOp(toks: seq<Token>, k: nat, k2: nat)
    requires k2 <= |toks| && Run(toks, k, k2) && k + 1 < |toks| && !IsRepeat(toks[k + 1])
    ensures k2 == k + 1
  {
  }

  /** The operator `.', or a literal one. */
  predicate IsDot(t: Token) { t == Dot || (t.Lit? && t.c == PERIOD) }

  lemma BeforeLastOp(toks: seq<Token>, k: nat, k2: nat)
    requires k2 <= |toks| && Run(toks, k, k2)
    ensures k2 >= k + 2 ==> LastChar(toks[k2 - 2]) != PERIOD
  {
  }

  lemma OneOp(t: Token)
    requires IsRepeat(t)
    ensures ZeroOk([t]) <==> t != Plus
    ensures ManyOk([t]) <==> t != Quest
  {
    assert [t][0] == t;
  }

  lemma {:induction false} RepeatsNest(toks: seq<Token>, k: nat, k2: nat)
    requires k2 <= |toks| && (k == k2 || Run(toks, k, k2))
    ensures Nesting(toks[..k2]) == Nesting(toks[..k])
    decreases k2
  {
    if k < k2 {
      RepeatsNest(toks, k, k2 - 1);
      assert toks[..k2] == toks[..k2 - 1] + [toks[k2 - 1]];
      NestingSnoc(toks[..k2 - 1], toks[k2 - 1]);
    }
  }

  lemma {:induction false} EscapedRun(toks: seq<Token>, k: nat, k2: nat)
    requires k2 <= |toks| && Run(toks, k, k2)
    ensures EscapedBefore(toks, k2) <==> EscapedBefore(toks, k) || (k >= 1 && EscapedDotLineAt(toks, k - 1))
    decreases k2
  {
    hide EscapedBefore;
    EscapedGrows(toks, k2 - 1);
    if k < k2 - 1 {
      EscapedRun(toks, k, k2 - 1);
    }
  }

  /** A run of repetition characters with nothing before it leaves no code. */
  lemma IgnoredRun(syn: Syntax, toks: seq<Token>, k: nat, k2: nat, outer: seq<Level>, cur: Level, w: Places)
    requires Progress(syn, toks, k, outer, cur, w) && w.laststart.None? && syn.indepOps && !syn.invalidOps
    requires k2 <= |toks| && Run(toks, k, k2) && !RepeatNext(toks, k2)
    ensures Progress(syn, toks, k2, outer, WithPiece(cur, Ignored(toks[k..k2])), w)
    ensures Code(Ignored(toks[k..k2])) == [] && GroupCount(Ignored(toks[k..k2])) == 0
  {
    hide Reading, AllPlain, Nesting, IsAtom, EscapedBefore, Numbered;
    var ops := toks[k..k2];
    RunAsOps(toks, k, k2);
    var piece := Ignored(ops);
    assert Numbered(piece, Groups(outer, cur)) by { IgnoredFacts(ops, Groups(outer, cur)); }
    IgnoredFacts(ops, 0);
    ReadPiece(syn, toks, k, k2, outer, cur, piece);
    RepeatsNest(toks, k, k2);
    EscapedRun(toks, k, k2);
  }

  lemma IgnoredFacts(ops: seq<Token>, lo: nat)
    ensures Numbered(Ignored(ops), lo) && PlainDotLines(Ignored(ops)) && Yield(Ignored(ops)) == ops
  {
  }

  // ---------- Groups and alternatives ----------

  lemma Openings(syn: Syntax, toks: seq<Token>, k: nat, outer: seq<Level>, cur: Level, w: Places, reg: nat, w2: Places)
    requires Progress(syn, toks, k, outer, cur, w) && k < |toks| && toks[k].Open?
    requires reg == Groups(outer, cur) + 1 && w2.laststart.None? && w2.pending.None?
    ensures Progress(syn, toks, k + 1, outer + [cur.(reg := reg)], Level(None, [], Empty, 0), w2)
  {
    hide Reading, AllPlain, Nesting, IsAtom, EscapedBefore;
    AddOpen(syn, outer, cur, toks[..k], reg);
    StepPrefix(toks, k);
  }

  /** What one more token that is no repetition character does to the facts about the prefix read. */
  lemma StepPrefix(toks: seq<Token>, k: nat)
    requires k < |toks| && !IsRepeat(toks[k])
    ensures toks[..k + 1] == toks[..k] + [toks[k]]
    ensures Nesting(toks[..k + 1]) ==
      match toks[k] case Open => Nesting(toks[..k]) + 1
                    case Close => (if Nesting(toks[..k]) > 0 then Nesting(toks[..k]) - 1 else 0)
                    case _ => Nesting(toks[..k])
    ensures EscapedBefore(toks, k + 1) <==> EscapedBefore(toks, k)
  {
    assert toks[..k + 1] == toks[..k] + [toks[k]];
    NestingSnoc(toks[..k], toks[k]);
    EscapedGrows(toks, k);
  }

  lemma Bars(syn: Syntax, toks: seq<Token>, k: nat, outer: seq<Level>, cur: Level, w: Places, junk: seq<Byte>,
          w2: Places)
    requires Progress(syn, toks, k, outer, cur, w) && k < |toks| && toks[k].Bar? && |junk| == 3
    requires w2.laststart.None? && w2.pending.None?
    ensures Progress(syn, toks, k + 1, outer, Level(Some(LevelTree(cur)), junk, Empty, cur.reg), w2)
  {
    hide Reading, AllPlain, Nesting, IsAtom, EscapedBefore;
    AddBar(syn, outer, cur, toks[..k], junk);
    StepPrefix(toks, k);
  }

  lemma Closings(syn: Syntax, toks: seq<Token>, k: nat, outer: seq<Level>, cur: Level, w: Places, w2: Places)
    requires Progress(syn, toks, k, outer, cur, w) && k < |toks| && toks[k].Close? && outer != []
    requires var l := outer[|outer| - 1];
             w2.pending.None? && w2.laststart == Some(w2.begalt + Len(l.branch))
    ensures var init, l := outer[..|outer| - 1], outer[|outer| - 1];
            Progress(syn, toks, k + 1, init, WithPiece(l, Group(l.reg, GroupCount(LevelTree(cur)), LevelTree(cur))), w2)
  {
    hide AllPlain, Nesting, EscapedBefore, NothingBefore, IsRegex, Yield, GroupCount, OuterOk, OuterCount, OuterYield;
    AddClose(syn, outer, cur, toks[..k]);
    StepPrefix(toks, k);
  }

  lemma OuterFacts(syn: Syntax, toks: seq<Token>, outer: seq<Level>, cur: Level)
    requires Reading(syn, outer, cur, toks)
    ensures !cur.branch.Alt? && (cur.pre.Some? ==> |cur.junk| == 3)
    ensures outer != [] ==>
      var l := outer[|outer| - 1];
      (l.pre.Some? ==> |l.junk| == 3) && l.reg == Groups(outer[..|outer| - 1], l) + 1
  {
    hide IsRegex, Numbered, Yield, GroupCount;
  }

  lemma JunkRead(syn: Syntax, toks: seq<Token>, k: nat, outer: seq<Level>, cur: Level, w: Places, junk: seq<Byte>)
    requires Progress(syn, toks, k, outer, cur, w) && |junk| == 3
    ensures Progress(syn, toks, k, outer, cur.(junk := junk), w)
  {
    hide OuterOk, OuterCount, OuterYield, Nesting, IsAtom, EscapedBefore, IsRegex, Numbered, Yield, PlainDotLines,
         OuterPlain;
    SameTree(cur, junk);
  }

  /** The dummy failure an unmatched `)' leaves is no token. */
  lemma DummyRead(syn: Syntax, toks: seq<Token>, k: nat, outer: seq<Level>, cur: Level)
    requires k <= |toks| && Reading(syn, outer, cur, toks[..k]) && outer == [] && syn.unmatchedOrd
    ensures Reading(syn, outer, WithPiece(cur, Dummy), toks[..k])
    ensures AllPlain(outer, WithPiece(cur, Dummy)) <==> AllPlain(outer, cur)
    ensures Code(Dummy) == [PUSH_DUMMY_FAILURE] && GroupCount(Dummy) == 0 && Len(Dummy) == 1
  {
    hide Reading, AllPlain, Groups;
    assert toks[k..k] == [];
    ReadPiece(syn, toks, k, k, outer, cur, Dummy);
  }

  lemma AnyCharRead(syn: Syntax, toks: seq<Token>, k: nat, outer: seq<Level>, cur: Level)
    requires k < |toks| && Reading(syn, outer, cur, toks[..k]) && toks[k].Dot?
    ensures var cur2 := WithPiece(cur, AnyChar);
            && Reading(syn, outer, cur2, toks[..k + 1]) && (AllPlain(outer, cur2) <==> AllPlain(outer, cur))
            && IsAtom(syn, AnyChar, NothingBefore(cur.branch), outer == [])
    ensures Code(AnyChar) == [ANYCHAR] && GroupCount(AnyChar) == 0 && Len(AnyChar) == 1
  {
    hide Reading, AllPlain, Groups;
    ReadPiece(syn, toks, k, k + 1, outer, cur, AnyChar);
  }

  lemma CharSetRead(syn: Syntax, toks: seq<Token>, k: nat, outer: seq<Level>, cur: Level)
    requires k < |toks| && Reading(syn, outer, cur, toks[..k]) && toks[k].Bracket? && |toks[k].bits| <= 32
    ensures var piece := CharSet(toks[k].negated, toks[k].bits);
            var cur2 := WithPiece(cur, piece);
            && Reading(syn, outer, cur2, toks[..k + 1]) && (AllPlain(outer, cur2) <==> AllPlain(outer, cur))
            && IsAtom(syn, piece, NothingBefore(cur.branch), outer == [])
            && Code(piece) == [if toks[k].negated then CHARSET_NOT else CHARSET, |toks[k].bits|] + toks[k].bits
            && GroupCount(piece) == 0 && Len(piece) >= 2
  {
    hide Reading, AllPlain, Groups;
    ReadPiece(syn, toks, k, k + 1, outer, cur, CharSet(toks[k].negated, toks[k].bits));
  }
}
