/** What regex_compile's pointers into the buffer stand for: where the levels under construction are laid out. */
module RegexEmission {
  import opened Wrappers
  import opened RegexTree
  import opened RegexCode
  import opened RegexLayout
  import opened RegexGrammar
  import opened RegexLevels

  /** One element of the compile stack. */
  datatype Frame = Frame(begalt: nat, fixup: Option<nat>, laststart: nat, reg: nat)

  /** The compiler's state outside the buffer. */
  datatype Places = Places(
    frames: seq<Frame>,        // compile_stack
    begalt: nat,
    laststart: Option<nat>,
    fixup: Option<nat>,        // fixup_alt_jump
    pending: Option<nat>,      // pending_exact
    regnum: nat)

  function HeadLen(l: Level): nat {
    if l.pre.Some? then PreLen(l.pre.value) else 0
  }

  function FixupOf(base: nat, l: Level): (f: Option<nat>)
    ensures f.Some? <==> l.pre.Some?
  {
    if l.pre.Some? then
      PreLenLarge(l.pre.value);
      Some(base + PreLen(l.pre.value) - 3)
    else None
  }

  lemma PreLenLarge(l: Re)
    ensures PreLen(l) >= 6
  {
  }

  lemma HeadCodeLen(l: Level)
    requires l.pre.Some? ==> |l.junk| == 3
    ensures |HeadCode(l)| == HeadLen(l) && |LevelCode(l)| == HeadLen(l) + Len(l.branch)
  {
    hide PreCode, Code, PreLen, Len;
  }

  ghost predicate FrameOk(f: Frame, base: nat, l: Level) {
    && f.begalt == base + HeadLen(l)
    && f.fixup == FixupOf(base, l)
    && f.laststart == base + HeadLen(l) + Len(l.branch)
    && f.reg == l.reg
  }

  ghost predicate FramesOk(frames: seq<Frame>, outer: seq<Level>) {
    && |frames| == |outer|
    && (outer == [] ||
        (var n := |outer| - 1;
         FramesOk(frames[..n], outer[..n]) && FrameOk(frames[n], |OuterCode(outer[..n])|, outer[n])))
  }

  /** pending_exact is the count byte of a literal run of the current branch; when the run ends the code, it is the
      branch's last piece. */
  ghost predicate PendingAt(branch: Re, rel: int) {
    && 0 <= rel < Len(branch)
    && var n := Code(branch)[rel];
       && rel + n + 1 <= Len(branch)
       && (rel + n + 1 == Len(branch) ==> branch.Cat? && branch.b.Exact? && Len(branch.a) == rel - 1)
  }

  ghost predicate PendingOk(pending: Option<nat>, begalt: nat, branch: Re) {
    pending.Some? ==> PendingAt(branch, pending.value - begalt)
  }

  /** The code emitted is that of the levels, and the places are where they should be. */
  ghost predicate Emitted(outer: seq<Level>, cur: Level, code: seq<Byte>, w: Places) {
    && code == OuterCode(outer) + LevelCode(cur)
    && FramesOk(w.frames, outer)
    && w.begalt == |OuterCode(outer)| + HeadLen(cur)
    && w.fixup == FixupOf(|OuterCode(outer)|, cur)
    && w.regnum == Groups(outer, cur)
    && PendingOk(w.pending, w.begalt, cur.branch)
    && (cur.pre.Some? ==> |cur.junk| == 3)
  }

  predicate IsOperand(piece: Re) {
    !piece.Dummy? && !piece.Ignored?
  }

  /** laststart is where the branch's last piece starts, if there is one a repetition could apply to. */
  ghost predicate Starts(cur: Level, w: Places) {
    match w.laststart
    case None => NothingBefore(cur.branch) && w.pending == None
    case Some(ls) => cur.branch.Cat? && IsOperand(cur.branch.b) && ls == w.begalt + Len(cur.branch.a)
  }

  /** The code as what is before the branch, and the branch. */
  lemma CodeSplit(outer: seq<Level>, cur: Level, code: seq<Byte>, w: Places)
    requires Emitted(outer, cur, code, w)
    ensures |code| == w.begalt + Len(cur.branch)
    ensures code[..w.begalt] == OuterCode(outer) + HeadCode(cur) && code[w.begalt..] == Code(cur.branch)
  {
    hide OuterCode, Code, PreCode, FramesOk, Groups, PendingOk, PreLen, Len, HeadLen, HeadCode;
    HeadCodeLen(cur);
    assert code == (OuterCode(outer) + HeadCode(cur)) + Code(cur.branch);
  }

  lemma PieceSplit(outer: seq<Level>, cur: Level, code: seq<Byte>, w: Places)
    requires Emitted(outer, cur, code, w) && cur.branch.Cat?
    ensures var ls := w.begalt + Len(cur.branch.a);
            && ls <= |code|
            && code[..ls] == OuterCode(outer) + HeadCode(cur) + Code(cur.branch.a) && code[ls..] == Code(cur.branch.b)
  {
    hide OuterCode, Code, PreCode, FramesOk, Groups, PendingOk, PreLen, Len, HeadLen, HeadCode;
    HeadCodeLen(cur);
    CodeOfCat(cur.branch.a, cur.branch.b);
    assert code == (OuterCode(outer) + HeadCode(cur) + Code(cur.branch.a)) + Code(cur.branch.b);
  }

  predicate PendingAfter(pending: Option<nat>, old_pending: Option<nat>, begalt: nat, branch: Re, piece: Re) {
    || pending == None
    || (pending == old_pending && Len(piece) > 0)
    || (piece.Exact? && 1 <= |piece.ts| <= 255 && pending == Some(begalt + Len(branch) + 1))
  }

  /** A piece's code goes at the end. */
  lemma EmitPiece(outer: seq<Level>, cur: Level, code: seq<Byte>, w: Places, piece: Re, w2: Places)
    requires Emitted(outer, cur, code, w)
    requires w2.(laststart := None) == w.(laststart := None, pending := w2.pending,
             regnum := w.regnum + GroupCount(piece))
    requires PendingAfter(w2.pending, w.pending, w.begalt, cur.branch, piece)
    ensures Emitted(outer, WithPiece(cur, piece), code + Code(piece), w2)
  {
    hide OuterCode, Code, PreCode, FramesOk, PendingAt, PreLen, Len, HeadLen, HeadCode, FixupOf;
    CodeOfCat(cur.branch, piece);
    assert HeadCode(WithPiece(cur, piece)) == HeadCode(cur) by { HeadSame(cur, piece); }
    var x, y := OuterCode(outer), HeadCode(cur);
    assert x + (y + (Code(cur.branch) + Code(piece))) == x + (y + Code(cur.branch)) + Code(piece);
    assert HeadLen(WithPiece(cur, piece)) == HeadLen(cur) by { HeadSame(cur, piece); }
    assert FixupOf(|x|, WithPiece(cur, piece)) == FixupOf(|x|, cur) by { HeadSame(cur, piece); }
    assert Groups(outer, WithPiece(cur, piece)) == Groups(outer, cur) + GroupCount(piece) by { HeadSame(cur, piece); }
    if w2.pending.Some? {
      if w2.pending == w.pending && Len(piece) > 0 {
        PendingMore(cur.branch, piece, w.pending.value - w.begalt);
      } else {
        PendingNew(cur.branch, piece);
      }
    }
  }

  lemma HeadSame(cur: Level, piece: Re)
    ensures HeadCode(WithPiece(cur, piece)) == HeadCode(cur) && HeadLen(WithPiece(cur, piece)) == HeadLen(cur)
    ensures forall base: nat :: FixupOf(base, WithPiece(cur, piece)) == FixupOf(base, cur)
    ensures GroupCount(LevelTree(WithPiece(cur, piece))) == GroupCount(LevelTree(cur)) + GroupCount(piece)
  {
    hide PreCode, PreLen;
    assert GroupCount(Cat(cur.branch, piece)) == GroupCount(cur.branch) + GroupCount(piece);
  }

  lemma PendingMore(branch: Re, piece: Re, rel: int)
    requires PendingAt(branch, rel) && Len(piece) > 0
    ensures PendingAt(Cat(branch, piece), rel)
  {
    hide Code, Len;
    CodeOfCat(branch, piece);
    assert Code(Cat(branch, piece))[rel] == Code(branch)[rel];
  }

  lemma PendingNew(branch: Re, piece: Re)
    requires piece.Exact? && 1 <= |piece.ts| <= 255
    ensures PendingAt(Cat(branch, piece), Len(branch) + 1)
  {
    hide Code, Len;
    CodeOfCat(branch, piece);
    CodeOfExact(piece.ts);
    assert Code(Cat(branch, piece))[Len(branch) + 1] == Code(piece)[1];
  }

  lemma CodeOfExact(ts: seq<Token>)
    ensures Code(Exact(ts)) == [EXACTN, |ts| % 256] + Chars(ts) && Len(Exact(ts)) == 2 + |ts|
  {
  }

  /** The last piece gives way to another with the same groups: a repetition of it, or a longer run. */
  lemma EmitInstead(outer: seq<Level>, cur: Level, code: seq<Byte>, w: Places, piece: Re, code2: seq<Byte>, w2: Places)
    requires Emitted(outer, cur, code, w) && cur.branch.Cat?
    requires w2.(laststart := None) == w.(laststart := None, pending := w2.pending)
    requires w2.pending == None || (piece.Exact? && 1 <= |piece.ts| <= 255
             && w2.pending == Some(w.begalt + Len(cur.branch.a) + 1))
    requires GroupCount(piece) == GroupCount(cur.branch.b)
    requires var ls := w.begalt + Len(cur.branch.a); ls <= |code| && code2 == code[..ls] + Code(piece)
    ensures Emitted(outer, cur.(branch := Cat(cur.branch.a, piece)), code2, w2)
  {
    hide OuterCode, Code, PreCode, FramesOk, PendingAt, PreLen, Len, HeadLen, HeadCode, FixupOf, GroupCount,
         LevelTree, Emitted;
    var rest := cur.(branch := cur.branch.a);
    assert WithPiece(rest, cur.branch.b) == cur;
    EmitRest(outer, rest, cur.branch.b, code, w);
    HeadSame(rest, cur.branch.b);
    var w1 := w.(pending := None, regnum := Groups(outer, rest));
    EmitPiece(outer, rest, code[..w.begalt + Len(cur.branch.a)], w1, piece, w2);
    assert WithPiece(rest, piece) == cur.(branch := Cat(cur.branch.a, piece));
  }

  lemma EmitRest(outer: seq<Level>, rest: Level, piece: Re, code: seq<Byte>, w: Places)
    requires Emitted(outer, WithPiece(rest, piece), code, w)
    ensures var ls := w.begalt + Len(rest.branch);
            && ls <= |code|
            && Emitted(outer, rest, code[..ls], w.(pending := None, regnum := Groups(outer, rest)))
    ensures w.regnum == Groups(outer, rest) + GroupCount(piece)
  {
    hide OuterCode, Code, PreCode, FramesOk, PendingAt, PreLen, Len, HeadLen, HeadCode, FixupOf, GroupCount, LevelTree;
    PieceSplit(outer, WithPiece(rest, piece), code, w);
    HeadSame(rest, piece);
    assert OuterCode(outer) + (HeadCode(rest) + Code(rest.branch))
           == OuterCode(outer) + HeadCode(rest) + Code(rest.branch);
  }

  // ---------- Alternatives ----------

  /** The place left for a jump after the closed alternatives takes whatever jump is stored there. */
  lemma EmitFixup(outer: seq<Level>, cur: Level, code: seq<Byte>, w: Places, jump: seq<Byte>)
    requires Emitted(outer, cur, code, w) && cur.pre.Some? && |jump| == 3
    ensures w.fixup.Some? && w.fixup.value + 3 <= |code| && w.begalt == w.fixup.value + 3
    ensures Emitted(outer, cur.(junk := jump), Overwritten(code, w.fixup.value, jump), w)
  {
    hide OuterCode, Code, PreCode, FramesOk, PendingOk, PreLen, Len, GroupCount, LevelTree;
    CodeSplit(outer, cur, code, w);
    PreLenLarge(cur.pre.value);
    var x, p := OuterCode(outer), PreCode(cur.pre.value);
    var loc := w.fixup.value;
    assert code[..w.begalt] == (x + p) + cur.junk;
    assert code[..loc] == x + p by { assert code[..loc] == code[..w.begalt][..loc]; }
    assert code[..loc] + jump + code[loc + 3..] == x + ((p + jump) + Code(cur.branch));
    assert Groups(outer, cur.(junk := jump)) == Groups(outer, cur) by { SameTree(cur, jump); }
  }

  lemma SameTree(cur: Level, jump: seq<Byte>)
    ensures LevelTree(cur.(junk := jump)) == LevelTree(cur)
  {
  }

  /** With that jump leading past the branch the level's code is that of its tree. */
  lemma LevelDone(cur: Level)
    requires cur.pre.Some? ==> cur.junk == JumpCode(JUMP_PAST_ALT, Len(cur.branch))
    ensures LevelCode(cur) == Code(LevelTree(cur))
  {
    hide Code, PreCode, Len, JumpCode;
    if cur.pre.Some? { CodeOfAlt(cur.pre.value, cur.branch); }
  }

  /** A jump inserted before the branch, and the jump after the earlier alternatives led to the one that is coming,
      make everything at this level leading alternatives. */
  lemma EmitBar(outer: seq<Level>, cur: Level, code: seq<Byte>, w: Places, junk: seq<Byte>)
    requires Emitted(outer, cur, code, w) && |junk| == 3 && !cur.branch.Alt?
    requires cur.pre.Some? ==> cur.junk == JumpCode(JUMP_PAST_ALT, Len(cur.branch) + 3)
    ensures w.begalt <= |code|
    ensures var code2 := code[..w.begalt] + JumpCode(ON_FAILURE_JUMP, Len(cur.branch) + 3) + code[w.begalt..] + junk;
            Emitted(outer, Level(Some(LevelTree(cur)), junk, Empty, cur.reg), code2,
                    w.(begalt := |code2|, laststart := None, fixup := Some(|code2| - 3), pending := None))
  {
    hide OuterCode, Code, PreCode, FramesOk, PreLen, Len, GroupCount, JumpCode, HeadCode, LevelTree, HeadLen;
    CodeSplit(outer, cur, code, w);
    var next := Level(Some(LevelTree(cur)), junk, Empty, cur.reg);
    var jump := JumpCode(ON_FAILURE_JUMP, Len(cur.branch) + 3);
    var x := OuterCode(outer);
    assert PreCode(LevelTree(cur)) == HeadCode(cur) + jump + Code(cur.branch) by { PreOfLevel(cur); }
    EmptyCode();
    assert code[..w.begalt] + jump + code[w.begalt..] + junk
           == x + (HeadCode(cur) + jump + Code(cur.branch) + junk + []);
    HeadCodeLen(cur);
    PreLenOfLevel(cur);
    BarLevel(cur, junk);
    assert GroupCount(Alt(LevelTree(cur), Empty)) == GroupCount(LevelTree(cur)) by { CountAltEmpty(LevelTree(cur)); }
  }

  lemma BarLevel(cur: Level, junk: seq<Byte>)
    requires |junk| == 3
    ensures var next := Level(Some(LevelTree(cur)), junk, Empty, cur.reg);
            && LevelTree(next) == Alt(LevelTree(cur), Empty)
            && HeadCode(next) == PreCode(LevelTree(cur)) + junk
            && HeadLen(next) == PreLen(LevelTree(cur)) >= 6
  {
    hide PreCode, Code;
  }

  lemma CountAltEmpty(t: Re)
    ensures GroupCount(Alt(t, Empty)) == GroupCount(t)
  {
  }

  lemma EmptyCode()
    ensures Code(Empty) == [] && Len(Empty) == 0
  {
  }

  lemma PreOfLevel(cur: Level)
    requires !cur.branch.Alt?
    requires cur.pre.Some? ==> cur.junk == JumpCode(JUMP_PAST_ALT, Len(cur.branch) + 3)
    ensures PreCode(LevelTree(cur)) == HeadCode(cur) + JumpCode(ON_FAILURE_JUMP, Len(cur.branch) + 3) + Code(cur.branch)
  {
    hide Code, PreCode, Len, JumpCode;
    if cur.pre.Some? { PreCodeOfAlt(cur.pre.value, cur.branch); } else { CodeOfBranch(cur.branch); }
  }

  lemma PreLenOfLevel(cur: Level)
    requires !cur.branch.Alt?
    ensures PreLen(LevelTree(cur)) == HeadLen(cur) + 6 + Len(cur.branch)
  {
    hide Len;
  }

  // ---------- Groups ----------

  lemma EmitOpen(outer: seq<Level>, cur: Level, code: seq<Byte>, w: Places, reg: nat)
    requires Emitted(outer, cur, code, w) && reg == w.regnum + 1
    ensures var code2 := code + MemoryCode(START_MEMORY, reg, 0);
            var outer2 := outer + [cur.(reg := reg)];
            Emitted(outer2, Level(None, [], Empty, 0), code2,
                    Places(w.frames + [Frame(w.begalt, w.fixup, |code|, reg)], |code2|, None, None, None, reg))
  {
    hide Code, PreCode, PendingAt, PreLen, Len, GroupCount, LevelCode, HeadLen, FixupOf;
    CodeSplit(outer, cur, code, w);
    EmptyCode();
    var l := cur.(reg := reg);
    var outer2 := outer + [l];
    assert outer2[..|outer|] == outer;
    var f := Frame(w.begalt, w.fixup, |code|, reg);
    var frames2 := w.frames + [f];
    assert frames2[..|w.frames|] == w.frames;
    assert HeadLen(l) == HeadLen(cur) && LevelCode(l) == LevelCode(cur) && LevelTree(l) == LevelTree(cur)
           && FixupOf(|OuterCode(outer)|, l) == FixupOf(|OuterCode(outer)|, cur) by { SameHead(cur, reg); }
    assert FramesOk(frames2, outer2);
    FreshLevel();
    assert GroupCount(Empty) == 0 by { CountEmpty(); }
  }

  lemma CountEmpty()
    ensures GroupCount(Empty) == 0
  {
  }

  lemma FreshLevel()
    ensures var l := Level(None, [], Empty, 0);
            LevelCode(l) == [] && HeadLen(l) == 0 && forall base: nat :: FixupOf(base, l) == None
  {
  }

  lemma SameHead(cur: Level, reg: nat)
    ensures var l := cur.(reg := reg);
            && HeadLen(l) == HeadLen(cur) && LevelCode(l) == LevelCode(cur) && LevelTree(l) == LevelTree(cur)
            && forall base: nat :: FixupOf(base, l) == FixupOf(base, cur)
  {
    hide PreLen, PreCode, Code;
  }

  /** What the levels look like from the one about to be closed. */
  lemma Innermost(outer: seq<Level>, cur: Level, code: seq<Byte>, w: Places)
    requires Emitted(outer, cur, code, w) && outer != []
    ensures var n := |outer| - 1;
            var init, l := outer[..n], outer[n];
            && |w.frames| == |outer| && FramesOk(w.frames[..n], init) && FrameOk(w.frames[n], |OuterCode(init)|, l)
            && OuterCode(outer) == OuterCode(init) + LevelCode(l) + MemoryCode(START_MEMORY, l.reg, 0)
            && Groups(outer, cur) == Groups(init, l) + 1 + GroupCount(LevelTree(cur))
  {
    hide Code, PreCode, PendingAt, PreLen, Len, GroupCount, LevelCode, LevelTree, HeadLen, FixupOf;
  }

  /** The group's number of inner groups filled in at its start_memory, and a stop_memory put at the end. */
  lemma EmitClose(outer: seq<Level>, cur: Level, code: seq<Byte>, w: Places)
    requires Emitted(outer, cur, code, w) && outer != []
    requires cur.pre.Some? ==> cur.junk == JumpCode(JUMP_PAST_ALT, Len(cur.branch))
    requires !cur.branch.Alt?
    requires outer[|outer| - 1].pre.Some? ==> |outer[|outer| - 1].junk| == 3
    requires outer[|outer| - 1].reg == Groups(outer[..|outer| - 1], outer[|outer| - 1]) + 1
    ensures var n := |outer| - 1;
            var init, l, f := outer[..n], outer[n], w.frames[n];
            var inner := w.regnum - f.reg;
            var head := MemoryCode(START_MEMORY, f.reg, 0);
            && f.laststart + |head| <= |code|
            && code[f.laststart..f.laststart + |head|] == head
            && inner == GroupCount(LevelTree(cur))
            && var group := Group(f.reg, inner, LevelTree(cur));
               var code2 := code[..f.laststart] + MemoryCode(START_MEMORY, f.reg, inner) + code[f.laststart + |head|..]
                            + (if cur.pre.Some? then [PUSH_DUMMY_FAILURE] else [])
                            + MemoryCode(STOP_MEMORY, f.reg, inner);
               Emitted(init, WithPiece(l, group), code2, w.(frames := w.frames[..n], begalt := f.begalt,
                 fixup := f.fixup,
                                                            laststart := Some(f.laststart), pending := None))
    ensures w.regnum >= w.frames[|outer| - 1].reg
  {
    hide Code, PreCode, PendingAt, PreLen, Len, GroupCount, LevelCode, LevelTree, HeadLen, FixupOf, OuterCode,
         MemoryCode, FramesOk;
    Innermost(outer, cur, code, w);
    var n := |outer| - 1;
    var init, l, f := outer[..n], outer[n], w.frames[n];
    var inner := w.regnum - f.reg;
    var tree := LevelTree(cur);
    var group := Group(f.reg, inner, tree);
    var x, head := OuterCode(init) + LevelCode(l), MemoryCode(START_MEMORY, f.reg, 0);
    HeadCodeLen(l);
    LevelDone(cur);
    TreeIsAlt(cur);
    assert code == x + head + Code(tree);
    CodeOfGroup(f.reg, inner, tree);
    CountGroup(f.reg, inner, tree);
    var dummy := if cur.pre.Some? then [PUSH_DUMMY_FAILURE] else [];
    var start, stop := MemoryCode(START_MEMORY, f.reg, inner), MemoryCode(STOP_MEMORY, f.reg, inner);
    assert Code(group) == start + (Code(tree) + dummy) + stop;
    assert x + start + Code(tree) + dummy + stop == x + Code(group);
    var w1 := Places(w.frames[..n], f.begalt, None, f.fixup, None, Groups(init, l));
    assert Emitted(init, l, x, w1);
    EmitPiece(init, l, x, w1, group, w.(frames := w.frames[..n], begalt := f.begalt, fixup := f.fixup,
                                               laststart := Some(f.laststart), pending := None));
    assert code[f.laststart + |head|..] == Code(tree);
    assert code[..f.laststart] == x;
  }

  lemma TreeIsAlt(cur: Level)
    requires !cur.branch.Alt?
    ensures LevelTree(cur).Alt? <==> cur.pre.Some?
  {
  }

  lemma CountGroup(reg: nat, inner: nat, body: Re)
    ensures GroupCount(Group(reg, inner, body)) == 1 + GroupCount(body)
  {
  }
}
