/** regex_compile: one pass over the pattern, emitting code as it goes and opening gaps in it for jumps. */
module RegexCompiler {
  import opened Wrappers
  import opened RegexTree
  import opened RegexCode
  import opened RegexLayout
  import opened RegexGrammar
  import opened RegexLevels
  import opened RegexEmission
  import opened RegexProgress
  import opened RegexBuffer

  datatype Error = NoError | BadRepeat | UnmatchedClose | UnmatchedOpen | TooBig

  /** The characters that, coming next, keep a literal out of the run before it. */
  predicate StartsRun(toks: seq<Token>, k: nat) {
    k < |toks| && (IsRepeat(toks[k]) || FirstChar(toks[k]) == 94)
  }

  class Compiler {
    const buf: CodeBuffer
    var frames: seq<Frame>
    var begalt: nat
    var laststart: Option<nat>
    var fixup: Option<nat>
    var pending: Option<nat>
    var regnum: nat
    ghost var outer: seq<Level>
    ghost var cur: Level

    ghost function Where(): Places
      reads this
    {
      Places(frames, begalt, laststart, fixup, pending, regnum)
    }

    ghost predicate Sound()
      reads this, buf, buf.data
    {
      buf.Valid() && Emitted(outer, cur, buf.Bytes(), Where())
    }

    ghost predicate Read(syn: Syntax, toks: seq<Token>, k: nat)
      reads this, buf, buf.data
    {
      Sound() && Progress(syn, toks, k, outer, cur, Where())
    }

    constructor (syn: Syntax, toks: seq<Token>)
      ensures fresh(buf) && fresh(buf.data) && Read(syn, toks, 0)
    {
      buf := new CodeBuffer();
      frames, begalt, laststart, fixup, pending, regnum := [], 0, None, None, None, 0;
      outer, cur := [], Level(None, [], Empty, 0);
      new;
      FirstState(syn, toks);
    }

    /** The code for a literal character: part of the run before it, or the start of a new one. */
    method NormalChar(syn: Syntax, toks: seq<Token>, k: nat) returns (ok: bool)
      requires Sound() && k < |toks| && Reading(syn, outer, cur, toks[..k])
      requires Starts(cur, Where()) || (cur.branch.Cat? && cur.branch.b.Dummy?)
      requires LiteralOk(syn, toks[k], NothingBefore(cur.branch), outer == [])
      modifies this, buf, buf.data
      ensures buf.data == old(buf.data) || fresh(buf.data)
      ensures ok ==> Sound() && outer == old(outer) && Starts(cur, Where()) && laststart.Some?
      ensures ok ==> Reading(syn, outer, cur, toks[..k + 1]) && (AllPlain(outer, cur) <==> old(AllPlain(outer, cur)))
      ensures ok ==> RepeatNext(toks, k + 1) ==> IsAtom(syn, cur.branch.b, NothingBefore(cur.branch.a), outer == [])
      ensures !ok ==> buf.Valid() && buf.b + 34 > MAX_BUF_SIZE
    {
      hide Emitted, Reading, AllPlain, NothingBefore, IsAtom, LiteralOk, Code, CharOf;
      ghost var was := buf.Bytes();
      var c := CharOf(toks[k]);
      if pending.Some? { PendingLast(outer, cur, was, Where()); }
      if pending.None? || pending.value + buf.data[pending.value] + 1 != buf.b || buf.data[pending.value] == 255
         || StartsRun(toks, k + 1) {
        NewExact(syn, toks, k, outer, cur);
        laststart := Some(buf.b);
        pending := Some(buf.b + 1);
        ok := buf.PushRun(c);
        if !ok { return; }
        EmitNewExact(outer, cur, was, old(Where()), toks[k], Where());
        cur := WithPiece(cur, Exact([toks[k]]));
      } else {
        LongerExact(syn, toks, k, outer, cur, was, Where());
        ExactIsSomething(cur.branch);
        ok := buf.ExtendRun(pending.value, c);
        if !ok { return; }
        cur := cur.(branch := Cat(cur.branch.a, Exact(cur.branch.b.ts + [toks[k]])));
      }
    }

    /** `.' */
    method Period(syn: Syntax, toks: seq<Token>, k: nat) returns (ok: bool)
      requires Read(syn, toks, k) && k < |toks| && toks[k].Dot?
      modifies this, buf, buf.data
      ensures buf.data == old(buf.data) || fresh(buf.data)
      ensures ok ==> Read(syn, toks, k + 1)
      ensures !ok ==> buf.Valid() && buf.b + 34 > MAX_BUF_SIZE
    {
      hide Emitted, Progress, Code, Len;
      ghost var was, w := buf.Bytes(), Where();
      OnePiece(syn, toks, k, outer, cur, was, w, AnyChar);
      laststart := Some(buf.b);
      ok := buf.PushByte(ANYCHAR);
      if !ok { return; }
      cur := WithPiece(cur, AnyChar);
    }

    /** A bracket expression, its bitmap already read. */
    method BracketList(syn: Syntax, toks: seq<Token>, k: nat) returns (ok: bool)
      requires Read(syn, toks, k) && k < |toks| && toks[k].Bracket? && |toks[k].bits| <= 32
      modifies this, buf, buf.data
      ensures buf.data == old(buf.data) || fresh(buf.data)
      ensures ok ==> Read(syn, toks, k + 1)
      ensures !ok ==> buf.Valid() && buf.b + 34 > MAX_BUF_SIZE
    {
      hide Emitted, Progress, Code, Len;
      ghost var was, w := buf.Bytes(), Where();
      var bits := toks[k].bits;
      ghost var piece := CharSet(toks[k].negated, bits);
      OnePiece(syn, toks, k, outer, cur, was, w, piece);
      ok := buf.GetSpace(34);
      if !ok { return; }
      laststart := Some(buf.b);
      ok := buf.PushBytes([if toks[k].negated then CHARSET_NOT else CHARSET, |bits|] + bits);
      if !ok { return; }
      cur := WithPiece(cur, piece);
    }

    /** A literal character where nothing else is meant. */
    method Literal(syn: Syntax, toks: seq<Token>, k: nat) returns (ok: bool)
      requires Read(syn, toks, k) && k < |toks|
      requires toks[k].Lit? || (IsRepeat(toks[k]) && laststart.None? && !syn.indepOps && !syn.invalidOps)
      modifies this, buf, buf.data
      ensures buf.data == old(buf.data) || fresh(buf.data)
      ensures ok ==> Read(syn, toks, k + 1)
      ensures !ok ==> buf.Valid() && buf.b + 34 > MAX_BUF_SIZE
    {
      hide Emitted, Reading, AllPlain, NothingBefore, IsAtom, Code, Len;
      ghost var cur0, w := cur, Where();
      ok := NormalChar(syn, toks, k);
      if ok { OneMore(syn, toks, k, outer, cur0, w, cur, Where()); }
    }

    /** A sequence of repetition characters, collapsed to one. */
    method Collapse(toks: seq<Token>, k: nat) returns (k2: nat, zero: bool, many: bool)
      requires RepeatNext(toks, k)
      ensures k2 <= |toks| && Run(toks, k, k2) && !RepeatNext(toks, k2)
      ensures (zero <==> ZeroOk(toks[k..k2])) && (many <==> ManyOk(toks[k..k2]))
    {
      hide ZeroOk, ManyOk;
      k2, zero, many := k, false, false;
      CollapseNone(toks, k);
      while true
        invariant k <= k2 <= |toks| && (k < k2 ==> Run(toks, k, k2)) && RepeatNext(toks, k2)
        invariant (zero <==> ZeroOk(toks[k..k2])) && (many <==> ManyOk(toks[k..k2]))
        decreases |toks| - k2
      {
        CollapseMore(toks, k, k2);
        zero := zero || toks[k2] != Plus;
        many := many || toks[k2] != Quest;
        k2 := k2 + 1;
        if k2 == |toks| || !IsRepeat(toks[k2]) { break; }
      }
    }

    /** A run of repetition characters. */
    method Repeat(syn: Syntax, toks: seq<Token>, k: nat) returns (error: Error, k2: nat)
      requires Read(syn, toks, k) && RepeatNext(toks, k)
      modifies this, buf, buf.data
      ensures buf.Valid() && (buf.data == old(buf.data) || fresh(buf.data))
      ensures error == NoError || error == BadRepeat || error == TooBig
      ensures error == NoError ==> k < k2 <= |toks| && Read(syn, toks, k2)
      ensures error == BadRepeat ==> syn.invalidOps && BadRepeatAt(toks, k)
      ensures error == TooBig ==> buf.Valid() && buf.b + 34 > MAX_BUF_SIZE
    {
      hide Emitted, Progress, Code, Looped, ZeroOk, ManyOk, Wrapped;
      k2 := k;
      if laststart.None? {
        if syn.invalidOps {
          NothingToRepeat(syn, toks, k, outer, cur, Where());
          return BadRepeat, k;
        } else if !syn.indepOps {
          var ok := Literal(syn, toks, k);
          return if ok then NoError else TooBig, k + 1;
        }
      }
      var zero, many;
      k2, zero, many := Collapse(toks, k);
      ghost var was, w := buf.Bytes(), Where();
      if laststart.None? {
        IgnoredDone(syn, toks, k, k2, outer, cur, was, w);
        cur := WithPiece(cur, Ignored(toks[k..k2]));
        return NoError, k2;
      }
      var keep := many && KeepString(syn, toks, k2, zero);
      RepeatDone(syn, toks, k, k2, outer, cur, was, w, zero, many, keep);
      var ok := buf.Wrap(laststart.value, zero, many, keep);
      if !ok { return TooBig, k2; }
      pending := None;
      cur := cur.(branch := Cat(cur.branch.a, Looped(cur.branch.b, toks[k..k2], keep)));
      return NoError, k2;
    }

    /** `(' */
    method OpenGroup(syn: Syntax, toks: seq<Token>, k: nat) returns (ok: bool)
      requires Read(syn, toks, k) && k < |toks| && toks[k].Open?
      modifies this, buf, buf.data
      ensures buf.data == old(buf.data) || fresh(buf.data)
      ensures ok ==> Read(syn, toks, k + 1)
      ensures !ok ==> buf.Valid() && buf.b + 34 > MAX_BUF_SIZE
    {
      hide Emitted, Progress;
      OpenDone(syn, toks, k, outer, cur, buf.Bytes(), Where());
      regnum := regnum + 1;
      frames := frames + [Frame(begalt, fixup, buf.b, regnum)];
      ok := buf.StartGroup(regnum);
      if !ok { return; }
      fixup, laststart, begalt, pending := None, None, buf.b, None;
      outer, cur := outer + [cur.(reg := regnum)], Level(None, [], Empty, 0);
    }

    /** `|' */
    method Alternative(syn: Syntax, toks: seq<Token>, k: nat) returns (ok: bool)
      requires Read(syn, toks, k) && k < |toks| && toks[k].Bar?
      modifies this, buf, buf.data
      ensures buf.data == old(buf.data) || fresh(buf.data)
      ensures ok ==> Read(syn, toks, k + 1)
      ensures !ok ==> buf.Valid() && buf.b + 34 > MAX_BUF_SIZE
    {
      hide Emitted, Progress, Barred;
      ghost var was, w := buf.Bytes(), Where();
      BarPlaces(outer, cur, was, w);
      ok := buf.EndAlternative(begalt, fixup);
      if !ok { return; }
      pending := None;
      fixup := Some(buf.b);
      ghost var filled := buf.Bytes();
      ok := buf.Skip();
      if !ok { return; }
      laststart := None;
      begalt := buf.b;
      ghost var junk := buf.Bytes()[|filled|..];
      assert buf.Bytes() == filled + junk;
      BarDone(syn, toks, k, outer, cur, was, w, junk);
      cur := Level(Some(LevelTree(cur)), junk, Empty, cur.reg);
    }

    /** A `)' with no group open, taken literally; `was' is the code before it. */
    method LiteralClose(syn: Syntax, toks: seq<Token>, k: nat, ghost was: seq<Byte>) returns (ok: bool)
      requires Emitted(outer, cur, was, Where()) && Progress(syn, toks, k, outer, cur, Where())
      requires k < |toks| && toks[k].Close? && syn.unmatchedOrd && outer == []
      requires fixup.Some? ==> fixup.value + 3 == begalt <= |was|
      requires buf.Valid() && buf.Bytes() == Closed(was, begalt, fixup)
      modifies this, buf, buf.data
      ensures buf.data == old(buf.data) || fresh(buf.data)
      ensures ok ==> Read(syn, toks, k + 1)
      ensures !ok ==> buf.Valid() && buf.b + 34 > MAX_BUF_SIZE
    {
      hide Emitted, Progress, Closed, Reading, AllPlain, IsAtom, Starts, Nesting, Unmatched;
      ghost var cur0, w := cur, Where();
      UnmatchedDone(syn, toks, k, cur, was, w);
      cur := Unmatched(was, cur, w);
      ok := NormalChar(syn, toks, k);
      if ok { OneMore(syn, toks, k, outer, cur0, w, cur, Where()); }
    }

    /** A `)' that closes the innermost group. */
    method PopGroup(syn: Syntax, toks: seq<Token>, k: nat, ghost was: seq<Byte>) returns (ok: bool)
      requires Emitted(outer, cur, was, Where()) && Progress(syn, toks, k, outer, cur, Where())
      requires k < |toks| && toks[k].Close? && outer != []
      requires fixup.Some? ==> fixup.value + 3 == begalt <= |was|
      requires buf.Valid() && buf.Bytes() == Closed(was, begalt, fixup)
      modifies this, buf, buf.data
      ensures buf.data == old(buf.data) || fresh(buf.data)
      ensures ok ==> Read(syn, toks, k + 1)
      ensures !ok ==> buf.Valid() && buf.b + 34 > MAX_BUF_SIZE
    {
      hide Emitted, Progress, Closed, CountStored, MemoryCode;
      CloseDone(syn, toks, k, outer, cur, was, Where());
      var top := frames[|frames| - 1];
      ghost var inner := regnum - top.reg;
      frames := frames[..|frames| - 1];
      begalt, fixup, laststart, pending := top.begalt, top.fixup, Some(top.laststart), None;
      ok := buf.EndGroup(top.laststart, top.reg, regnum - top.reg);
      cur := WithPiece(outer[|outer| - 1], Group(top.reg, inner, LevelTree(cur)));
      outer := outer[..|outer| - 1];
    }

    /** `)' */
    method CloseGroup(syn: Syntax, toks: seq<Token>, k: nat) returns (error: Error)
      requires Read(syn, toks, k) && k < |toks| && toks[k].Close?
      modifies this, buf, buf.data
      ensures buf.Valid() && (buf.data == old(buf.data) || fresh(buf.data))
      ensures error == NoError || error == UnmatchedClose || error == TooBig
      ensures error == NoError ==> Read(syn, toks, k + 1)
      ensures error == UnmatchedClose ==> !syn.unmatchedOrd && UnmatchedAt(toks, k)
      ensures error == TooBig ==> buf.Valid() && buf.b + 34 > MAX_BUF_SIZE
    {
      hide Emitted, Progress, Closed, CountStored, Reading, AllPlain, IsAtom, MemoryCode, Starts, Nesting;
      ghost var was, w := buf.Bytes(), Where();
      ClosePlaces(syn, toks, k, outer, cur, was, w);
      var ok := buf.EndAlternatives(begalt, fixup);
      if !ok { return TooBig; }
      if frames == [] {
        if !syn.unmatchedOrd { return UnmatchedClose; }
        ok := LiteralClose(syn, toks, k, was);
        return if ok then NoError else TooBig;
      }
      ok := PopGroup(syn, toks, k, was);
      return if ok then NoError else TooBig;
    }

    /** The whole pattern. The tree the code came from is given as a ghost result. */
    method Compile(syn: Syntax, toks: seq<Token>) returns (error: Error, ghost r: Re)
      requires Read(syn, toks, 0) && TokensOk(toks)
      modifies this, buf, buf.data
      ensures buf.Valid()
      ensures error == NoError ==>
        && Parses(syn, toks, r) && Program(buf.Bytes(), r, syn) && regnum == GroupCount(r)
        && (PlainDotLines(r) <==> syn.dotNewline || !HasEscapedDotLine(toks))
      ensures error == NoError ==> Nesting(toks) == 0 && NoErrorBefore(syn, toks, |toks|)
      ensures error == BadRepeat ==> syn.invalidOps && exists k :: BadRepeatAt(toks, k)
      ensures error == UnmatchedClose ==> !syn.unmatchedOrd && exists k :: UnmatchedAt(toks, k)
      ensures error == UnmatchedOpen ==> Nesting(toks) > 0
      ensures error == TooBig ==> buf.b + 34 > MAX_BUF_SIZE
    {
      hide Emitted, Progress, Parses, Program, PlainDotLines, GroupCount, HasEscapedDotLine, Nesting, BadRepeatAt,
           UnmatchedAt, NoErrorBefore;
      var k := 0;
      while k < |toks|
        invariant k <= |toks| && Read(syn, toks, k)
        invariant buf.data == old(buf.data) || fresh(buf.data)
      {
        error, k := ReadToken(syn, toks, k);
        if error != NoError { return error, Empty; }
      }
      error, r := Finish(syn, toks);
    }

    /** One round of the loop over the pattern. */
    method ReadToken(syn: Syntax, toks: seq<Token>, k: nat) returns (error: Error, k2: nat)
      requires Read(syn, toks, k) && k < |toks| && TokensOk(toks)
      modifies this, buf, buf.data
      ensures buf.Valid() && (buf.data == old(buf.data) || fresh(buf.data))
      ensures error != UnmatchedOpen && (error == NoError ==> k < k2 <= |toks| && Read(syn, toks, k2))
      ensures error == BadRepeat ==> syn.invalidOps && BadRepeatAt(toks, k)
      ensures error == UnmatchedClose ==> !syn.unmatchedOrd && UnmatchedAt(toks, k)
      ensures error == TooBig ==> buf.b + 34 > MAX_BUF_SIZE
    {
      hide Emitted, Progress, BadRepeatAt, UnmatchedAt, TokensOk;
      var ok;
      match toks[k]
      case Lit(_, _) => ok := Literal(syn, toks, k); return if ok then NoError else TooBig, k + 1;
      case Dot => ok := Period(syn, toks, k); return if ok then NoError else TooBig, k + 1;
      case Bracket(_, _) =>
        BitmapOk(toks, k);
        ok := BracketList(syn, toks, k);
        return if ok then NoError else TooBig, k + 1;
      case Open => ok := OpenGroup(syn, toks, k); return if ok then NoError else TooBig, k + 1;
      case Bar => ok := Alternative(syn, toks, k); return if ok then NoError else TooBig, k + 1;
      case Close => error := CloseGroup(syn, toks, k); return error, k + 1;
      case _ => error, k2 := Repeat(syn, toks, k);
    }

    /** Through the pattern. */
    method Finish(syn: Syntax, toks: seq<Token>) returns (error: Error, ghost r: Re)
      requires Read(syn, toks, |toks|)
      modifies this, buf, buf.data
      ensures buf.Valid() && (error == NoError || error == UnmatchedOpen || error == TooBig)
      ensures error == NoError ==>
        && Parses(syn, toks, r) && Program(buf.Bytes(), r, syn) && regnum == GroupCount(r)
        && (PlainDotLines(r) <==> syn.dotNewline || !HasEscapedDotLine(toks))
      ensures error == NoError ==> Nesting(toks) == 0 && NoErrorBefore(syn, toks, |toks|)
      ensures error == UnmatchedOpen ==> Nesting(toks) > 0
      ensures error == TooBig ==> buf.b + 34 > MAX_BUF_SIZE
    {
      hide Emitted, Progress, Parses, PlainDotLines, GroupCount, HasEscapedDotLine, Nesting, NoErrorBefore, JumpCode,
           Overwritten;
      ghost var was := buf.Bytes();
      r := LevelTree(cur);
      ClosePlaces(syn, toks, |toks|, outer, cur, was, Where());
      EndDone(syn, toks, outer, cur, was, Where());
      if fixup.Some? { buf.StoreJump(JUMP_PAST_ALT, fixup.value, buf.b); }
      if frames != [] { return UnmatchedOpen, r; }
      ghost var code := buf.Bytes();
      assert code == Code(r);
      if syn.noBacktrack {
        var ok := buf.PushByte(SUCCEED);
        if !ok { return TooBig, r; }
      } else {
        assert code + [] == code;
      }
      return NoError, r;
    }
  }

  lemma ClosePlaces(syn: Syntax, toks: seq<Token>, k: nat, outer: seq<Level>, cur: Level, code: seq<Byte>, w: Places)
    requires Emitted(outer, cur, code, w) && Progress(syn, toks, k, outer, cur, w)
    ensures w.fixup.Some? ==> w.fixup.value + 3 == w.begalt <= |code|
    ensures |w.frames| == |outer| == Nesting(toks[..k])
  {
    hide Emitted, Progress, Len, Nesting;
    FixupPlaces(outer, cur, code, w);
    StackDepth(syn, toks, k, outer, cur, code, w);
  }

  predicate TokensOk(toks: seq<Token>) {
    forall k :: 0 <= k < |toks| && toks[k].Bracket? ==> |toks[k].bits| <= 32
  }

  lemma BitmapOk(toks: seq<Token>, k: nat)
    requires TokensOk(toks) && k < |toks| && toks[k].Bracket?
    ensures |toks[k].bits| <= 32
  {
  }

  /** At the end of the pattern the jump after the earlier alternatives leads to the end of the code. */
  lemma EndDone(syn: Syntax, toks: seq<Token>, outer: seq<Level>, cur: Level, code: seq<Byte>, w: Places)
    requires Emitted(outer, cur, code, w) && Progress(syn, toks, |toks|, outer, cur, w)
    requires w.fixup.Some? ==> w.fixup.value + 3 == w.begalt <= |code|
    ensures Nesting(toks) == |outer| && NoErrorBefore(syn, toks, |toks|)
    ensures outer == [] ==>
      var r := LevelTree(cur);
      && Parses(syn, toks, r) && w.regnum == GroupCount(r)
      && (PlainDotLines(r) <==> syn.dotNewline || !HasEscapedDotLine(toks))
      && Code(r) == if w.fixup.Some?
                    then Overwritten(code, w.fixup.value, JumpCode(JUMP_PAST_ALT, |code| - w.begalt)) else code
  {
    hide Emitted, JumpCode, Code, IsRegex, Numbered, Yield, GroupCount, PlainDotLines, Nesting, LevelTree, Len;
    assert toks[..|toks|] == toks;
    if outer == [] {
      FixupPlaces(outer, cur, code, w);
      OuterFacts(syn, toks, outer, cur);
      EscapedAnywhere(toks);
      if cur.pre.Some? {
        var after := JumpCode(JUMP_PAST_ALT, |code| - w.begalt);
        JumpCodeLen(JUMP_PAST_ALT, |code| - w.begalt);
        EmitFixup(outer, cur, code, w, after);
        SameTree(cur, after);
        AllEmitted(cur.(junk := after), Overwritten(code, w.fixup.value, after), w);
      } else {
        AllEmitted(cur, code, w);
      }
    }
  }

  lemma AllEmitted(cur: Level, code: seq<Byte>, w: Places)
    requires Emitted([], cur, code, w)
    requires cur.pre.Some? ==> cur.junk == JumpCode(JUMP_PAST_ALT, Len(cur.branch))
    ensures code == Code(LevelTree(cur)) && w.regnum == GroupCount(LevelTree(cur))
  {
    hide LevelCode, LevelTree, Code, GroupCount;
    LevelDone(cur);
  }

  lemma EscapedAnywhere(toks: seq<Token>)
    ensures HasEscapedDotLine(toks) <==> EscapedBefore(toks, |toks|)
  {
  }

  lemma NothingToRepeat(syn: Syntax, toks: seq<Token>, k: nat, outer: seq<Level>, cur: Level, w: Places)
    requires Progress(syn, toks, k, outer, cur, w) && w.laststart.None? && RepeatNext(toks, k) && syn.invalidOps
    ensures BadRepeatAt(toks, k)
  {
  }

  lemma IgnoredDone(syn: Syntax, toks: seq<Token>, k: nat, k2: nat, outer: seq<Level>, cur: Level, code: seq<Byte>,
          w: Places)
    requires Emitted(outer, cur, code, w) && Progress(syn, toks, k, outer, cur, w)
    requires w.laststart.None? && syn.indepOps && !syn.invalidOps
    requires k2 <= |toks| && Run(toks, k, k2) && !RepeatNext(toks, k2)
    ensures var cur2 := WithPiece(cur, Ignored(toks[k..k2]));
            Emitted(outer, cur2, code, w) && Progress(syn, toks, k2, outer, cur2, w)
  {
    hide Emitted, Reading, AllPlain, NothingBefore, IsAtom, Code, Len, GroupCount, Nesting, EscapedBefore;
    IgnoredRun(syn, toks, k, k2, outer, cur, w);
    EmitPiece(outer, cur, code, w, Ignored(toks[k..k2]), w);
    assert code + [] == code;
  }

  /** The loop jumps put around a body give the code of its repetition. */
  lemma LoopWrapped(front: seq<Byte>, body: Re, ops: seq<Token>, zero: bool, many: bool, keep: bool)
    requires AllRepeats(ops) && (zero <==> ZeroOk(ops)) && (many <==> ManyOk(ops)) && (keep ==> many)
    requires keep ==> ops == [Star]
    ensures Wrapped(front, Code(body), zero, many, keep) == front + Code(Looped(body, ops, keep))
  {
    hide Code, Len, Looped, ZeroOk, ManyOk, JumpCode;
    LoopedCode(body, ops, keep);
  }

  lemma StartPlace(syn: Syntax, toks: seq<Token>, k: nat, outer: seq<Level>, cur: Level, w: Places)
    requires Progress(syn, toks, k, outer, cur, w) && w.laststart.Some?
    ensures cur.branch.Cat? && w.laststart.value == w.begalt + Len(cur.branch.a)
  {
  }

  lemma RepeatDone(syn: Syntax, toks: seq<Token>, k: nat, k2: nat, outer: seq<Level>, cur: Level, code: seq<Byte>,
                   w: Places, zero: bool, many: bool, keep: bool)
    requires Emitted(outer, cur, code, w) && Progress(syn, toks, k, outer, cur, w) && w.laststart.Some?
    requires k2 <= |toks| && Run(toks, k, k2) && !RepeatNext(toks, k2)
    requires (zero <==> ZeroOk(toks[k..k2])) && (many <==> ManyOk(toks[k..k2]))
    requires keep == (many && KeepString(syn, toks, k2, zero))
    ensures cur.branch.Cat? && w.laststart.value <= |code|
    ensures var ls := w.laststart.value;
            var cur2, w2 := cur.(branch := Cat(cur.branch.a, Looped(cur.branch.b, toks[k..k2], keep))),
              w.(pending := None);
            && Emitted(outer, cur2, Wrapped(code[..ls], code[ls..], zero, many, keep), w2)
            && Progress(syn, toks, k2, outer, cur2, w2)
  {
    hide Emitted, Progress, Wrapped, Code, Len, GroupCount, ZeroOk, ManyOk, Looped, IsOperand, RepeatNext, KeepString,
         AllRepeats, Yield, Numbered, PlainDotLines;
    StartPlace(syn, toks, k, outer, cur, w);
    var ops, body, w2 := toks[k..k2], cur.branch.b, w.(pending := None);
    Repeated(syn, toks, k, k2, outer, cur, w, keep, w2);
    RunAsOps(toks, k, k2);
    PieceSplit(outer, cur, code, w);
    LoopWrapped(code[..w.laststart.value], body, ops, zero, many, keep);
    LoopedFacts(body, ops, keep);
    EmitInstead(outer, cur, code, w, Looped(body, ops, keep),
      code[..w.laststart.value] + Code(Looped(body, ops, keep)), w2);
  }

  lemma OpenDone(syn: Syntax, toks: seq<Token>, k: nat, outer: seq<Level>, cur: Level, code: seq<Byte>, w: Places)
    requires Emitted(outer, cur, code, w) && Progress(syn, toks, k, outer, cur, w) && k < |toks| && toks[k].Open?
    ensures var reg := w.regnum + 1;
            var code2 := code + MemoryCode(START_MEMORY, reg, 0);
            var outer2, cur2 := outer + [cur.(reg := reg)], Level(None, [], Empty, 0);
            var w2 := Places(w.frames + [Frame(w.begalt, w.fixup, |code|, reg)], |code2|, None, None, None, reg);
            Emitted(outer2, cur2, code2, w2) && Progress(syn, toks, k + 1, outer2, cur2, w2)
  {
    hide Reading, OuterCode, FramesOk, GroupCount, MemoryCode, LevelCode, FixupOf, HeadLen, OuterCount, AllPlain,
         Nesting, EscapedBefore;
    var reg := w.regnum + 1;
    var code2 := code + MemoryCode(START_MEMORY, reg, 0);
    EmitOpen(outer, cur, code, w, reg);
    Openings(syn, toks, k, outer, cur, w, reg,
             Places(w.frames + [Frame(w.begalt, w.fixup, |code|, reg)], |code2|, None, None, None, reg));
  }

  lemma FixupPlaces(outer: seq<Level>, cur: Level, code: seq<Byte>, w: Places)
    requires Emitted(outer, cur, code, w)
    ensures |code| == w.begalt + Len(cur.branch)
    ensures w.fixup.Some? <==> cur.pre.Some?
    ensures w.fixup.Some? ==> w.fixup.value + 3 == w.begalt
    ensures |w.frames| == |outer|
  {
    hide OuterCode, LevelCode, Code, PreLen, Len, GroupCount;
    CodeSplit(outer, cur, code, w);
    if cur.pre.Some? { PreLenLarge(cur.pre.value); }
  }

  lemma BarPlaces(outer: seq<Level>, cur: Level, code: seq<Byte>, w: Places)
    requires Emitted(outer, cur, code, w)
    ensures w.begalt <= |code| && (w.fixup.Some? ==> w.fixup.value + 3 == w.begalt)
  {
    hide Emitted, Len;
    FixupPlaces(outer, cur, code, w);
  }

  lemma BarDone(syn: Syntax, toks: seq<Token>, k: nat, outer: seq<Level>, cur: Level, code: seq<Byte>, w: Places,
          junk: seq<Byte>)
    requires Emitted(outer, cur, code, w) && Progress(syn, toks, k, outer, cur, w) && k < |toks| && toks[k].Bar?
    requires |junk| == 3
    requires w.begalt <= |code| && (w.fixup.Some? ==> w.fixup.value + 3 == w.begalt)
    ensures var code2 := Barred(code, w.begalt, w.fixup) + junk;
            var cur2 := Level(Some(LevelTree(cur)), junk, Empty, cur.reg);
            var w2 := w.(begalt := |code2|, laststart := None, fixup := Some(|code2| - 3), pending := None);
            Emitted(outer, cur2, code2, w2) && Progress(syn, toks, k + 1, outer, cur2, w2)
  {
    hide Reading, Emitted, Groups, Len, JumpCode, AllPlain, Nesting, EscapedBefore, LevelTree;
    OuterFacts(syn, toks[..k], outer, cur);
    FixupPlaces(outer, cur, code, w);
    var n := |code| - w.begalt;
    var before, after := JumpCode(ON_FAILURE_JUMP, n + 3), JumpCode(JUMP_PAST_ALT, n + 3);
    assert |before| == |after| == 3 by { JumpCodeLen(ON_FAILURE_JUMP, n + 3); JumpCodeLen(JUMP_PAST_ALT, n + 3); }
    var code2 := Barred(code, w.begalt, w.fixup) + junk;
    var w2 := w.(begalt := |code2|, laststart := None, fixup := Some(|code2| - 3), pending := None);
    Bars(syn, toks, k, outer, cur, w, junk, w2);
    if cur.pre.Some? {
      var code1, cur1 := Overwritten(code, w.fixup.value, after), cur.(junk := after);
      EmitFixup(outer, cur, code, w, after);
      SameTree(cur, after);
      EmitBar(outer, cur1, code1, w, junk);
      GapAndPatch(code, w.begalt, before, after);
    } else {
      EmitBar(outer, cur, code, w, junk);
    }
  }

  lemma JumpCodeLen(op: Byte, offset: int)
    ensures |JumpCode(op, offset)| == 3
  {
  }

  /** The gap and the place for the jump before it do not interfere. */
  lemma GapAndPatch(code: seq<Byte>, loc: nat, before: seq<Byte>, after: seq<Byte>)
    requires 3 <= loc <= |code| && |before| == |after| == 3
    ensures Overwritten(Inserted(code, loc, before), loc - 3, after)
      == Overwritten(code, loc - 3, after)[..loc] + before + Overwritten(code, loc - 3, after)[loc..]
  {
  }

  lemma StackDepth(syn: Syntax, toks: seq<Token>, k: nat, outer: seq<Level>, cur: Level, code: seq<Byte>, w: Places)
    requires Emitted(outer, cur, code, w) && Progress(syn, toks, k, outer, cur, w)
    ensures |w.frames| == |outer| == Nesting(toks[..k])
    ensures Reading(syn, outer, cur, toks[..k])
  {
    hide OuterCode, LevelCode, GroupCount, Reading, AllPlain, Nesting;
  }

  /** The level whose code that is, with the dummy failure as a piece. */
  ghost function Unmatched(code: seq<Byte>, cur: Level, w: Places): Level {
    if w.fixup.Some? then WithPiece(cur.(junk := JumpCode(JUMP_PAST_ALT, |code| - w.begalt)), Dummy) else cur
  }

  lemma ClosedParts(code: seq<Byte>, w: Places)
    requires w.fixup.Some? && w.fixup.value + 3 == w.begalt <= |code|
    ensures Closed(code, w.begalt, w.fixup) ==
      Overwritten(code, w.fixup.value, JumpCode(JUMP_PAST_ALT, |code| - w.begalt)) + [PUSH_DUMMY_FAILURE]
  {
    hide JumpCode;
  }

  lemma UnmatchedDone(syn: Syntax, toks: seq<Token>, k: nat, cur: Level, code: seq<Byte>, w: Places)
    requires Emitted([], cur, code, w) && Progress(syn, toks, k, [], cur, w) && syn.unmatchedOrd
    requires k < |toks| && toks[k].Close?
    ensures w.fixup.Some? ==> w.fixup.value + 3 == w.begalt <= |code|
    ensures var cur2 := Unmatched(code, cur, w);
            && Emitted([], cur2, Closed(code, w.begalt, w.fixup), w)
            && Reading(syn, [], cur2, toks[..k]) && (AllPlain([], cur2) <==> AllPlain([], cur))
            && (Starts(cur2, w) || (cur2.branch.Cat? && cur2.branch.b.Dummy?))
            && LiteralOk(syn, toks[k], NothingBefore(cur2.branch), true)
  {
    hide Reading, Emitted, Groups, Len, JumpCode, AllPlain, Nesting, EscapedBefore, LevelTree, Overwritten, Code,
         NothingBefore;
    FixupPlaces([], cur, code, w);
    if w.fixup.Some? {
      var after := JumpCode(JUMP_PAST_ALT, |code| - w.begalt);
      JumpCodeLen(JUMP_PAST_ALT, |code| - w.begalt);
      ClosedParts(code, w);
      EmitFixup([], cur, code, w, after);
      JunkRead(syn, toks, k, [], cur, w, after);
      var cur1 := cur.(junk := after);
      DummyRead(syn, toks, k, [], cur1);
      EmitPiece([], cur1, Overwritten(code, w.fixup.value, after), w, Dummy, w);
      PlainJunk(cur, after);
    }
  }

  lemma PlainJunk(cur: Level, junk: seq<Byte>)
    ensures AllPlain([], cur.(junk := junk)) <==> AllPlain([], cur)
  {
    SameTree(cur, junk);
  }

  /** Storing the count is emitting the start_memory with it in the first place. */
  lemma CountBytes(code: seq<Byte>, dummy: seq<Byte>, laststart: nat, reg: nat, inner: nat, stop: seq<Byte>)
    requires var head := MemoryCode(START_MEMORY, reg, 0);
             laststart + |head| <= |code| && code[laststart..laststart + |head|] == head
    ensures reg <= MAX_REGNUM ==> laststart + 2 < |code + dummy|
    ensures var n := MemoryLen(reg);
            CountStored(code + dummy, laststart, reg, inner) + stop ==
            code[..laststart] + MemoryCode(START_MEMORY, reg, inner) + code[laststart + n..] + dummy + stop
  {
    if reg <= MAX_REGNUM {
      assert code[laststart] == code[laststart..laststart + 3][0]
             && code[laststart + 1] == code[laststart..laststart + 3][1];
    }
  }

  lemma InnerPlaces(outer: seq<Level>, cur: Level, code: seq<Byte>, w: Places)
    requires Emitted(outer, cur, code, w) && outer != []
    ensures |w.frames| == |outer|
    ensures var f, l := w.frames[|outer| - 1], outer[|outer| - 1];
            && f.laststart == f.begalt + Len(l.branch) && f.reg == l.reg
            && w.regnum == Groups(outer[..|outer| - 1], l) + 1 + GroupCount(LevelTree(cur))
  {
    hide Len, Groups, GroupCount, FramesOk, LevelCode, OuterCode, LevelTree, HeadLen;
    Innermost(outer, cur, code, w);
  }

  lemma CloseDone(syn: Syntax, toks: seq<Token>, k: nat, outer: seq<Level>, cur: Level, code: seq<Byte>, w: Places)
    requires Emitted(outer, cur, code, w) && Progress(syn, toks, k, outer, cur, w)
    requires k < |toks| && toks[k].Close? && outer != []
    ensures |w.frames| == |outer| && (w.fixup.Some? ==> w.fixup.value + 3 == w.begalt <= |code|)
    ensures var n := |outer| - 1;
            var f, l, init := w.frames[n], outer[n], outer[..n];
            && (f.reg <= MAX_REGNUM ==> f.laststart + 2 < |Closed(code, w.begalt, w.fixup)|)
            && w.regnum >= f.reg
            && var inner := w.regnum - f.reg;
               var cur2 := WithPiece(l, Group(f.reg, inner, LevelTree(cur)));
               var code2 := CountStored(Closed(code, w.begalt, w.fixup), f.laststart, f.reg, inner)
                            + MemoryCode(STOP_MEMORY, f.reg, inner);
               var w2 := Places(w.frames[..n], f.begalt, Some(f.laststart), f.fixup, None, w.regnum);
               Emitted(init, cur2, code2, w2) && Progress(syn, toks, k + 1, init, cur2, w2)
  {
    hide Reading, Emitted, Groups, Len, JumpCode, AllPlain, Nesting, EscapedBefore, LevelTree, Overwritten, Code,
         NothingBefore, MemoryCode;
    FixupPlaces(outer, cur, code, w);
    OuterFacts(syn, toks[..k], outer, cur);
    InnerPlaces(outer, cur, code, w);
    var n := |outer| - 1;
    var f := w.frames[n];
    assert w.regnum - f.reg == GroupCount(LevelTree(cur));
    var inner: nat := w.regnum - f.reg;
    var w2 := Places(w.frames[..n], f.begalt, Some(f.laststart), f.fixup, None, w.regnum);
    Closings(syn, toks, k, outer, cur, w, w2);
    var stop := MemoryCode(STOP_MEMORY, f.reg, inner);
    if cur.pre.Some? {
      var after := JumpCode(JUMP_PAST_ALT, |code| - w.begalt);
      JumpCodeLen(JUMP_PAST_ALT, |code| - w.begalt);
      ClosedParts(code, w);
      var code1, cur1 := Overwritten(code, w.fixup.value, after), cur.(junk := after);
      EmitFixup(outer, cur, code, w, after);
      SameTree(cur, after);
      EmitClose(outer, cur1, code1, w);
      CountBytes(code1, [PUSH_DUMMY_FAILURE], f.laststart, f.reg, inner, stop);
    } else {
      EmitClose(outer, cur, code, w);
      CountBytes(code, [], f.laststart, f.reg, inner, stop);
      assert code + [] == code;
    }
  }

  /** One more `.' or bracket expression. */
  lemma OnePiece(syn: Syntax, toks: seq<Token>, k: nat, outer: seq<Level>, cur: Level, code: seq<Byte>, w: Places,
          piece: Re)
    requires Emitted(outer, cur, code, w) && Progress(syn, toks, k, outer, cur, w) && k < |toks|
    requires (toks[k].Dot? && piece == AnyChar) || (toks[k].Bracket? && piece == CharSet(toks[k].negated, toks[k].bits))
    requires toks[k].Bracket? ==> |toks[k].bits| <= 32
    ensures |code| == w.begalt + Len(cur.branch)
    ensures Code(piece) == if toks[k].Dot? then [ANYCHAR]
                           else [if toks[k].negated then CHARSET_NOT else CHARSET, |toks[k].bits|] + toks[k].bits
    ensures var cur2, w2 := WithPiece(cur, piece), w.(laststart := Some(|code|));
            Emitted(outer, cur2, code + Code(piece), w2) && Progress(syn, toks, k + 1, outer, cur2, w2)
  {
    hide Emitted, Reading, AllPlain, NothingBefore, IsAtom, Code, Len;
    CodeSplit(outer, cur, code, w);
    if toks[k].Dot? { AnyCharRead(syn, toks, k, outer, cur); } else { CharSetRead(syn, toks, k, outer, cur); }
    var w2 := w.(laststart := Some(|code|));
    EmitPiece(outer, cur, code, w, piece, w2);
    OneMore(syn, toks, k, outer, cur, w, WithPiece(cur, piece), w2);
  }

  lemma {:induction false} FirstState(syn: Syntax, toks: seq<Token>)
    ensures var cur, w := Level(None, [], Empty, 0), Places([], 0, None, None, None, 0);
            Emitted([], cur, [], w) && Progress(syn, toks, 0, [], cur, w)
  {
    hide IsRegex, Numbered, Yield, GroupCount, PlainDotLines, Code;
    var cur := Level(None, [], Empty, 0);
    OfEmpty(syn, true, 0);
    assert LevelTree(cur) == Empty && toks[..0] == [] && Code(Empty) == [] && OuterCount([]) == 0 by { NothingRead(); }
  }

  lemma NothingRead()
    ensures Code(Empty) == [] && OuterCount([]) == 0
  {
  }

  lemma CollapseNone(toks: seq<Token>, k: nat)
    requires k <= |toks|
    ensures !ZeroOk(toks[k..k]) && !ManyOk(toks[k..k])
  {
  }

  lemma CollapseMore(toks: seq<Token>, k: nat, k2: nat)
    requires k <= k2 < |toks|
    ensures ZeroOk(toks[k..k2 + 1]) <==> ZeroOk(toks[k..k2]) || toks[k2] != Plus
    ensures ManyOk(toks[k..k2 + 1]) <==> ManyOk(toks[k..k2]) || toks[k2] != Quest
  {
    var s, t := toks[k..k2], toks[k..k2 + 1];
    assert t == s + [toks[k2]];
    assert t[k2 - k] == toks[k2];
    if ZeroOk(s) { var j :| 0 <= j < |s| && s[j] != Plus; assert t[j] != Plus; }
    if ManyOk(s) { var j :| 0 <= j < |s| && s[j] != Quest; assert t[j] != Quest; }
  }

  lemma EmitNewExact(outer: seq<Level>, cur: Level, code: seq<Byte>, w: Places, t: Token, w2: Places)
    requires Emitted(outer, cur, code, w)
    requires w2 == w.(laststart := Some(|code|), pending := Some(|code| + 1))
    ensures var cur2 := WithPiece(cur, Exact([t]));
            Emitted(outer, cur2, code + [EXACTN, 1, CharOf(t)], w2) && Starts(cur2, w2)
  {
    hide Emitted, Code, Len, CharOf;
    CodeSplit(outer, cur, code, w);
    ExactFacts(t, [t]);
    CodeOfExact([t]);
    assert Chars([t]) == [CharOf(t)];
    assert Code(Exact([t])) == [EXACTN, 1, CharOf(t)];
    EmitPiece(outer, cur, code, w, Exact([t]), w2);
    assert Starts(WithPiece(cur, Exact([t])), w2);
  }
}
