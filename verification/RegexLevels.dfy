/** The trees under construction while regex_compile reads a pattern, and the code emitted for them so far. */
module RegexLevels {
  import opened Wrappers
  import opened RegexTree
  import opened RegexCode
  import opened RegexLayout
  import opened RegexGrammar

  /** One level of nesting: the alternatives already closed by a `|', the bytes now in the place of the jump after
      them, the branch being read, and the number of the group opened after it. */
  datatype Level = Level(pre: Option<Re>, junk: seq<Byte>, branch: Re, reg: nat)

  function LevelTree(l: Level): Re {
    if l.pre.Some? then Alt(l.pre.value, l.branch) else l.branch
  }

  function HeadCode(l: Level): seq<Byte> {
    if l.pre.Some? then PreCode(l.pre.value) + l.junk else []
  }

  function LevelCode(l: Level): seq<Byte> {
    HeadCode(l) + Code(l.branch)
  }

  function OuterCode(levels: seq<Level>): seq<Byte> {
    if levels == [] then []
    else
      var l := levels[|levels| - 1];
      OuterCode(levels[..|levels| - 1]) + LevelCode(l) + MemoryCode(START_MEMORY, l.reg, 0)
  }

  function OuterYield(levels: seq<Level>): seq<Token> {
    if levels == [] then []
    else OuterYield(levels[..|levels| - 1]) + Yield(LevelTree(levels[|levels| - 1])) + [Open]
  }

  function OuterCount(levels: seq<Level>): nat {
    if levels == [] then 0
    else OuterCount(levels[..|levels| - 1]) + GroupCount(LevelTree(levels[|levels| - 1])) + 1
  }

  ghost predicate LevelOk(syn: Syntax, l: Level, top: bool, lo: nat) {
    && !l.branch.Alt?
    && (l.pre.Some? ==> |l.junk| == 3)
    && IsRegex(syn, LevelTree(l), top)
    && Numbered(LevelTree(l), lo)
  }

  ghost predicate OuterOk(syn: Syntax, levels: seq<Level>) {
    levels == [] ||
    (var init, l := levels[..|levels| - 1], levels[|levels| - 1];
     OuterOk(syn, init) && LevelOk(syn, l, init == [], OuterCount(init)) && l.reg == OuterCount(levels))
  }

  ghost predicate OuterPlain(levels: seq<Level>) {
    levels == [] || (OuterPlain(levels[..|levels| - 1]) && PlainDotLines(LevelTree(levels[|levels| - 1])))
  }

  /** The trees stand for the tokens read, in the grammar, with their groups numbered. */
  ghost predicate Reading(syn: Syntax, outer: seq<Level>, cur: Level, toks: seq<Token>) {
    && OuterOk(syn, outer)
    && LevelOk(syn, cur, outer == [], OuterCount(outer))
    && OuterYield(outer) + Yield(LevelTree(cur)) == toks
  }

  function Groups(outer: seq<Level>, cur: Level): nat {
    OuterCount(outer) + GroupCount(LevelTree(cur))
  }

  ghost predicate AllPlain(outer: seq<Level>, cur: Level) {
    OuterPlain(outer) && PlainDotLines(LevelTree(cur))
  }

  function WithPiece(l: Level, piece: Re): Level {
    l.(branch := Cat(l.branch, piece))
  }

  /** What a piece at the end of the branch adds to the level's tree. */
  lemma {:induction false} PieceAdds(syn: Syntax, l: Level, piece: Re, top: bool, lo: nat)
    requires !l.branch.Alt?
    ensures IsRegex(syn, LevelTree(WithPiece(l, piece)), top) <==>
      IsRegex(syn, LevelTree(l), top) && IsPiece(syn, piece, NothingBefore(l.branch), top)
    ensures Numbered(LevelTree(WithPiece(l, piece)), lo) <==>
      Numbered(LevelTree(l), lo) && Numbered(piece, lo + GroupCount(LevelTree(l)))
    ensures GroupCount(LevelTree(WithPiece(l, piece))) == GroupCount(LevelTree(l)) + GroupCount(piece)
    ensures Yield(LevelTree(WithPiece(l, piece))) == Yield(LevelTree(l)) + Yield(piece)
    ensures PlainDotLines(LevelTree(WithPiece(l, piece))) <==> PlainDotLines(LevelTree(l)) && PlainDotLines(piece)
  {
    hide IsRegex, IsPiece, NothingBefore, Yield, GroupCount, Numbered, PlainDotLines;
    PieceAddsShape(syn, l, piece, top);
    var both := Cat(l.branch, piece);
    OfCat(l.branch, piece, lo);
    if l.pre.Some? {
      var pre := l.pre.value;
      OfCat(l.branch, piece, lo + GroupCount(pre));
      OfAlt(pre, both, lo);
      OfAlt(pre, l.branch, lo);
      assert Yield(pre) + [Bar] + (Yield(l.branch) + Yield(piece))
             == Yield(pre) + [Bar] + Yield(l.branch) + Yield(piece);
    }
  }

  lemma {:induction false} OfCat(a: Re, b: Re, lo: nat)
    ensures Yield(Cat(a, b)) == Yield(a) + Yield(b) && GroupCount(Cat(a, b)) == GroupCount(a) + GroupCount(b)
    ensures Numbered(Cat(a, b), lo) <==> Numbered(a, lo) && Numbered(b, lo + GroupCount(a))
    ensures PlainDotLines(Cat(a, b)) <==> PlainDotLines(a) && PlainDotLines(b)
  {
  }

  lemma {:induction false} OfAlt(pre: Re, last: Re, lo: nat)
    ensures Yield(Alt(pre, last)) == Yield(pre) + [Bar] + Yield(last)
    ensures GroupCount(Alt(pre, last)) == GroupCount(pre) + GroupCount(last)
    ensures Numbered(Alt(pre, last), lo) <==> Numbered(pre, lo) && Numbered(last, lo + GroupCount(pre))
    ensures PlainDotLines(Alt(pre, last)) <==> PlainDotLines(pre) && PlainDotLines(last)
  {
  }

  lemma {:induction false} PieceAddsShape(syn: Syntax, l: Level, piece: Re, top: bool)
    requires !l.branch.Alt?
    ensures IsRegex(syn, LevelTree(WithPiece(l, piece)), top) <==>
      IsRegex(syn, LevelTree(l), top) && IsPiece(syn, piece, NothingBefore(l.branch), top)
  {
    hide IsPiece, NothingBefore;
    assert IsBranch(syn, Cat(l.branch, piece), top) <==>
      IsBranch(syn, l.branch, top) && IsPiece(syn, piece, NothingBefore(l.branch), top);
  }

  /** A piece can be added to the branch. */
  lemma AddPiece(syn: Syntax, outer: seq<Level>, cur: Level, toks: seq<Token>, piece: Re)
    requires Reading(syn, outer, cur, toks)
    requires IsPiece(syn, piece, NothingBefore(cur.branch), outer == [])
    requires Numbered(piece, Groups(outer, cur))
    ensures Reading(syn, outer, WithPiece(cur, piece), toks + Yield(piece))
    ensures Groups(outer, WithPiece(cur, piece)) == Groups(outer, cur) + GroupCount(piece)
    ensures AllPlain(outer, WithPiece(cur, piece)) <==> AllPlain(outer, cur) && PlainDotLines(piece)
  {
    hide IsRegex, IsPiece, NothingBefore, Numbered, Yield, GroupCount, PlainDotLines, OuterOk, OuterPlain, OuterYield,
         OuterCount, LevelTree;
    PieceAdds(syn, cur, piece, outer == [], OuterCount(outer));
    var x, y := OuterYield(outer), Yield(LevelTree(cur));
    assert x + (y + Yield(piece)) == x + y + Yield(piece);
  }

  /** The last piece can be taken off ... */
  lemma DropPiece(syn: Syntax, outer: seq<Level>, cur: Level, toks: seq<Token>)
    requires Reading(syn, outer, cur, toks) && cur.branch.Cat? && !cur.branch.a.Alt?
    ensures var piece := cur.branch.b;
            var rest := cur.(branch := cur.branch.a);
            && |Yield(piece)| <= |toks| && toks[|toks| - |Yield(piece)|..] == Yield(piece)
            && Reading(syn, outer, rest, toks[..|toks| - |Yield(piece)|])
            && IsPiece(syn, piece, NothingBefore(rest.branch), outer == [])
            && Numbered(piece, Groups(outer, rest)) && Groups(outer, cur) == Groups(outer, rest) + GroupCount(piece)
            && (AllPlain(outer, cur) <==> AllPlain(outer, rest) && PlainDotLines(piece))
  {
    hide IsRegex, IsPiece, NothingBefore, Numbered, Yield, GroupCount, PlainDotLines, OuterOk, OuterPlain, OuterYield,
         OuterCount, LevelTree;
    var piece := cur.branch.b;
    var rest := cur.(branch := cur.branch.a);
    assert WithPiece(rest, piece) == cur;
    PieceAdds(syn, rest, piece, outer == [], OuterCount(outer));
    var kept := OuterYield(outer) + Yield(LevelTree(rest));
    assert toks == kept + Yield(piece);
    assert toks[..|toks| - |Yield(piece)|] == kept;
  }

  /** The first part of a branch is a branch. */
  lemma BranchFirst(syn: Syntax, outer: seq<Level>, cur: Level, toks: seq<Token>)
    requires Reading(syn, outer, cur, toks) && cur.branch.Cat?
    ensures !cur.branch.a.Alt?
  {
    hide IsPiece, NothingBefore, OuterOk, OuterYield, OuterCount, Numbered, Yield;
    assert IsBranch(syn, cur.branch, outer == []);
    assert IsBranch(syn, cur.branch.a, outer == []);
  }

  /** A `|' closes the branch and makes everything at this level one more leading alternative. */
  lemma AddBar(syn: Syntax, outer: seq<Level>, cur: Level, toks: seq<Token>, junk: seq<Byte>)
    requires Reading(syn, outer, cur, toks) && |junk| == 3
    ensures var next := Level(Some(LevelTree(cur)), junk, Empty, cur.reg);
            && Reading(syn, outer, next, toks + [Bar])
            && Groups(outer, next) == Groups(outer, cur)
            && (AllPlain(outer, next) <==> AllPlain(outer, cur))
  {
    hide IsRegex, Numbered, Yield, GroupCount, PlainDotLines, OuterOk, OuterPlain, OuterYield, OuterCount;
    var next := Level(Some(LevelTree(cur)), junk, Empty, cur.reg);
    assert LevelTree(next) == Alt(LevelTree(cur), Empty);
    AltEmpty(syn, LevelTree(cur), outer == [], OuterCount(outer));
    var x, y := OuterYield(outer), Yield(LevelTree(cur));
    assert x + (y + [Bar]) == x + y + [Bar];
  }

  lemma {:induction false} AltEmpty(syn: Syntax, t: Re, top: bool, lo: nat)
    ensures IsRegex(syn, Alt(t, Empty), top) <==> IsRegex(syn, t, top)
    ensures Numbered(Alt(t, Empty), lo) <==> Numbered(t, lo)
    ensures GroupCount(Alt(t, Empty)) == GroupCount(t) && (PlainDotLines(Alt(t, Empty)) <==> PlainDotLines(t))
    ensures Yield(Alt(t, Empty)) == Yield(t) + [Bar]
  {
    hide IsRegex, Numbered, Yield, GroupCount, PlainDotLines;
    OfAlt(t, Empty, lo);
    OfEmpty(syn, top, lo + GroupCount(t));
    AltShape(syn, t, Empty, top);
  }

  lemma {:induction false} AltShape(syn: Syntax, pre: Re, last: Re, top: bool)
    ensures IsRegex(syn, Alt(pre, last), top) <==> IsRegex(syn, pre, top) && IsBranch(syn, last, top)
  {
    hide IsBranch;
  }

  lemma {:induction false} OfEmpty(syn: Syntax, top: bool, lo: nat)
    ensures Yield(Empty) == [] && GroupCount(Empty) == 0 && Numbered(Empty, lo) && PlainDotLines(Empty)
    ensures IsBranch(syn, Empty, top) && IsRegex(syn, Empty, top)
  {
  }

  /** A `(' opens a level. */
  lemma AddOpen(syn: Syntax, outer: seq<Level>, cur: Level, toks: seq<Token>, reg: nat)
    requires Reading(syn, outer, cur, toks) && reg == Groups(outer, cur) + 1
    ensures var outer2 := outer + [cur.(reg := reg)];
            var next := Level(None, [], Empty, 0);
            && outer2[..|outer|] == outer
            && Reading(syn, outer2, next, toks + [Open])
            && Groups(outer2, next) == reg
            && (AllPlain(outer2, next) <==> AllPlain(outer, cur))
  {
    hide IsRegex, Numbered, Yield, GroupCount, PlainDotLines;
    var outer2 := outer + [cur.(reg := reg)];
    assert outer2[..|outer2| - 1] == outer;
    assert LevelTree(cur.(reg := reg)) == LevelTree(cur);
    EmptyTree(syn, OuterCount(outer2));
    assert OuterYield(outer2) + [] == toks + [Open];
  }

  lemma EmptyTree(syn: Syntax, lo: nat)
    ensures IsRegex(syn, Empty, false) && Numbered(Empty, lo) && Yield(Empty) == [] && GroupCount(Empty) == 0
    ensures PlainDotLines(Empty)
  {
    hide IsRegex, Numbered, Yield, GroupCount, PlainDotLines;
    OfEmpty(syn, false, lo);
  }

  /** A `)' makes the innermost level a group, the next piece of the level around it. */
  lemma AddClose(syn: Syntax, outer: seq<Level>, cur: Level, toks: seq<Token>)
    requires Reading(syn, outer, cur, toks) && outer != []
    ensures var init, l := outer[..|outer| - 1], outer[|outer| - 1];
            var inner := GroupCount(LevelTree(cur));
            var group := Group(l.reg, inner, LevelTree(cur));
            && Reading(syn, init, WithPiece(l, group), toks + [Close])
            && Groups(init, WithPiece(l, group)) == Groups(outer, cur) == l.reg + inner
            && (AllPlain(init, WithPiece(l, group)) <==> AllPlain(outer, cur))
  {
    var init, l := outer[..|outer| - 1], outer[|outer| - 1];
    var inner := GroupCount(LevelTree(cur));
    var group := Group(l.reg, inner, LevelTree(cur));
    var so := OuterYield(init) + Yield(LevelTree(l));
    GroupPiece(syn, l, cur, init == [], NothingBefore(l.branch), l.reg - 1);
    hide IsRegex, IsPiece, Numbered, GroupCount, PlainDotLines, NothingBefore;
    assert Reading(syn, init, l, so);
    AddPiece(syn, init, l, so, group);
    assert so + ([Open] + Yield(LevelTree(cur)) + [Close]) == so + [Open] + Yield(LevelTree(cur)) + [Close];
  }

  lemma GroupPiece(syn: Syntax, l: Level, cur: Level, top: bool, start: bool, lo: nat)
    requires IsRegex(syn, LevelTree(cur), false) && Numbered(LevelTree(cur), lo + 1) && l.reg == lo + 1
    ensures var group := Group(l.reg, GroupCount(LevelTree(cur)), LevelTree(cur));
            && IsPiece(syn, group, start, top) && Numbered(group, lo)
            && GroupCount(group) == 1 + GroupCount(LevelTree(cur))
            && Yield(group) == [Open] + Yield(LevelTree(cur)) + [Close]
            && (PlainDotLines(group) <==> PlainDotLines(LevelTree(cur)))
  {
  }

  lemma NestingSnoc(toks: seq<Token>, t: Token)
    ensures Nesting(toks + [t]) ==
      match t case Open => Nesting(toks) + 1 case Close => (if Nesting(toks) > 0 then Nesting(toks) - 1 else 0)
              case _ => Nesting(toks)
  {
    assert (toks + [t])[..|toks|] == toks;
  }
}
