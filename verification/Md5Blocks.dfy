/** The four rounds of md5_process_block (public/cmd/md5.c), written out as the macros expand. */
module Md5Blocks {
  import opened Md5Rounds

  function Macro(round: nat, b: Word, c: Word, d: Word): Word {
    if round == 0 then FF(b, c, d) else if round == 1 then FG(b, c, d) else if round == 2 then FH(b, c, d)
      else FI(b, c, d)
  }

  lemma MacroAgrees(round: nat, x: Word, y: Word, z: Word)
    ensures Macro(round, x, y, z) == Aux(round, x, y, z)
  {
    hide FF, FG, FH, FI, F, G, H, I;
    MacrosAgree(x, y, z);
  }

  /** The parameters of one line of a round: the word, the shift amount and the constant. */
  datatype Row = Row(k: nat, s: Word, t: Word)

  function TrueRow(round: nat, i: nat, s: Word): Row {
    Row(WordOf(round, i), s, ConstantOf(round, i))
  }

  ghost predicate IsRow(row: Row, round: nat, i: nat) {
    i < 16 && row == TrueRow(round, i, row.s) && Rotates(ShiftOf(round, i), row.s)
  }

  function Line(round: nat, x: seq<Word>, row: Row, a: Word, b: Word, c: Word, d: Word): Word
    requires row.k < |x| && 0 < row.s < 32
  {
    Op(Macro(round, b, c, d), a, b, x[row.k], row.s, row.t)
  }

  lemma RowFacts(row: Row, round: nat, i: nat)
    requires IsRow(row, round, i)
    ensures i < 16 && row.k < 16 && 0 < row.s < 32
  {
  }

  lemma StepIs(st: Regs, x: seq<Word>, round: nat, i: nat, row: Row)
    requires |x| == 16 && IsRow(row, round, i)
    ensures i < 16 && row.k < 16 && 0 < row.s < 32
    ensures i % 4 == 0 ==> Step(st, x, round, i) == st.(a := Line(round, x, row, st.a, st.b, st.c, st.d))
    ensures i % 4 == 1 ==> Step(st, x, round, i) == st.(d := Line(round, x, row, st.d, st.a, st.b, st.c))
    ensures i % 4 == 2 ==> Step(st, x, round, i) == st.(c := Line(round, x, row, st.c, st.d, st.a, st.b))
    ensures i % 4 == 3 ==> Step(st, x, round, i) == st.(b := Line(round, x, row, st.b, st.c, st.d, st.a))
  {
    hide Op, Operation, Aux, Macro, WordOf, ShiftOf, ConstantOf, Rotates;
    RowFacts(row, round, i);
    MacroAgrees(round, st.b, st.c, st.d);
    MacroAgrees(round, st.a, st.b, st.c);
    MacroAgrees(round, st.d, st.a, st.b);
    MacroAgrees(round, st.c, st.d, st.a);
    var n := ShiftOf(round, i);
    OpIsOperation(Aux(round, st.b, st.c, st.d), st.a, st.b, x[row.k], n, row.s, row.t);
    OpIsOperation(Aux(round, st.a, st.b, st.c), st.d, st.a, x[row.k], n, row.s, row.t);
    OpIsOperation(Aux(round, st.d, st.a, st.b), st.c, st.d, x[row.k], n, row.s, row.t);
    OpIsOperation(Aux(round, st.c, st.d, st.a), st.b, st.c, x[row.k], n, row.s, row.t);
  }

  /** Four lines of a round, in which each register is assigned once. */
  method FourLines(ghost st: Regs, x: seq<Word>, round: nat, ghost i: nat, was: Regs, r0: Row, r1: Row, r2: Row,
          r3: Row)
    returns (now: Regs)
    requires |x| == 16 && i % 4 == 0 && i <= 12 && Steps(st, x, round, i) == was
    requires IsRow(r0, round, i) && IsRow(r1, round, i + 1) && IsRow(r2, round, i + 2) && IsRow(r3, round, i + 3)
    ensures Steps(st, x, round, i + 4) == now
  {
    hide Step, IsRow, Rotates, Macro, Op;
    var a, b, c, d := was.a, was.b, was.c, was.d;
    StepIs(was, x, round, i, r0);
    a := Op(Macro(round, b, c, d), a, b, x[r0.k], r0.s, r0.t);
    assert Steps(st, x, round, i + 1) == Regs(a, b, c, d);
    StepIs(Regs(a, b, c, d), x, round, i + 1, r1);
    d := Op(Macro(round, a, b, c), d, a, x[r1.k], r1.s, r1.t);
    assert Steps(st, x, round, i + 2) == Regs(a, b, c, d);
    StepIs(Regs(a, b, c, d), x, round, i + 2, r2);
    c := Op(Macro(round, d, a, b), c, d, x[r2.k], r2.s, r2.t);
    assert Steps(st, x, round, i + 3) == Regs(a, b, c, d);
    StepIs(Regs(a, b, c, d), x, round, i + 3, r3);
    b := Op(Macro(round, c, d, a), b, c, x[r3.k], r3.s, r3.t);
    now := Regs(a, b, c, d);
  }

  lemma NoSteps(st: Regs, x: seq<Word>, round: nat)
    requires |x| == 16
    ensures Steps(st, x, round, 0) == st
  {
  }

  lemma Rows1a()
    ensures IsRow(Row(0, 7, 0xd76aa478), 0, 0) && IsRow(Row(1, 12, 0xe8c7b756), 0, 1)
    ensures IsRow(Row(2, 17, 0x242070db), 0, 2) && IsRow(Row(3, 22, 0xc1bdceee), 0, 3)
    ensures IsRow(Row(4, 7, 0xf57c0faf), 0, 4) && IsRow(Row(5, 12, 0x4787c62a), 0, 5)
    ensures IsRow(Row(6, 17, 0xa8304613), 0, 6) && IsRow(Row(7, 22, 0xfd469501), 0, 7)
  {
    hide Rotates;
    Amounts();
  }

  lemma Rows1b()
    ensures IsRow(Row(8, 7, 0x698098d8), 0, 8) && IsRow(Row(9, 12, 0x8b44f7af), 0, 9)
    ensures IsRow(Row(10, 17, 0xffff5bb1), 0, 10) && IsRow(Row(11, 22, 0x895cd7be), 0, 11)
    ensures IsRow(Row(12, 7, 0x6b901122), 0, 12) && IsRow(Row(13, 12, 0xfd987193), 0, 13)
    ensures IsRow(Row(14, 17, 0xa679438e), 0, 14) && IsRow(Row(15, 22, 0x49b40821), 0, 15)
  {
    hide Rotates;
    Amounts();
  }

  /** Round 1. */
  method Round1(st: Regs, x: seq<Word>) returns (r: Regs)
    requires |x| == 16
    ensures r == Steps(st, x, 0, 16)
  {
    hide Steps, IsRow;
    Rows1a();
    Rows1b();
    NoSteps(st, x, 0);
    r := FourLines(st, x, 0, 0, st, Row(0, 7, 0xd76aa478), Row(1, 12, 0xe8c7b756), Row(2, 17, 0x242070db),
      Row(3, 22, 0xc1bdceee));
    r := FourLines(st, x, 0, 4, r, Row(4, 7, 0xf57c0faf), Row(5, 12, 0x4787c62a), Row(6, 17, 0xa8304613),
      Row(7, 22, 0xfd469501));
    r := FourLines(st, x, 0, 8, r, Row(8, 7, 0x698098d8), Row(9, 12, 0x8b44f7af), Row(10, 17, 0xffff5bb1),
      Row(11, 22, 0x895cd7be));
    r := FourLines(st, x, 0, 12, r, Row(12, 7, 0x6b901122), Row(13, 12, 0xfd987193), Row(14, 17, 0xa679438e),
      Row(15, 22, 0x49b40821));
  }

  lemma Rows2a()
    ensures IsRow(Row(1, 5, 0xf61e2562), 1, 0) && IsRow(Row(6, 9, 0xc040b340), 1, 1)
    ensures IsRow(Row(11, 14, 0x265e5a51), 1, 2) && IsRow(Row(0, 20, 0xe9b6c7aa), 1, 3)
    ensures IsRow(Row(5, 5, 0xd62f105d), 1, 4) && IsRow(Row(10, 9, 0x02441453), 1, 5)
    ensures IsRow(Row(15, 14, 0xd8a1e681), 1, 6) && IsRow(Row(4, 20, 0xe7d3fbc8), 1, 7)
  {
    hide Rotates;
    Amounts();
  }

  lemma Rows2b()
    ensures IsRow(Row(9, 5, 0x21e1cde6), 1, 8) && IsRow(Row(14, 9, 0xc33707d6), 1, 9)
    ensures IsRow(Row(3, 14, 0xf4d50d87), 1, 10) && IsRow(Row(8, 20, 0x455a14ed), 1, 11)
    ensures IsRow(Row(13, 5, 0xa9e3e905), 1, 12) && IsRow(Row(2, 9, 0xfcefa3f8), 1, 13)
    ensures IsRow(Row(7, 14, 0x676f02d9), 1, 14) && IsRow(Row(12, 20, 0x8d2a4c8a), 1, 15)
  {
    hide Rotates;
    Amounts();
  }

  /** Round 2. */
  method Round2(st: Regs, x: seq<Word>) returns (r: Regs)
    requires |x| == 16
    ensures r == Steps(st, x, 1, 16)
  {
    hide Steps, IsRow;
    Rows2a();
    Rows2b();
    NoSteps(st, x, 1);
    r := FourLines(st, x, 1, 0, st, Row(1, 5, 0xf61e2562), Row(6, 9, 0xc040b340), Row(11, 14, 0x265e5a51),
      Row(0, 20, 0xe9b6c7aa));
    r := FourLines(st, x, 1, 4, r, Row(5, 5, 0xd62f105d), Row(10, 9, 0x02441453), Row(15, 14, 0xd8a1e681),
      Row(4, 20, 0xe7d3fbc8));
    r := FourLines(st, x, 1, 8, r, Row(9, 5, 0x21e1cde6), Row(14, 9, 0xc33707d6), Row(3, 14, 0xf4d50d87),
      Row(8, 20, 0x455a14ed));
    r := FourLines(st, x, 1, 12, r, Row(13, 5, 0xa9e3e905), Row(2, 9, 0xfcefa3f8), Row(7, 14, 0x676f02d9),
      Row(12, 20, 0x8d2a4c8a));
  }

  lemma Rows3a()
    ensures IsRow(Row(5, 4, 0xfffa3942), 2, 0) && IsRow(Row(8, 11, 0x8771f681), 2, 1)
    ensures IsRow(Row(11, 16, 0x6d9d6122), 2, 2) && IsRow(Row(14, 23, 0xfde5380c), 2, 3)
    ensures IsRow(Row(1, 4, 0xa4beea44), 2, 4) && IsRow(Row(4, 11, 0x4bdecfa9), 2, 5)
    ensures IsRow(Row(7, 16, 0xf6bb4b60), 2, 6) && IsRow(Row(10, 23, 0xbebfbc70), 2, 7)
  {
    hide Rotates;
    Amounts();
  }

  lemma Rows3b()
    ensures IsRow(Row(13, 4, 0x289b7ec6), 2, 8) && IsRow(Row(0, 11, 0xeaa127fa), 2, 9)
    ensures IsRow(Row(3, 16, 0xd4ef3085), 2, 10) && IsRow(Row(6, 23, 0x04881d05), 2, 11)
    ensures IsRow(Row(9, 4, 0xd9d4d039), 2, 12) && IsRow(Row(12, 11, 0xe6db99e5), 2, 13)
    ensures IsRow(Row(15, 16, 0x1fa27cf8), 2, 14) && IsRow(Row(2, 23, 0xc4ac5665), 2, 15)
  {
    hide Rotates;
    Amounts();
  }

  /** Round 3. */
  method Round3(st: Regs, x: seq<Word>) returns (r: Regs)
    requires |x| == 16
    ensures r == Steps(st, x, 2, 16)
  {
    hide Steps, IsRow;
    Rows3a();
    Rows3b();
    NoSteps(st, x, 2);
    r := FourLines(st, x, 2, 0, st, Row(5, 4, 0xfffa3942), Row(8, 11, 0x8771f681), Row(11, 16, 0x6d9d6122),
      Row(14, 23, 0xfde5380c));
    r := FourLines(st, x, 2, 4, r, Row(1, 4, 0xa4beea44), Row(4, 11, 0x4bdecfa9), Row(7, 16, 0xf6bb4b60),
      Row(10, 23, 0xbebfbc70));
    r := FourLines(st, x, 2, 8, r, Row(13, 4, 0x289b7ec6), Row(0, 11, 0xeaa127fa), Row(3, 16, 0xd4ef3085),
      Row(6, 23, 0x04881d05));
    r := FourLines(st, x, 2, 12, r, Row(9, 4, 0xd9d4d039), Row(12, 11, 0xe6db99e5), Row(15, 16, 0x1fa27cf8),
      Row(2, 23, 0xc4ac5665));
  }

  lemma Rows4a()
    ensures IsRow(Row(0, 6, 0xf4292244), 3, 0) && IsRow(Row(7, 10, 0x432aff97), 3, 1)
    ensures IsRow(Row(14, 15, 0xab9423a7), 3, 2) && IsRow(Row(5, 21, 0xfc93a039), 3, 3)
    ensures IsRow(Row(12, 6, 0x655b59c3), 3, 4) && IsRow(Row(3, 10, 0x8f0ccc92), 3, 5)
    ensures IsRow(Row(10, 15, 0xffeff47d), 3, 6) && IsRow(Row(1, 21, 0x85845dd1), 3, 7)
  {
    hide Rotates;
    Amounts();
  }

  lemma Rows4b()
    ensures IsRow(Row(8, 6, 0x6fa87e4f), 3, 8) && IsRow(Row(15, 10, 0xfe2ce6e0), 3, 9)
    ensures IsRow(Row(6, 15, 0xa3014314), 3, 10) && IsRow(Row(13, 21, 0x4e0811a1), 3, 11)
    ensures IsRow(Row(4, 6, 0xf7537e82), 3, 12) && IsRow(Row(11, 10, 0xbd3af235), 3, 13)
    ensures IsRow(Row(2, 15, 0x2ad7d2bb), 3, 14) && IsRow(Row(9, 21, 0xeb86d391), 3, 15)
  {
    hide Rotates;
    Amounts();
  }

  /** Round 4. */
  method Round4(st: Regs, x: seq<Word>) returns (r: Regs)
    requires |x| == 16
    ensures r == Steps(st, x, 3, 16)
  {
    hide Steps, IsRow;
    Rows4a();
    Rows4b();
    NoSteps(st, x, 3);
    r := FourLines(st, x, 3, 0, st, Row(0, 6, 0xf4292244), Row(7, 10, 0x432aff97), Row(14, 15, 0xab9423a7),
      Row(5, 21, 0xfc93a039));
    r := FourLines(st, x, 3, 4, r, Row(12, 6, 0x655b59c3), Row(3, 10, 0x8f0ccc92), Row(10, 15, 0xffeff47d),
      Row(1, 21, 0x85845dd1));
    r := FourLines(st, x, 3, 8, r, Row(8, 6, 0x6fa87e4f), Row(15, 10, 0xfe2ce6e0), Row(6, 15, 0xa3014314),
      Row(13, 21, 0x4e0811a1));
    r := FourLines(st, x, 3, 12, r, Row(4, 6, 0xf7537e82), Row(11, 10, 0xbd3af235), Row(2, 15, 0x2ad7d2bb),
      Row(9, 21, 0xeb86d391));
  }
}
