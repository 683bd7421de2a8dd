/** The compression function of RFC 1321, section 3.4, and the macros of public/cmd/md5.c that compute it. */
module Md5Rounds {
  type Word = bv32

  // ---------- As the RFC has it ----------

  function F(x: Word, y: Word, z: Word): Word { (x & y) | (!x & z) }
  function G(x: Word, y: Word, z: Word): Word { (x & z) | (y & !z) }
  function H(x: Word, y: Word, z: Word): Word { x ^ y ^ z }
  function I(x: Word, y: Word, z: Word): Word { y ^ (x | !z) }

  function Aux(round: nat, x: Word, y: Word, z: Word): Word {
    if round == 0 then F(x, y, z) else if round == 1 then G(x, y, z) else if round == 2 then H(x, y, z) else I(x, y, z)
  }

  /** The word of the block that operation i of a round takes. */
  function WordOf(round: nat, i: nat): (k: nat)
    ensures k < 16
  {
    if round == 0 then i % 16
    else if round == 1 then (5 * i + 1) % 16
    else if round == 2 then (3 * i + 5) % 16
    else 7 * i % 16
  }

  /** The shift amounts, which repeat every four operations. */
  function ShiftOf(round: nat, i: nat): (s: nat)
    ensures 0 < s < 32
  {
    var j := i % 4;
    if round == 0 then (if j == 0 then 7 else if j == 1 then 12 else if j == 2 then 17 else 22)
    else if round == 1 then (if j == 0 then 5 else if j == 1 then 9 else if j == 2 then 14 else 20)
    else if round == 2 then (if j == 0 then 4 else if j == 1 then 11 else if j == 2 then 16 else 23)
    else (if j == 0 then 6 else if j == 1 then 10 else if j == 2 then 15 else 21)
  }

  function T1(i: nat): Word {
    if i < 8 then
      match i
      case 0 => 0xd76aa478 case 1 => 0xe8c7b756 case 2 => 0x242070db case 3 => 0xc1bdceee
      case 4 => 0xf57c0faf case 5 => 0x4787c62a case 6 => 0xa8304613 case _ => 0xfd469501
    else
      match i
      case 8 => 0x698098d8 case 9 => 0x8b44f7af case 10 => 0xffff5bb1 case 11 => 0x895cd7be
      case 12 => 0x6b901122 case 13 => 0xfd987193 case 14 => 0xa679438e case _ => 0x49b40821
  }

  function T2(i: nat): Word {
    if i < 8 then
      match i
      case 0 => 0xf61e2562 case 1 => 0xc040b340 case 2 => 0x265e5a51 case 3 => 0xe9b6c7aa
      case 4 => 0xd62f105d case 5 => 0x02441453 case 6 => 0xd8a1e681 case _ => 0xe7d3fbc8
    else
      match i
      case 8 => 0x21e1cde6 case 9 => 0xc33707d6 case 10 => 0xf4d50d87 case 11 => 0x455a14ed
      case 12 => 0xa9e3e905 case 13 => 0xfcefa3f8 case 14 => 0x676f02d9 case _ => 0x8d2a4c8a
  }

  function T3(i: nat): Word {
    if i < 8 then
      match i
      case 0 => 0xfffa3942 case 1 => 0x8771f681 case 2 => 0x6d9d6122 case 3 => 0xfde5380c
      case 4 => 0xa4beea44 case 5 => 0x4bdecfa9 case 6 => 0xf6bb4b60 case _ => 0xbebfbc70
    else
      match i
      case 8 => 0x289b7ec6 case 9 => 0xeaa127fa case 10 => 0xd4ef3085 case 11 => 0x04881d05
      case 12 => 0xd9d4d039 case 13 => 0xe6db99e5 case 14 => 0x1fa27cf8 case _ => 0xc4ac5665
  }

  function T4(i: nat): Word {
    if i < 8 then
      match i
      case 0 => 0xf4292244 case 1 => 0x432aff97 case 2 => 0xab9423a7 case 3 => 0xfc93a039
      case 4 => 0x655b59c3 case 5 => 0x8f0ccc92 case 6 => 0xffeff47d case _ => 0x85845dd1
    else
      match i
      case 8 => 0x6fa87e4f case 9 => 0xfe2ce6e0 case 10 => 0xa3014314 case 11 => 0x4e0811a1
      case 12 => 0xf7537e82 case 13 => 0xbd3af235 case 14 => 0x2ad7d2bb case _ => 0xeb86d391
  }

  /** The constants: the integer part of 4294967296 times abs(sin(16 * round + i + 1)). */
  function ConstantOf(round: nat, i: nat): Word {
    if round == 0 then T1(i) else if round == 1 then T2(i) else if round == 2 then T3(i) else T4(i)
  }

  datatype Regs = Regs(a: Word, b: Word, c: Word, d: Word)

  /** A circular shift to the left. */
  function Shifted(w: Word, s: nat): Word
    requires s <= 32
  {
    w.RotateLeft(s)
  }

  function Plus(a: Word, b: Word): Word { a + b }

  function Total(a: Word, f: Word, x: Word, t: Word): Word { a + f + x + t }

  /** [abcd k s i]: a = b + ((a + f + X[k] + T[i]) <<< s). */
  function Operation(a: Word, b: Word, f: Word, x: Word, s: nat, t: Word): Word
    requires s <= 32
  {
    Plus(Shifted(Total(a, f, x, t), s), b)
  }

  /** Operation i of a round; the registers change roles from one operation to the next. */
  function Step(st: Regs, x: seq<Word>, round: nat, i: nat): Regs
    requires |x| == 16 && i < 16
  {
    var w, s, t := x[WordOf(round, i)], ShiftOf(round, i), ConstantOf(round, i);
    var j := i % 4;
    if j == 0 then st.(a := Operation(st.a, st.b, Aux(round, st.b, st.c, st.d), w, s, t))
    else if j == 1 then st.(d := Operation(st.d, st.a, Aux(round, st.a, st.b, st.c), w, s, t))
    else if j == 2 then st.(c := Operation(st.c, st.d, Aux(round, st.d, st.a, st.b), w, s, t))
    else st.(b := Operation(st.b, st.c, Aux(round, st.c, st.d, st.a), w, s, t))
  }

  function Steps(st: Regs, x: seq<Word>, round: nat, n: nat): Regs
    requires |x| == 16 && n <= 16
  {
    if n == 0 then st else Step(Steps(st, x, round, n - 1), x, round, n - 1)
  }

  function Added(st: Regs, saved: Regs): Regs {
    Regs(st.a + saved.a, st.b + saved.b, st.c + saved.c, st.d + saved.d)
  }

  /** One 16-word block. */
  function Compress(st: Regs, x: seq<Word>): Regs
    requires |x| == 16
  {
    Added(Steps(Steps(Steps(Steps(st, x, 0, 16), x, 1, 16), x, 2, 16), x, 3, 16), st)
  }

  // ---------- As the code has it ----------

  function FF(b: Word, c: Word, d: Word): Word { d ^ (b & (c ^ d)) }
  function FG(b: Word, c: Word, d: Word): Word { FF(d, b, c) }
  function FH(b: Word, c: Word, d: Word): Word { b ^ c ^ d }
  function FI(b: Word, c: Word, d: Word): Word { c ^ (b | !d) }

  function Cyclic(w: Word, s: Word): Word
    requires 0 < s < 32
  {
    (w << s) | (w >> (32 - s))
  }

  /** The macro OP: a += f + x + t; CYCLIC (a, s); a += b. */
  function Op(f: Word, a: Word, b: Word, x: Word, s: Word, t: Word): Word
    requires 0 < s < 32
  {
    Plus(Cyclic(Total(a, f, x, t), s), b)
  }

  lemma BitsF(x: Word, y: Word, z: Word)
    ensures z ^ (x & (y ^ z)) == (x & y) | (!x & z)
  {
  }

  lemma BitsG(x: Word, y: Word, z: Word)
    ensures y ^ (z & (x ^ y)) == (x & z) | (y & !z)
  {
  }

  lemma MacroF(x: Word, y: Word, z: Word)
    ensures FF(x, y, z) == F(x, y, z)
  {
    BitsF(x, y, z);
  }

  lemma MacroG(x: Word, y: Word, z: Word)
    ensures FG(x, y, z) == G(x, y, z)
  {
    BitsG(x, y, z);
  }

  lemma MacroHI(x: Word, y: Word, z: Word)
    ensures FH(x, y, z) == H(x, y, z) && FI(x, y, z) == I(x, y, z)
  {
  }

  /** The optimised macros are the four auxiliary functions. */
  lemma MacrosAgree(x: Word, y: Word, z: Word)
    ensures FF(x, y, z) == F(x, y, z) && FG(x, y, z) == G(x, y, z)
    ensures FH(x, y, z) == H(x, y, z) && FI(x, y, z) == I(x, y, z)
  {
    hide *;
    MacroF(x, y, z);
    MacroG(x, y, z);
    MacroHI(x, y, z);
  }

  /** Two shifts and an or make a rotation by the same amount. */
  ghost predicate Rotates(n: nat, s: Word) {
    0 < s < 32 && n <= 32 && forall w :: Cyclic(w, s) == Shifted(w, n)
  }

  lemma CyclicLiterals(w: Word)
    ensures Cyclic(w, 7) == w.RotateLeft(7) && Cyclic(w, 12) == w.RotateLeft(12) && Cyclic(w, 17) == w.RotateLeft(17)
            && Cyclic(w, 22) == w.RotateLeft(22)
    ensures Cyclic(w, 5) == w.RotateLeft(5) && Cyclic(w, 9) == w.RotateLeft(9) && Cyclic(w, 14) == w.RotateLeft(14)
            && Cyclic(w, 20) == w.RotateLeft(20)
    ensures Cyclic(w, 4) == w.RotateLeft(4) && Cyclic(w, 11) == w.RotateLeft(11) && Cyclic(w, 16) == w.RotateLeft(16)
            && Cyclic(w, 23) == w.RotateLeft(23)
    ensures Cyclic(w, 6) == w.RotateLeft(6) && Cyclic(w, 10) == w.RotateLeft(10) && Cyclic(w, 15) == w.RotateLeft(15)
            && Cyclic(w, 21) == w.RotateLeft(21)
  {
  }

  lemma ShiftedLiterals(w: Word)
    ensures Shifted(w, 7) == w.RotateLeft(7) && Shifted(w, 12) == w.RotateLeft(12)
            && Shifted(w, 17) == w.RotateLeft(17) && Shifted(w, 22) == w.RotateLeft(22)
    ensures Shifted(w, 5) == w.RotateLeft(5) && Shifted(w, 9) == w.RotateLeft(9) && Shifted(w, 14) == w.RotateLeft(14)
            && Shifted(w, 20) == w.RotateLeft(20)
    ensures Shifted(w, 4) == w.RotateLeft(4) && Shifted(w, 11) == w.RotateLeft(11)
            && Shifted(w, 16) == w.RotateLeft(16) && Shifted(w, 23) == w.RotateLeft(23)
    ensures Shifted(w, 6) == w.RotateLeft(6) && Shifted(w, 10) == w.RotateLeft(10)
            && Shifted(w, 15) == w.RotateLeft(15) && Shifted(w, 21) == w.RotateLeft(21)
  {
  }

  /** The shift amounts in use. */
  lemma Amounts()
    ensures Rotates(7, 7) && Rotates(12, 12) && Rotates(17, 17) && Rotates(22, 22)
    ensures Rotates(5, 5) && Rotates(9, 9) && Rotates(14, 14) && Rotates(20, 20)
    ensures Rotates(4, 4) && Rotates(11, 11) && Rotates(16, 16) && Rotates(23, 23)
    ensures Rotates(6, 6) && Rotates(10, 10) && Rotates(15, 15) && Rotates(21, 21)
  {
    hide Cyclic, Shifted;
    forall w
      ensures Cyclic(w, 7) == Shifted(w, 7) && Cyclic(w, 12) == Shifted(w, 12) && Cyclic(w, 17) == Shifted(w, 17)
              && Cyclic(w, 22) == Shifted(w, 22)
      ensures Cyclic(w, 5) == Shifted(w, 5) && Cyclic(w, 9) == Shifted(w, 9) && Cyclic(w, 14) == Shifted(w, 14)
              && Cyclic(w, 20) == Shifted(w, 20)
      ensures Cyclic(w, 4) == Shifted(w, 4) && Cyclic(w, 11) == Shifted(w, 11) && Cyclic(w, 16) == Shifted(w, 16)
              && Cyclic(w, 23) == Shifted(w, 23)
      ensures Cyclic(w, 6) == Shifted(w, 6) && Cyclic(w, 10) == Shifted(w, 10) && Cyclic(w, 15) == Shifted(w, 15)
              && Cyclic(w, 21) == Shifted(w, 21)
    {
      CyclicLiterals(w);
      ShiftedLiterals(w);
    }
  }

  lemma OpIs(f: Word, a: Word, b: Word, x: Word, s: Word, t: Word)
    requires 0 < s < 32
    ensures Op(f, a, b, x, s, t) == Plus(Cyclic(Total(a, f, x, t), s), b)
  {
    hide Cyclic, Total, Plus;
  }

  lemma OperationIs(f: Word, a: Word, b: Word, x: Word, n: nat, t: Word)
    requires n <= 32
    ensures Operation(a, b, f, x, n, t) == Plus(Shifted(Total(a, f, x, t), n), b)
  {
    hide Shifted, Total, Plus;
  }

  lemma OpIsOperation(f: Word, a: Word, b: Word, x: Word, n: nat, s: Word, t: Word)
    requires Rotates(n, s)
    ensures 0 < s < 32 && n <= 32 && Op(f, a, b, x, s, t) == Operation(a, b, f, x, n, t)
  {
    hide *;
    RotatesAt(Total(a, f, x, t), n, s);
    OpIs(f, a, b, x, s, t);
    OperationIs(f, a, b, x, n, t);
  }

  lemma RotatesAt(v: Word, n: nat, s: Word)
    requires Rotates(n, s)
    ensures 0 < s < 32 && n <= 32 && Cyclic(v, s) == Shifted(v, n)
  {
    hide Cyclic, Shifted;
  }
}
