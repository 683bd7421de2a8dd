/** The digest of the empty message, the first of the test suite in section A.5 of RFC 1321, operation by operation. */
module Md5Vector {
  import opened Md5Rounds
  import opened Md5

  // ---------- The registers before each operation, and after the last ----------

  function After1(i: nat): Regs {
    match i
    case 0 => Regs(0x67452301, 0xefcdab89, 0x98badcfe, 0x10325476)
    case 1 => Regs(0xa5202774, 0xefcdab89, 0x98badcfe, 0x10325476)
    case 2 => Regs(0xa5202774, 0xefcdab89, 0x98badcfe, 0xf59592dd)
    case 3 => Regs(0xa5202774, 0xefcdab89, 0xe7f06b23, 0xf59592dd)
    case 4 => Regs(0xa5202774, 0x1b163203, 0xe7f06b23, 0xf59592dd)
    case 5 => Regs(0x32033344, 0x1b163203, 0xe7f06b23, 0xf59592dd)
    case 6 => Regs(0x32033344, 0x1b163203, 0xe7f06b23, 0x2f35d494)
    case 7 => Regs(0x32033344, 0x1b163203, 0xf5b158db, 0x2f35d494)
    case 8 => Regs(0x32033344, 0x9bc13ce9, 0xf5b158db, 0x2f35d494)
    case 9 => Regs(0x3893b991, 0x9bc13ce9, 0xf5b158db, 0x2f35d494)
    case 10 => Regs(0x3893b991, 0x9bc13ce9, 0xf5b158db, 0xfce4a312)
    case 11 => Regs(0x3893b991, 0x9bc13ce9, 0xe1ef0576, 0xfce4a312)
    case 12 => Regs(0x3893b991, 0x70768a29, 0xe1ef0576, 0xfce4a312)
    case 13 => Regs(0xf56c7cf1, 0x70768a29, 0xe1ef0576, 0xfce4a312)
    case 14 => Regs(0xf56c7cf1, 0x70768a29, 0xe1ef0576, 0x374943a7)
    case 15 => Regs(0xf56c7cf1, 0x70768a29, 0x5aa53f75, 0x374943a7)
    case _ => Regs(0xf56c7cf1, 0xd6819c6a, 0x5aa53f75, 0x374943a7)
  }

  function After2(i: nat): Regs {
    match i
    case 0 => Regs(0xf56c7cf1, 0xd6819c6a, 0x5aa53f75, 0x374943a7)
    case 1 => Regs(0x1c7d7513, 0xd6819c6a, 0x5aa53f75, 0x374943a7)
    case 2 => Regs(0x1c7d7513, 0xd6819c6a, 0x5aa53f75, 0x7bd57a3a)
    case 3 => Regs(0x1c7d7513, 0xd6819c6a, 0xc095f13a, 0x7bd57a3a)
    case 4 => Regs(0x1c7d7513, 0xbd782e17, 0xc095f13a, 0x7bd57a3a)
    case 5 => Regs(0x3d1e3e6c, 0xbd782e17, 0xc095f13a, 0x7bd57a3a)
    case 6 => Regs(0x3d1e3e6c, 0xbd782e17, 0xc095f13a, 0x68b7b3e3)
    case 7 => Regs(0x3d1e3e6c, 0xbd782e17, 0xeb41643e, 0x68b7b3e3)
    case 8 => Regs(0x3d1e3e6c, 0xe422531a, 0xeb41643e, 0x68b7b3e3)
    case 9 => Regs(0x306ec122, 0xe422531a, 0xeb41643e, 0x68b7b3e3)
    case 10 => Regs(0x306ec122, 0xe422531a, 0xeb41643e, 0xd28c77c2)
    case 11 => Regs(0x306ec122, 0xe422531a, 0xa3c663da, 0xd28c77c2)
    case 12 => Regs(0x306ec122, 0xa0572807, 0xa3c663da, 0xd28c77c2)
    case 13 => Regs(0x13707036, 0xa0572807, 0xa3c663da, 0xd28c77c2)
    case 14 => Regs(0x13707036, 0xa0572807, 0xa3c663da, 0xae7813db)
    case 15 => Regs(0x13707036, 0xa0572807, 0x1c31c384, 0xae7813db)
    case _ => Regs(0x13707036, 0xa2205f1f, 0x1c31c384, 0xae7813db)
  }

  function After3(i: nat): Regs {
    match i
    case 0 => Regs(0x13707036, 0xa2205f1f, 0x1c31c384, 0xae7813db)
    case 1 => Regs(0xdf63eaa1, 0xa2205f1f, 0x1c31c384, 0xae7813db)
    case 2 => Regs(0xdf63eaa1, 0xa2205f1f, 0x1c31c384, 0xc3689f5b)
    case 3 => Regs(0xdf63eaa1, 0xa2205f1f, 0x12f3e755, 0xc3689f5b)
    case 4 => Regs(0xdf63eaa1, 0x004b6669, 0x12f3e755, 0xc3689f5b)
    case 5 => Regs(0x5f7a9b2e, 0x004b6669, 0x12f3e755, 0xc3689f5b)
    case 6 => Regs(0x5f7a9b2e, 0x004b6669, 0x12f3e755, 0xabc34e16)
    case 7 => Regs(0x5f7a9b2e, 0x004b6669, 0x91ca4cb7, 0xabc34e16)
    case 8 => Regs(0x5f7a9b2e, 0xc5dc8c15, 0x91ca4cb7, 0xabc34e16)
    case 9 => Regs(0x4497169d, 0xc5dc8c15, 0x91ca4cb7, 0xabc34e16)
    case 10 => Regs(0x4497169d, 0xc5dc8c15, 0x91ca4cb7, 0x76fd93d4)
    case 11 => Regs(0x4497169d, 0xc5dc8c15, 0xfd95f243, 0x76fd93d4)
    case 12 => Regs(0x4497169d, 0x0fe32453, 0xfd95f243, 0x76fd93d4)
    case 13 => Regs(0x3f55edfd, 0x0fe32453, 0xfd95f243, 0x76fd93d4)
    case 14 => Regs(0x3f55edfd, 0x0fe32453, 0xfd95f243, 0x22a31f54)
    case 15 => Regs(0x3f55edfd, 0x0fe32453, 0x68d84ea2, 0x22a31f54)
    case _ => Regs(0x3f55edfd, 0xca7d2dbd, 0x68d84ea2, 0x22a31f54)
  }

  function After4(i: nat): Regs {
    match i
    case 0 => Regs(0x3f55edfd, 0xca7d2dbd, 0x68d84ea2, 0x22a31f54)
    case 1 => Regs(0x93aa2577, 0xca7d2dbd, 0x68d84ea2, 0x22a31f54)
    case 2 => Regs(0x93aa2577, 0xca7d2dbd, 0x68d84ea2, 0x1688dc85)
    case 3 => Regs(0x93aa2577, 0xca7d2dbd, 0xcd85b8cb, 0x1688dc85)
    case 4 => Regs(0x93aa2577, 0x561e0689, 0xcd85b8cb, 0x1688dc85)
    case 5 => Regs(0x5625a114, 0x561e0689, 0xcd85b8cb, 0x1688dc85)
    case 6 => Regs(0x5625a114, 0x561e0689, 0xcd85b8cb, 0x3450f42b)
    case 7 => Regs(0x5625a114, 0x561e0689, 0x392ad0d0, 0x3450f42b)
    case 8 => Regs(0x5625a114, 0x1e77fa61, 0x392ad0d0, 0x3450f42b)
    case 9 => Regs(0x474a9c8c, 0x1e77fa61, 0x392ad0d0, 0x3450f42b)
    case 10 => Regs(0x474a9c8c, 0x1e77fa61, 0x392ad0d0, 0xdfce00bc)
    case 11 => Regs(0x474a9c8c, 0x1e77fa61, 0x36594b14, 0xdfce00bc)
    case 12 => Regs(0x474a9c8c, 0x30130182, 0x36594b14, 0xdfce00bc)
    case 13 => Regs(0x7246fad3, 0x30130182, 0x36594b14, 0xdfce00bc)
    case 14 => Regs(0x7246fad3, 0x30130182, 0x36594b14, 0x6e10a476)
    case 15 => Regs(0x7246fad3, 0x30130182, 0xff4ea3eb, 0x6e10a476)
    case _ => Regs(0x7246fad3, 0x14e45506, 0xff4ea3eb, 0x6e10a476)
  }

  function After(round: nat, i: nat): Regs {
    if round == 0 then After1(i) else if round == 1 then After2(i) else if round == 2 then After3(i) else After4(i)
  }

  /** The one block: the byte 0x80 and a length of zero. */
  predicate IsBlock(x: seq<Word>) {
    |x| == 16 && x[0] == 0x80 && forall k :: 0 < k < 16 ==> x[k] == 0
  }

  lemma Step1a(x: seq<Word>, i: nat)
    requires |x| == 16 && 0 <= i < 4 && x[WordOf(0, i)] == if i == 0 then 0x80 else 0
    ensures Step(After1(i), x, 0, i) == After1(i + 1)
  {
    hide T2, T3, T4, G, H, I, WordOf;
    match i
    case 0 =>
    case 1 =>
    case 2 =>
    case _ =>
  }

  lemma Step1b(x: seq<Word>, i: nat)
    requires |x| == 16 && 4 <= i < 8 && x[WordOf(0, i)] == 0
    ensures Step(After1(i), x, 0, i) == After1(i + 1)
  {
    hide T2, T3, T4, G, H, I, WordOf;
    match i
    case 4 =>
    case 5 =>
    case 6 =>
    case _ =>
  }

  lemma Step1c(x: seq<Word>, i: nat)
    requires |x| == 16 && 8 <= i < 12 && x[WordOf(0, i)] == 0
    ensures Step(After1(i), x, 0, i) == After1(i + 1)
  {
    hide T2, T3, T4, G, H, I, WordOf;
    match i
    case 8 =>
    case 9 =>
    case 10 =>
    case _ =>
  }

  lemma Step1d(x: seq<Word>, i: nat)
    requires |x| == 16 && 12 <= i < 16 && x[WordOf(0, i)] == 0
    ensures Step(After1(i), x, 0, i) == After1(i + 1)
  {
    hide T2, T3, T4, G, H, I, WordOf;
    match i
    case 12 =>
    case 13 =>
    case 14 =>
    case _ =>
  }

  lemma Step1(x: seq<Word>, i: nat)
    requires IsBlock(x) && i < 16
    ensures Step(After1(i), x, 0, i) == After1(i + 1)
  {
    hide Step, After1;
    if i < 4 { Step1a(x, i); } else if i < 8 { Step1b(x, i); } else if i < 12 { Step1c(x, i); } else { Step1d(x, i); }
  }

  lemma Step2a(x: seq<Word>, i: nat)
    requires |x| == 16 && 0 <= i < 4 && x[WordOf(1, i)] == if i == 3 then 0x80 else 0
    ensures Step(After2(i), x, 1, i) == After2(i + 1)
  {
    hide T1, T3, T4, F, H, I, WordOf;
    match i
    case 0 =>
    case 1 =>
    case 2 =>
    case _ =>
  }

  lemma Step2b(x: seq<Word>, i: nat)
    requires |x| == 16 && 4 <= i < 8 && x[WordOf(1, i)] == 0
    ensures Step(After2(i), x, 1, i) == After2(i + 1)
  {
    hide T1, T3, T4, F, H, I, WordOf;
    match i
    case 4 =>
    case 5 =>
    case 6 =>
    case _ =>
  }

  lemma Step2c(x: seq<Word>, i: nat)
    requires |x| == 16 && 8 <= i < 12 && x[WordOf(1, i)] == 0
    ensures Step(After2(i), x, 1, i) == After2(i + 1)
  {
    hide T1, T3, T4, F, H, I, WordOf;
    match i
    case 8 =>
    case 9 =>
    case 10 =>
    case _ =>
  }

  lemma Step2d(x: seq<Word>, i: nat)
    requires |x| == 16 && 12 <= i < 16 && x[WordOf(1, i)] == 0
    ensures Step(After2(i), x, 1, i) == After2(i + 1)
  {
    hide T1, T3, T4, F, H, I, WordOf;
    match i
    case 12 =>
    case 13 =>
    case 14 =>
    case _ =>
  }

  lemma Step2(x: seq<Word>, i: nat)
    requires IsBlock(x) && i < 16
    ensures Step(After2(i), x, 1, i) == After2(i + 1)
  {
    hide Step, After2;
    if i < 4 { Step2a(x, i); } else if i < 8 { Step2b(x, i); } else if i < 12 { Step2c(x, i); } else { Step2d(x, i); }
  }

  lemma Step3a(x: seq<Word>, i: nat)
    requires |x| == 16 && 0 <= i < 4 && x[WordOf(2, i)] == 0
    ensures Step(After3(i), x, 2, i) == After3(i + 1)
  {
    hide T1, T2, T4, F, G, I, WordOf;
    match i
    case 0 =>
    case 1 =>
    case 2 =>
    case _ =>
  }

  lemma Step3b(x: seq<Word>, i: nat)
    requires |x| == 16 && 4 <= i < 8 && x[WordOf(2, i)] == 0
    ensures Step(After3(i), x, 2, i) == After3(i + 1)
  {
    hide T1, T2, T4, F, G, I, WordOf;
    match i
    case 4 =>
    case 5 =>
    case 6 =>
    case _ =>
  }

  lemma Step3c(x: seq<Word>, i: nat)
    requires |x| == 16 && 8 <= i < 12 && x[WordOf(2, i)] == if i == 9 then 0x80 else 0
    ensures Step(After3(i), x, 2, i) == After3(i + 1)
  {
    hide T1, T2, T4, F, G, I, WordOf;
    match i
    case 8 =>
    case 9 =>
    case 10 =>
    case _ =>
  }

  lemma Step3d(x: seq<Word>, i: nat)
    requires |x| == 16 && 12 <= i < 16 && x[WordOf(2, i)] == 0
    ensures Step(After3(i), x, 2, i) == After3(i + 1)
  {
    hide T1, T2, T4, F, G, I, WordOf;
    match i
    case 12 =>
    case 13 =>
    case 14 =>
    case _ =>
  }

  lemma Step3(x: seq<Word>, i: nat)
    requires IsBlock(x) && i < 16
    ensures Step(After3(i), x, 2, i) == After3(i + 1)
  {
    hide Step, After3;
    if i < 4 { Step3a(x, i); } else if i < 8 { Step3b(x, i); } else if i < 12 { Step3c(x, i); } else { Step3d(x, i); }
  }

  lemma Step4a(x: seq<Word>, i: nat)
    requires |x| == 16 && 0 <= i < 4 && x[WordOf(3, i)] == if i == 0 then 0x80 else 0
    ensures Step(After4(i), x, 3, i) == After4(i + 1)
  {
    hide T1, T2, T3, F, G, H, WordOf;
    match i
    case 0 =>
    case 1 =>
    case 2 =>
    case _ =>
  }

  lemma Step4b(x: seq<Word>, i: nat)
    requires |x| == 16 && 4 <= i < 8 && x[WordOf(3, i)] == 0
    ensures Step(After4(i), x, 3, i) == After4(i + 1)
  {
    hide T1, T2, T3, F, G, H, WordOf;
    match i
    case 4 =>
    case 5 =>
    case 6 =>
    case _ =>
  }

  lemma Step4c(x: seq<Word>, i: nat)
    requires |x| == 16 && 8 <= i < 12 && x[WordOf(3, i)] == 0
    ensures Step(After4(i), x, 3, i) == After4(i + 1)
  {
    hide T1, T2, T3, F, G, H, WordOf;
    match i
    case 8 =>
    case 9 =>
    case 10 =>
    case _ =>
  }

  lemma Step4d(x: seq<Word>, i: nat)
    requires |x| == 16 && 12 <= i < 16 && x[WordOf(3, i)] == 0
    ensures Step(After4(i), x, 3, i) == After4(i + 1)
  {
    hide T1, T2, T3, F, G, H, WordOf;
    match i
    case 12 =>
    case 13 =>
    case 14 =>
    case _ =>
  }

  lemma Step4(x: seq<Word>, i: nat)
    requires IsBlock(x) && i < 16
    ensures Step(After4(i), x, 3, i) == After4(i + 1)
  {
    hide Step, After4;
    if i < 4 { Step4a(x, i); } else if i < 8 { Step4b(x, i); } else if i < 12 { Step4c(x, i); } else { Step4d(x, i); }
  }

  lemma {:induction false} RoundDone(x: seq<Word>, round: nat, n: nat)
    requires IsBlock(x) && round < 4 && n <= 16
    ensures Steps(After(round, 0), x, round, n) == After(round, n)
    decreases n
  {
    hide Step, After1, After2, After3, After4;
    if n > 0 {
      RoundDone(x, round, n - 1);
      match round
      case 0 => Step1(x, n - 1);
      case 1 => Step2(x, n - 1);
      case 2 => Step3(x, n - 1);
      case _ => Step4(x, n - 1);
    }
  }

  lemma BlockDone(x: seq<Word>)
    requires IsBlock(x)
    ensures Compress(Initial(), x) == Added(After(3, 16), Initial())
  {
    hide Step, Steps;
    RoundsMeet();
    RoundDone(x, 0, 16);
    RoundDone(x, 1, 16);
    RoundDone(x, 2, 16);
    RoundDone(x, 3, 16);
  }

  lemma RoundsMeet()
    ensures After(0, 0) == Initial() && After(0, 16) == After(1, 0) && After(1, 16) == After(2, 0)
            && After(2, 16) == After(3, 0)
  {
  }

  lemma TheBlock()
    ensures |Padded([])| == 64 && IsBlock(Words(Padded([])))
  {
    hide Words, IsBlock;
    var p := Padded([]);
    assert p == Padding(56) + Bytes32(0) + Bytes32(0);
    assert Bytes32(0) == [0, 0, 0, 0];
    TheWords(p);
  }

  lemma TheWords(p: seq<Byte>)
    requires |p| == 64 && p[0] == 0x80 && forall k :: 0 < k < 64 ==> p[k] == 0
    ensures IsBlock(Words(p))
  {
    hide WordAt;
    forall k | 0 <= k < 16 ensures WordAt(p, k) == if k == 0 then 0x80 else 0 { TheWord(p, k); }
  }

  lemma TheWord(p: seq<Byte>, k: nat)
    requires 4 * k + 4 <= |p| && p[4 * k + 1] == p[4 * k + 2] == p[4 * k + 3] == 0
    ensures WordAt(p, k) == p[4 * k] as Word
  {
  }

  lemma OneBlock(p: seq<Byte>)
    requires |p| == 64
    ensures Fold(Initial(), p) == Compress(Initial(), Words(p))
  {
    hide Compress, WordAt, Initial;
    assert p[..64] == p;
    assert Fold(Compress(Initial(), Words(p)), p[64..]) == Compress(Initial(), Words(p));
  }

  lemma LastSum()
    ensures Output(Added(After(3, 16), Initial()))
            == [0xd4, 0x1d, 0x8c, 0xd9, 0x8f, 0x00, 0xb2, 0x04,
                0xe9, 0x80, 0x09, 0x98, 0xec, 0xf8, 0x42, 0x7e]
  {
  }

  /** The empty message has the digest that the RFC gives for it. */
  lemma EmptyDigest()
    ensures Digest([]) == [0xd4, 0x1d, 0x8c, 0xd9, 0x8f, 0x00, 0xb2, 0x04,
                           0xe9, 0x80, 0x09, 0x98, 0xec, 0xf8, 0x42, 0x7e]
  {
    hide Padded, Words, Compress, After, Added, Output, Initial, Fold, IsBlock;
    TheBlock();
    OneBlock(Padded([]));
    BlockDone(Words(Padded([])));
    LastSum();
  }
}
