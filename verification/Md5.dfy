/** The digest of RFC 1321 and the incremental computation of public/cmd/md5.c. */
module Md5 {
  import opened Md5Rounds
  import opened Md5Blocks

  type Byte = bv8

  const TWO_32 := 0x1_0000_0000
  const TWO_64 := 0x1_0000_0000_0000_0000

  // ---------- The digest of a whole message ----------

  /** Four bytes, the low-order one first. */
  function WordAt(block: seq<Byte>, i: nat): Word
    requires 4 * i + 4 <= |block|
  {
    (block[4 * i] as Word) | ((block[4 * i + 1] as Word) << 8)
    | ((block[4 * i + 2] as Word) << 16) | ((block[4 * i + 3] as Word) << 24)
  }

  function Words(block: seq<Byte>): seq<Word>
    requires |block| == 64
  {
    seq(16, i requires 0 <= i < 16 => WordAt(block, i))
  }

  /** The blocks of a byte string, one after the other. */
  function Fold(st: Regs, bytes: seq<Byte>): Regs
    decreases |bytes|
  {
    if |bytes| < 64 then st else Fold(Compress(st, Words(bytes[..64])), bytes[64..])
  }

  function Initial(): Regs {
    Regs(0x67452301, 0xefcdab89, 0x98badcfe, 0x10325476)
  }

  /** Section 3.1: at least one byte, up to 56 modulo 64. */
  function PadLength(n: nat): (k: nat)
    ensures 1 <= k <= 64 && (n + k) % 64 == 56
  {
    if n % 64 < 56 then 56 - n % 64 else 120 - n % 64
  }

  function Padding(n: nat): seq<Byte>
    requires n > 0
  {
    [0x80] + seq(n - 1, _ => 0)
  }

  function Bytes32(n: nat): (b: seq<Byte>)
    ensures |b| == 4
  {
    [(n % 256) as Byte, (n / 0x100 % 256) as Byte, (n / 0x1_0000 % 256) as Byte, (n / 0x100_0000 % 256) as Byte]
  }

  /** Section 3.2: the low-order 64 bits of the length in bits, low-order word first. */
  function Padded(m: seq<Byte>): seq<Byte> {
    var bits := 8 * |m|;
    m + Padding(PadLength(|m|)) + Bytes32(bits % TWO_32) + Bytes32(bits / TWO_32 % TWO_32)
  }

  function Output(st: Regs): seq<Byte> {
    WordBytes(st.a) + WordBytes(st.b) + WordBytes(st.c) + WordBytes(st.d)
  }

  function WordBytes(w: Word): seq<Byte> {
    [(w & 0xff) as Byte, ((w >> 8) & 0xff) as Byte, ((w >> 16) & 0xff) as Byte, ((w >> 24) & 0xff) as Byte]
  }

  function Digest(m: seq<Byte>): seq<Byte> {
    Output(Fold(Initial(), Padded(m)))
  }

  function Pow256(k: nat): (p: nat)
    ensures p > 0
  {
    if k == 0 then 1 else 256 * Pow256(k - 1)
  }

  /** Sections 3.1 and 3.2: one bit 1 and as few bits 0 as it takes behind the message, and then its length in bits as a
      number of 64 bits, low-order byte first, so that there are whole blocks. */
  lemma PaddedMeans(m: seq<Byte>)
    ensures var p, n := Padded(m), |m|;
            && |p| % 64 == 0 && n + 9 <= |p| < n + 9 + 64
            && p[..n] == m && p[n] == 0x80 && (forall k :: n < k < |p| - 8 ==> p[k] == 0)
            && forall k :: 0 <= k < 8 ==> p[|p| - 8 + k] == ByteAt(8 * n, k)
  {
    hide Bytes32, PadLength, Pow256, AsByte;
    var p, bits := Padded(m), 8 * |m|;
    var low, high := bits % TWO_32, bits / TWO_32 % TWO_32;
    PaddedParts(m);
    assert p[|p| - 8..] == Bytes32(low) + Bytes32(high);
    forall k | 0 <= k < 8 ensures p[|p| - 8 + k] == ByteAt(bits, k) {
      assert p[|p| - 8 + k] == (Bytes32(low) + Bytes32(high))[k];
      if k < 4 { ByteOf(bits, k); } else { ByteOf(bits / TWO_32, k - 4); HighDigit(bits, k - 4); }
    }
  }

  lemma PaddedParts(m: seq<Byte>)
    ensures var p, n, pad, bits := Padded(m), |m|, Padding(PadLength(|m|)), 8 * |m|;
            && p == m + pad + Bytes32(bits % TWO_32) + Bytes32(bits / TWO_32 % TWO_32)
            && |pad| >= 1 && pad[0] == 0x80 && (forall k :: 0 < k < |pad| ==> pad[k] == 0)
            && |p| == n + |pad| + 8 && |p| % 64 == 0 && |pad| <= 64
  {
    hide Bytes32;
  }

  /** Byte k of a number, counted from the low-order one. */
  function ByteAt(n: nat, k: nat): Byte { AsByte(n / Pow256(k) % 256) }

  function AsByte(d: nat): Byte
    requires d < 256
  {
    d as Byte
  }

  /** The low-order four bytes are those of the number modulo 2^32. */
  lemma ByteOf(n: nat, k: nat)
    requires k < 4
    ensures Bytes32(n % TWO_32)[k] == ByteAt(n, k)
  {
    hide Pow256, Bytes32, AsByte;
    Powers();
    var q, r := n / TWO_32, n % TWO_32;
    assert n == q * TWO_32 + r;
    LowDigits(q, r);
    FourBytes(r);
  }

  lemma FourBytes(r: nat)
    ensures Bytes32(r) == [AsByte(r % 256), AsByte(r / 0x100 % 256), AsByte(r / 0x1_0000 % 256),
                           AsByte(r / 0x100_0000 % 256)]
  {
  }

  lemma LowDigits(q: nat, r: nat)
    ensures var n := q * TWO_32 + r;
            && r % 256 == n % 256 && r / 0x100 % 256 == n / 0x100 % 256
            && r / 0x1_0000 % 256 == n / 0x1_0000 % 256 && r / 0x100_0000 % 256 == n / 0x100_0000 % 256
  {
    DigitKept(q, r, 1, 0x100_0000);
    DigitKept(q, r, 0x100, 0x1_0000);
    DigitKept(q, r, 0x1_0000, 0x100);
    DigitKept(q, r, 0x100_0000, 1);
  }

  /** Adding a multiple of 256 * d * c does not change the digit at c. */
  lemma DigitKept(q: nat, r: nat, c: nat, d: nat)
    requires c * d == 0x100_0000 && c > 0
    ensures (q * TWO_32 + r) / c % 256 == r / c % 256
  {
    var x, y := r / c, q * d;
    assert q * TWO_32 == 256 * (q * (c * d)) && q * (c * d) == y * c;
    assert r == x * c + r % c;
    assert q * TWO_32 + r == (256 * y + x) * c + r % c;
    QuotientIs(q * TWO_32 + r, c, 256 * y + x, r % c);
    assert (256 * y + x) % 256 == x % 256;
  }

  lemma QuotientIs(n: nat, c: nat, k: nat, rest: nat)
    requires c > 0 && n == k * c + rest && rest < c
    ensures n / c == k
  {
    var d := n / c;
    assert n == d * c + n % c;
    NotMore(d - k, c);
    NotMore(k - d, c);
  }

  lemma NotMore(k: int, c: nat)
    requires c > 0 && k * c < c
    ensures k <= 0
  {
  }

  lemma Powers()
    ensures Pow256(0) == 1 && Pow256(1) == 0x100 && Pow256(2) == 0x1_0000 && Pow256(3) == 0x100_0000
    ensures Pow256(4) == TWO_32 && Pow256(5) == 0x100 * TWO_32 && Pow256(6) == 0x1_0000 * TWO_32
    ensures Pow256(7) == 0x100_0000 * TWO_32
  {
    assert Pow256(4) == 256 * Pow256(3);
  }

  lemma HighDigit(n: nat, k: nat)
    requires k < 4
    ensures n / TWO_32 / Pow256(k) == n / Pow256(k + 4)
  {
    Powers();
    DividedTwice(n, 1);
    DividedTwice(n, 0x100);
    DividedTwice(n, 0x1_0000);
    DividedTwice(n, 0x100_0000);
  }

  lemma DividedTwice(n: nat, c: nat)
    requires c > 0
    ensures n / TWO_32 / c == n / (c * TWO_32)
  {
    var q, r := n / TWO_32, n % TWO_32;
    var k, rest := q / c, q % c;
    assert n == q * TWO_32 + r && q == k * c + rest;
    assert n == k * (c * TWO_32) + (rest * TWO_32 + r) && rest * TWO_32 + r < c * TWO_32;
    QuotientIs(n, c * TWO_32, k, rest * TWO_32 + r);
  }

  /** The words of a block and the bytes of the digest have the low-order byte first. */
  lemma LowFirst(block: seq<Byte>, w: Word)
    requires |block| == 4
    ensures WordAt(block, 0) & 0xff == block[0] as Word && WordAt(block, 0) >> 24 == block[3] as Word
    ensures (WordAt(block, 0) >> 8) & 0xff == block[1] as Word && (WordAt(block, 0) >> 16) & 0xff == block[2] as Word
    ensures WordBytes(WordAt(block, 0)) == block && WordAt(WordBytes(w), 0) == w
  {
  }

  lemma {:induction false} FoldConcat(st: Regs, a: seq<Byte>, b: seq<Byte>)
    requires |a| % 64 == 0
    ensures Fold(st, a + b) == Fold(Fold(st, a), b)
    decreases |a|
  {
    hide Compress;
    if a == [] {
      assert a + b == b;
    } else {
      assert (a + b)[..64] == a[..64] && (a + b)[64..] == a[64..] + b;
      FoldConcat(Compress(st, Words(a[..64])), a[64..], b);
    }
  }

  // ---------- Counting ----------

  /** The two halves of the byte count after one more block of len bytes: the carry is found by comparing the new low
      half with len. */
  function LowAfter(low: nat, len: nat): nat { (low + len) % TWO_32 }

  function HighAfter(low: nat, high: nat, len: nat): nat {
    if LowAfter(low, len) < len then (high + 1) % TWO_32 else high
  }

  /** The comparison finds the carry if and only if there is at most one, which is so for every len below 2^32. */
  lemma CarryFound(low: nat, high: nat, len: nat)
    requires low < TWO_32 && high < TWO_32 && len < TWO_64
    ensures HighAfter(low, high, len) * TWO_32 + LowAfter(low, len) == (high * TWO_32 + low + len) % TWO_64
      <==> low + len < 2 * TWO_32
  {
    var carry := (low + len) / TWO_32;
    assert (high * TWO_32 + low + len) % TWO_64 == (high + carry) % TWO_32 * TWO_32 + LowAfter(low, len) by {
      Halves(high + carry, LowAfter(low, len));
      assert high * TWO_32 + low + len == (high + carry) * TWO_32 + LowAfter(low, len);
    }
  }

  lemma Halves(h: nat, l: nat)
    requires l < TWO_32
    ensures (h * TWO_32 + l) % TWO_64 == h % TWO_32 * TWO_32 + l
  {
    var q, r := h / TWO_32, h % TWO_32;
    assert h * TWO_32 + l == q * TWO_64 + (r * TWO_32 + l);
  }

  /** The two length words, from the count of bytes: shifted left by three bits as one 64-bit number. */
  lemma LengthWords(low: nat, high: nat, n: nat)
    requires low < TWO_32 && high < TWO_32 && high * TWO_32 + low == n % TWO_64
    ensures low * 8 % TWO_32 == 8 * n % TWO_32
    ensures high * 8 % TWO_32 + low / 0x2000_0000 == 8 * n / TWO_32 % TWO_32
  {
    var q := n / TWO_64;
    var up, rest := low / 0x2000_0000, low % 0x2000_0000;
    assert n == q * TWO_64 + high * TWO_32 + low && low == up * 0x2000_0000 + rest;
    EightTimes(q, high, up, rest);
    HighWord(q, high, up);
  }

  lemma EightTimes(q: nat, high: nat, up: nat, rest: nat)
    requires rest < 0x2000_0000
    ensures var n := q * TWO_64 + high * TWO_32 + (up * 0x2000_0000 + rest);
            && 8 * n % TWO_32 == (up * 0x2000_0000 + rest) * 8 % TWO_32
            && 8 * n / TWO_32 == 8 * q * TWO_32 + 8 * high + up
  {
    var n := q * TWO_64 + high * TWO_32 + (up * 0x2000_0000 + rest);
    assert 8 * n == (8 * q * TWO_32 + 8 * high + up) * TWO_32 + 8 * rest;
    Divide(8 * n, 8 * q * TWO_32 + 8 * high + up, 8 * rest);
    Divide((up * 0x2000_0000 + rest) * 8, up, 8 * rest);
  }

  lemma Divide(x: nat, y: nat, r: nat)
    requires x == y * TWO_32 + r && r < TWO_32
    ensures x / TWO_32 == y && x % TWO_32 == r
  {
  }

  lemma HighWord(q: nat, high: nat, up: nat)
    requires up < 8
    ensures high * 8 % TWO_32 + up == (8 * q * TWO_32 + 8 * high + up) % TWO_32
  {
    var h8, k := high * 8 % TWO_32, high * 8 / TWO_32;
    assert high * 8 == k * TWO_32 + h8 && h8 % 8 == 0 && h8 <= TWO_32 - 8;
    RestIs(8 * q * TWO_32 + 8 * high + up, 8 * q + k, h8 + up);
  }

  lemma RestIs(n: nat, k: nat, rest: nat)
    requires n == k * TWO_32 + rest && rest < TWO_32
    ensures n % TWO_32 == rest
  {
  }

  /** The or of the two parts of the high word is a sum: they have no bit in common. */
  lemma NoCommonBit(high: Word, low: Word)
    ensures (high << 3) & (low >> 29) == 0
  {
  }

  // ---------- The computation in pieces ----------

  /** md5_process_block, on one block. */
  method ProcessOne(st: Regs, block: seq<Byte>) returns (r: Regs)
    requires |block| == 64
    ensures r == Compress(st, Words(block))
  {
    hide Words, Steps;
    var x := Words(block);
    WordsFacts(block);
    r := Round1(st, x);
    r := Round2(r, x);
    r := Round3(r, x);
    r := Round4(r, x);
    r := Added(r, st);
  }

  lemma WordsFacts(block: seq<Byte>)
    requires |block| == 64
    ensures |Words(block)| == 16
  {
  }

  lemma FoldStep(st: Regs, a: seq<Byte>, block: seq<Byte>)
    requires |a| % 64 == 0 && |block| == 64
    ensures Fold(st, a + block) == Compress(Fold(st, a), Words(block))
  {
    hide Compress, Words;
    FoldConcat(st, a, block);
    assert block[..64] == block && block[64..] == [];
    WordsFacts(block);
  }

  class Context {
    var regs: Regs
    var total0: nat
    var total1: nat
    var buflen: nat
    const buffer: array<Byte>
    ghost var message: seq<Byte>     // everything that was passed in

    /** How much of the message has gone through the block function. */
    ghost function Hashed(): int
      reads this
    {
      |message| - buflen
    }

    /** The staging buffer holds the end of the message, at most limit bytes; the registers hold the rest. */
    ghost predicate Holds(limit: nat)
      reads this, buffer
    {
      && buffer.Length == 128 && buflen <= limit && buflen <= 128 && total0 < TWO_32 && total1 < TWO_32
      && 0 <= Hashed() && Hashed() % 64 == 0
      && message[Hashed()..] == buffer[..buflen]
      && regs == Fold(Initial(), message[..Hashed()])
    }

    ghost predicate Valid()
      reads this, buffer
    {
      Holds(64)
    }

    /** The two halves hold the byte count. */
    ghost predicate Counted()
      reads this
    {
      total1 * TWO_32 + total0 == Hashed() % TWO_64
    }

    /** md5_init_ctx. */
    constructor ()
      ensures Valid() && Counted() && message == [] && fresh(buffer)
    {
      regs := Initial();
      total0, total1, buflen := 0, 0, 0;
      buffer := new Byte[128];
      message := [];
    }

    /** md5_process_block. */
    method ProcessBlock(bytes: seq<Byte>)
      requires |bytes| % 64 == 0 && total0 < TWO_32 && total1 < TWO_32
      modifies this`regs, this`total0, this`total1
      ensures regs == Fold(old(regs), bytes)
      ensures total0 == LowAfter(old(total0), |bytes|) && total1 == HighAfter(old(total0), old(total1), |bytes|)
      ensures total0 < TWO_32 && total1 < TWO_32
    {
      hide Fold, Compress, Words;
      total0 := (total0 + |bytes|) % TWO_32;
      if total0 < |bytes| {
        total1 := (total1 + 1) % TWO_32;
      }
      var i := 0;
      FoldNothing(regs);
      while i < |bytes|
        invariant 0 <= i <= |bytes| && i % 64 == 0 && regs == Fold(old(regs), bytes[..i])
        modifies this`regs
      {
        FoldStep(old(regs), bytes[..i], bytes[i..i + 64]);
        assert bytes[..i] + bytes[i..i + 64] == bytes[..i + 64];
        regs := ProcessOne(regs, bytes[i..i + 64]);
        i := i + 64;
      }
      assert bytes[..i] == bytes;
    }

    static lemma FoldNothing(st: Regs)
      ensures Fold(st, []) == st
    {
    }

    /** memcpy into the buffer. */
    method CopyIn(at: nat, bytes: seq<Byte>)
      requires at + |bytes| <= buffer.Length
      modifies buffer
      ensures buffer[..at] == old(buffer[..at]) && buffer[at..at + |bytes|] == bytes
      ensures buffer[at + |bytes|..] == old(buffer[at + |bytes|..])
    {
      for i := 0 to |bytes|
        invariant forall k :: 0 <= k < buffer.Length ==>
          buffer[k] == if at <= k < at + i then bytes[k - at] else old(buffer[k])
      {
        buffer[at + i] := bytes[i];
      }
    }

    /** A further stretch of the message through the block function. */
    static lemma FoldMore(m: seq<Byte>, from: int, to: int)
      requires 0 <= from <= to <= |m| && from % 64 == 0
      ensures Fold(Initial(), m[..to]) == Fold(Fold(Initial(), m[..from]), m[from..to])
    {
      hide Fold;
      FoldConcat(Initial(), m[..from], m[from..to]);
      assert m[..from] + m[from..to] == m[..to];
    }

    static lemma Extended(m: seq<Byte>, more: seq<Byte>, h: int)
      requires 0 <= h <= |m|
      ensures (m + more)[..h] == m[..h] && (m + more)[h..] == m[h..] + more
    {
    }

    /** The counting half of a stretch that goes through the block function. */
    static lemma CountMore(low: nat, high: nat, hashed: nat, len: nat)
      requires low < TWO_32 && high < TWO_32 && high * TWO_32 + low == hashed % TWO_64
      requires low + len < 2 * TWO_32
      ensures HighAfter(low, high, len) * TWO_32 + LowAfter(low, len) == (hashed + len) % TWO_64
    {
      hide LowAfter, HighAfter;
      CarryFound(low, high, len);
    }

    /** Into the staging buffer, behind what it holds. */
    method Keep(data: seq<Byte>)
      requires Holds(64) && buflen + |data| <= 128
      modifies this`buflen, this`message, buffer
      ensures Holds(128) && buflen == old(buflen) + |data| && message == old(message) + data
              && Hashed() == old(Hashed())
    {
      hide Fold;
      Extended(message, data, Hashed());
      CopyIn(buflen, data);
      assert buffer[..buflen + |data|] == buffer[..buflen] + buffer[buflen..buflen + |data|];
      message := message + data;
      buflen := buflen + |data|;
    }

    /** The complete blocks in the staging buffer. */
    method Drain()
      requires Holds(128)
      modifies this`regs, this`total0, this`total1, this`buflen, buffer
      ensures Holds(64) && buflen == old(buflen) % 64
      ensures old(Counted()) ==> Counted()
    {
      hide Fold, LowAfter, HighAfter;
      ghost var h := Hashed();
      var n, rest := buflen / 64 * 64, buflen % 64;
      WholeBlocks(h, buflen);
      Slices(message, buffer[..], h, n, buflen);
      FoldMore(message, h, h + n);
      if Counted() { CountMore(total0, total1, h, n); }
      ProcessBlock(buffer[..n]);
      CopyIn(0, buffer[n..buflen]);
      assert buffer[..rest] == buffer[0..0 + rest];
      buflen := rest;
    }

    static lemma WholeBlocks(h: nat, len: nat)
      requires h % 64 == 0
      ensures len / 64 * 64 + len % 64 == len && len / 64 * 64 % 64 == 0 && (h + len / 64 * 64) % 64 == 0
    {
    }

    static lemma Slices(m: seq<Byte>, b: seq<Byte>, h: int, n: int, len: int)
      requires 0 <= h <= |m| && 0 <= n <= len <= |b| && m[h..] == b[..len]
      ensures m[h..h + n] == b[..n] && m[h + n..] == b[n..len]
    {
      assert m[h..h + n] == m[h..][..n] && b[..n] == b[..len][..n];
      assert m[h + n..] == m[h..][n..] && b[n..len] == b[..len][n..];
    }

    /** Bytes that go through the staging buffer because it is not empty. */
    method TopUp(data: seq<Byte>) returns (add: nat)
      requires Valid() && buflen != 0
      modifies this, buffer
      ensures Valid() && add <= |data| && message == old(message) + data[..add] && (add < |data| ==> buflen == 0)
      ensures old(Counted()) ==> Counted()
    {
      hide Fold;
      var leftOver := buflen;
      add := if 128 - leftOver > |data| then |data| else 128 - leftOver;
      Keep(data[..add]);
      if leftOver + add > 64 {
        Drain();
      }
    }

    /** Blocks that go straight to the block function. */
    method Through(data: seq<Byte>)
      requires Valid() && buflen == 0 && |data| % 64 == 0
      modifies this`regs, this`total0, this`total1, this`message
      ensures Valid() && message == old(message) + data
      ensures |data| < TWO_32 && old(Counted()) ==> Counted()
    {
      hide Fold, LowAfter, HighAfter, Valid, Counted;
      WhenEmpty();
      FoldConcat(Initial(), message, data);
      if |data| < TWO_32 && Counted() { CountMore(total0, total1, |message|, |data|); }
      ProcessBlock(data);
      message := message + data;
      EmptyAgain();
    }

    lemma WhenEmpty()
      requires Valid() && buflen == 0
      ensures buffer.Length == 128 && total0 < TWO_32 && total1 < TWO_32 && |message| % 64 == 0
      ensures regs == Fold(Initial(), message)
      ensures Counted() <==> total1 * TWO_32 + total0 == |message| % TWO_64
    {
      hide Fold;
      assert message[..|message|] == message;
    }

    lemma EmptyAgain()
      requires buflen == 0 && buffer.Length == 128 && total0 < TWO_32 && total1 < TWO_32 && |message| % 64 == 0
      requires regs == Fold(Initial(), message)
      ensures Valid()
      ensures Counted() <==> total1 * TWO_32 + total0 == |message| % TWO_64
    {
      hide Fold;
      assert message[..|message|] == message;
    }

    /** What is left after the staging buffer has been emptied. */
    method Direct(data: seq<Byte>)
      requires Valid() && buflen == 0
      modifies this, buffer
      ensures Valid() && message == old(message) + data
      ensures |data| < TWO_32 && old(Counted()) ==> Counted()
    {
      hide Fold;
      var rest := data;
      if |data| > 64 {
        Through(data[..|data| / 64 * 64]);
        rest := data[|data| / 64 * 64..];
        assert data == data[..|data| / 64 * 64] + rest;
      }
      if |rest| > 0 {
        Keep(rest);
      }
    }

    /** md5_process_bytes. */
    method ProcessBytes(data: seq<Byte>)
      requires Valid()
      modifies this, buffer
      ensures Valid() && message == old(message) + data
      ensures |data| < TWO_32 && old(Counted()) ==> Counted()
    {
      hide Valid, Counted;
      if buflen != 0 {
        var add := TopUp(data);
        assert data == data[..add] + data[add..];
        if add < |data| {
          Direct(data[add..]);
        }
      } else {
        Direct(data);
      }
    }

    /** The padding and the length behind what the staging buffer holds. */
    method PadOut(pad: nat, low: nat, high: nat)
      requires Valid() && 0 < pad <= 64 && buflen + pad + 8 <= 128
      modifies buffer
      ensures buffer[..buflen + pad + 8] == old(buffer[..buflen]) + Padding(pad) + Bytes32(low) + Bytes32(high)
    {
      hide Fold, Bytes32;
      var fillbuf := [0x80] + seq(63, _ => 0);
      assert fillbuf[..pad] == Padding(pad);
      var end := buflen + pad;
      CopyIn(buflen, fillbuf[..pad]);
      assert buffer[..end] == buffer[..buflen] + buffer[buflen..end];
      CopyIn(end, Bytes32(low));
      assert buffer[..end + 4] == buffer[..end] + buffer[end..end + 4];
      CopyIn(end + 4, Bytes32(high));
      assert buffer[..end + 8] == buffer[..end + 4] + buffer[end + 4..end + 8];
    }

    /** The padding as the code chooses it. */
    static lemma PadIs(m: seq<Byte>, bytes: nat)
      requires bytes <= 64 && bytes <= |m| && (|m| - bytes) % 64 == 0
      ensures (if bytes >= 56 then 64 + 56 - bytes else 56 - bytes) == PadLength(|m|)
    {
    }

    static lemma PaddedFrom(m: seq<Byte>, h: int, low: nat, high: nat)
      requires 0 <= h <= |m| && h % 64 == 0
      requires low == 8 * |m| % TWO_32 && high == 8 * |m| / TWO_32 % TWO_32
      ensures Fold(Fold(Initial(), m[..h]), m[h..] + Padding(PadLength(|m|)) + Bytes32(low) + Bytes32(high))
        == Fold(Initial(), Padded(m))
    {
      hide Fold, PadLength, Padding, Bytes32;
      var tail := m[h..] + Padding(PadLength(|m|)) + Bytes32(low) + Bytes32(high);
      FoldConcat(Initial(), m[..h], tail);
      assert m == m[..h] + m[h..];
      assert m[..h] + tail == Padded(m);
    }

    /** md5_finish_ctx. */
    method Finish() returns (digest: seq<Byte>)
      requires Valid()
      modifies this`regs, this`total0, this`total1, buffer
      ensures old(Counted()) ==> digest == Digest(message)
    {
      hide Fold, LowAfter, HighAfter, PadLength, Padding, Bytes32, Output, Padded;
      var bytes := buflen;
      ghost var h := Hashed();
      if Counted() { CountMore(total0, total1, h, bytes); }
      var low, high := (total0 + bytes) % TWO_32, total1;
      if low < bytes {
        high := (high + 1) % TWO_32;
      }
      HalvesAre(total0, total1, bytes, low, high);
      total0, total1 := low, high;
      PadIs(message, bytes);
      var pad := if bytes >= 56 then 64 + 56 - bytes else 56 - bytes;
      var lowBits, highBits := low * 8 % TWO_32, high * 8 % TWO_32 + low / 0x2000_0000;
      PadOut(pad, lowBits, highBits);
      if old(Counted()) {
        LengthWords(low, high, |message|);
        PaddedFrom(message, h, lowBits, highBits);
      }
      ProcessBlock(buffer[..bytes + pad + 8]);
      digest := Output(regs);
    }

    static lemma HalvesAre(total0: nat, total1: nat, bytes: nat, low: nat, high: nat)
      requires total0 < TWO_32 && total1 < TWO_32 && low == (total0 + bytes) % TWO_32
      requires high == if low < bytes then (total1 + 1) % TWO_32 else total1
      ensures low == LowAfter(total0, bytes) && high == HighAfter(total0, total1, bytes) && low < TWO_32
              && high < TWO_32
    {
    }
  }

  function Joined(parts: seq<seq<Byte>>): seq<Byte> {
    if parts == [] then [] else Joined(parts[..|parts| - 1]) + parts[|parts| - 1]
  }

  /** However a message is cut into calls, the digest is that of the message. */
  method HashParts(parts: seq<seq<Byte>>) returns (digest: seq<Byte>)
    requires forall i :: 0 <= i < |parts| ==> |parts[i]| < TWO_32
    ensures digest == Digest(Joined(parts))
  {
    hide Digest, Context.Valid, Context.Counted;
    var ctx := new Context();
    for i := 0 to |parts|
      invariant ctx.Valid() && ctx.Counted() && ctx.message == Joined(parts[..i]) && fresh(ctx) && fresh(ctx.buffer)
    {
      assert parts[..i + 1][..i] == parts[..i];
      ctx.ProcessBytes(parts[i]);
    }
    assert parts[..|parts|] == parts;
    digest := ctx.Finish();
  }

  /** md5_buffer: the whole message in one call. */
  method HashBuffer(bytes: seq<Byte>) returns (digest: seq<Byte>)
    requires |bytes| < TWO_32
    ensures digest == Digest(bytes)
  {
    hide Digest, Context.Valid, Context.Counted;
    var ctx := new Context();
    ctx.ProcessBytes(bytes);
    assert [] + bytes == bytes;
    digest := ctx.Finish();
  }
}
