/** Address prefixes of public/cmd/prefix.c as bit strings: the byte comparisons of prefix_match, check_bit and
    route_common in terms of the bits they stand for. */
module PrefixBits {

  /** An address of whole bytes with a prefix length in bits; bits past the length are carried along. */
  datatype Prefix = Prefix(bytes: seq<bv8>, len: nat)

  predicate WellFormed(p: Prefix) {
    p.len <= 8 * |p.bytes|
  }

  type Bits = seq<bool>

  function Mask(k: nat): bv8
    requires k < 8
  {
    [0x80, 0x40, 0x20, 0x10, 0x08, 0x04, 0x02, 0x01][k]
  }

  predicate BitOf(b: bv8, k: nat)
    requires k < 8
  {
    b & Mask(k) != 0
  }

  /** Bit k of the address; past its end the model reads 0. */
  predicate BitAt(bytes: seq<bv8>, k: nat) {
    k / 8 < |bytes| && BitOf(bytes[k / 8], k % 8)
  }

  function BitsOf(p: Prefix): (s: Bits)
    ensures |s| == p.len
    ensures forall k :: 0 <= k < p.len ==> s[k] == BitAt(p.bytes, k)
  {
    seq(p.len, k requires 0 <= k < p.len => BitAt(p.bytes, k))
  }

  // ---------- Prefixes of bit strings ----------

  /** Sequences x and y agree on their first n bits. */
  predicate Agree(x: Bits, y: Bits, n: nat) {
    n <= |x| && n <= |y| && forall k :: 0 <= k < n ==> x[k] == y[k]
  }

  predicate IsPrefix(x: Bits, y: Bits) {
    Agree(x, y, |x|)
  }

  // ---------- Bytes ----------

  /** The maskbit table: n leading ones. */
  function MaskBit(n: nat): bv8
    requires n <= 8
  {
    [0x00, 0x80, 0xc0, 0xe0, 0xf0, 0xf8, 0xfc, 0xfe, 0xff][n]
  }

  /** x and y agree on their n leading bits. */
  predicate SameBits(x: bv8, y: bv8, n: nat)
    requires n <= 8
  {
    && (n > 0 ==> BitOf(x, 0) == BitOf(y, 0))
    && (n > 1 ==> BitOf(x, 1) == BitOf(y, 1))
    && (n > 2 ==> BitOf(x, 2) == BitOf(y, 2))
    && (n > 3 ==> BitOf(x, 3) == BitOf(y, 3))
    && (n > 4 ==> BitOf(x, 4) == BitOf(y, 4))
    && (n > 5 ==> BitOf(x, 5) == BitOf(y, 5))
    && (n > 6 ==> BitOf(x, 6) == BitOf(y, 6))
    && (n > 7 ==> BitOf(x, 7) == BitOf(y, 7))
  }

  lemma SameBitsEach(x: bv8, y: bv8, n: nat)
    requires n <= 8
    ensures SameBits(x, y, n) <==> forall k :: 0 <= k < n ==> BitOf(x, k) == BitOf(y, k)
  {
    hide BitOf;
    if SameBits(x, y, n) {
      forall k | 0 <= k < n ensures BitOf(x, k) == BitOf(y, k) { SameBitsAt(x, y, n, k); }
    }
  }

  lemma SameBitsAt(x: bv8, y: bv8, n: nat, k: nat)
    requires k < n <= 8 && SameBits(x, y, n)
    ensures BitOf(x, k) == BitOf(y, k)
  {
    hide BitOf;
    if k == 0 {
      assert BitOf(x, 0) == BitOf(y, 0);
    } else if k == 1 {
      assert BitOf(x, 1) == BitOf(y, 1);
    } else if k == 2 {
      assert BitOf(x, 2) == BitOf(y, 2);
    } else if k == 3 {
      assert BitOf(x, 3) == BitOf(y, 3);
    } else if k == 4 {
      assert BitOf(x, 4) == BitOf(y, 4);
    } else if k == 5 {
      assert BitOf(x, 5) == BitOf(y, 5);
    } else if k == 6 {
      assert BitOf(x, 6) == BitOf(y, 6);
    } else if k == 7 {
      assert BitOf(x, 7) == BitOf(y, 7);
    }
  }

  /** Comparing under a mask of n leading ones compares the n leading bits. */
  lemma MaskedCompare(x: bv8, y: bv8, n: nat)
    requires n <= 8
    ensures MaskBit(n) & (x ^ y) == 0 <==> SameBits(x, y, n)
  {
    hide BitOf, Mask;
    if n > 0 {
      hide SameBits, MaskBit;
      MaskedCompare(x, y, n - 1);
      OneMoreBit(x ^ y, n - 1);
      MaskedBit(x, y, n - 1);
      SameBitsMore(x, y, n - 1);
    } else {
      NoBits(x ^ y);
    }
  }

  lemma NoBits(z: bv8)
    ensures MaskBit(0) & z == 0
  {
  }

  lemma OneMoreBit(z: bv8, n: nat)
    requires n < 8
    ensures MaskBit(n + 1) & z == 0 <==> MaskBit(n) & z == 0 && Mask(n) & z == 0
  {
    assert 0x80 & z == 0 <==> 0x00 & z == 0 && 0x80 & z == 0;
    assert 0xc0 & z == 0 <==> 0x80 & z == 0 && 0x40 & z == 0;
    assert 0xe0 & z == 0 <==> 0xc0 & z == 0 && 0x20 & z == 0;
    assert 0xf0 & z == 0 <==> 0xe0 & z == 0 && 0x10 & z == 0;
    assert 0xf8 & z == 0 <==> 0xf0 & z == 0 && 0x08 & z == 0;
    assert 0xfc & z == 0 <==> 0xf8 & z == 0 && 0x04 & z == 0;
    assert 0xfe & z == 0 <==> 0xfc & z == 0 && 0x02 & z == 0;
    assert 0xff & z == 0 <==> 0xfe & z == 0 && 0x01 & z == 0;
  }

  lemma SameBitsMore(x: bv8, y: bv8, n: nat)
    requires n < 8
    ensures SameBits(x, y, n + 1) <==> SameBits(x, y, n) && BitOf(x, n) == BitOf(y, n)
  {
    hide BitOf;
  }

  /** Equal bytes, and bytes whose bits are all equal. */
  lemma SameByte(x: bv8, y: bv8)
    ensures x == y <==> SameBits(x, y, 8)
  {
    MaskedCompare(x, y, 8);
    WholeByte(x, y);
  }

  lemma WholeByte(x: bv8, y: bv8)
    ensures MaskBit(8) & (x ^ y) == 0 <==> x == y
  {
    assert 0xff & (x ^ y) == 0 <==> x == y;
  }

  /** The single-bit test of route_common. */
  lemma MaskedBit(x: bv8, y: bv8, k: nat)
    requires k < 8
    ensures Mask(k) & (x ^ y) == 0 <==> BitOf(x, k) == BitOf(y, k)
  {
    BitDiffers(x, y, Mask(k));
  }

  lemma BitDiffers(x: bv8, y: bv8, m: bv8)
    requires m == 0x80 || m == 0x40 || m == 0x20 || m == 0x10 || m == 0x08 || m == 0x04 || m == 0x02 || m == 0x01
    ensures m & (x ^ y) == 0 <==> (x & m != 0) == (y & m != 0)
  {
  }

  lemma FirstMask()
    ensures Mask(0) == 0x80
  {
  }

  lemma NextMask(k: nat)
    requires k < 7
    ensures Mask(k) >> 1 == Mask(k + 1)
  {
  }

  /** The bits of a byte cut off after n. */
  lemma MaskedByte(x: bv8, n: nat, k: nat)
    requires n <= 8 && k < 8
    ensures BitOf(x & MaskBit(n), k) == (k < n && BitOf(x, k))
  {
    MaskUnderMask(n, k);
    assert (x & MaskBit(n)) & Mask(k) == x & (MaskBit(n) & Mask(k));
  }

  lemma MaskUnderMask(n: nat, k: nat)
    requires n <= 8 && k < 8
    ensures MaskBit(n) & Mask(k) == if k < n then Mask(k) else 0
  {
  }

  // ---------- The routines of prefix.c and table.c ----------

  lemma AgreeBytes(x: seq<bv8>, y: seq<bv8>, k: nat)
    requires k < |x| && k < |y|
    ensures x[k] == y[k] <==> forall j :: 8 * k <= j < 8 * k + 8 ==> BitAt(x, j) == BitAt(y, j)
  {
    hide BitOf, SameBits;
    SameByte(x[k], y[k]);
    SameBitsEach(x[k], y[k], 8);
    if SameBits(x[k], y[k], 8) {
      forall j | 8 * k <= j < 8 * k + 8
        ensures BitAt(x, j) == BitAt(y, j)
      {
        assert BitOf(x[k], j - 8 * k) == BitOf(y[k], j - 8 * k);
      }
    }
    if forall j :: 8 * k <= j < 8 * k + 8 ==> BitAt(x, j) == BitAt(y, j) {
      forall b | 0 <= b < 8
        ensures BitOf(x[k], b) == BitOf(y[k], b)
      {
        assert BitAt(x, 8 * k + b) == BitAt(y, 8 * k + b);
      }
    }
  }

  lemma AgreePart(x: seq<bv8>, y: seq<bv8>, k: nat, n: nat)
    requires k < |x| && k < |y| && n <= 8
    ensures SameBits(x[k], y[k], n) <==> forall j :: 8 * k <= j < 8 * k + n ==> BitAt(x, j) == BitAt(y, j)
  {
    hide BitOf, SameBits;
    SameBitsEach(x[k], y[k], n);
    if SameBits(x[k], y[k], n) {
      forall j | 8 * k <= j < 8 * k + n
        ensures BitAt(x, j) == BitAt(y, j)
      {
        assert BitOf(x[k], j - 8 * k) == BitOf(y[k], j - 8 * k);
      }
    }
    if forall j :: 8 * k <= j < 8 * k + n ==> BitAt(x, j) == BitAt(y, j) {
      forall b | 0 <= b < n
        ensures BitOf(x[k], b) == BitOf(y[k], b)
      {
        assert BitAt(x, 8 * k + b) == BitAt(y, 8 * k + b);
      }
    }
  }

  /** prefix_match: n covers p. */
  method PrefixMatch(n: Prefix, p: Prefix) returns (r: bool)
    requires WellFormed(n) && WellFormed(p)
    ensures r <==> IsPrefix(BitsOf(n), BitsOf(p))
  {
    hide BitOf, SameBits, MaskBit;
    if n.len > p.len { return false; }
    var offset := n.len / 8;
    var shift := n.len % 8;
    if shift != 0 {
      MaskedCompare(n.bytes[offset], p.bytes[offset], shift);
      AgreePart(n.bytes, p.bytes, offset, shift);
      if MaskBit(shift) & (n.bytes[offset] ^ p.bytes[offset]) != 0 {
        return false;
      }
    }
    while offset > 0
      invariant 0 <= offset <= n.len / 8
      invariant forall j :: 8 * offset <= j < n.len ==> BitAt(n.bytes, j) == BitAt(p.bytes, j)
    {
      offset := offset - 1;
      AgreeBytes(n.bytes, p.bytes, offset);
      if n.bytes[offset] != p.bytes[offset] { return false; }
    }
    return true;
  }

  /** check_bit. */
  method CheckBit(bytes: seq<bv8>, k: nat) returns (bit: bool)
    ensures bit == BitAt(bytes, k)
  {
    if k / 8 >= |bytes| { return false; }
    var shift := 7 - k % 8;
    ShiftedBit(bytes[k / 8], k % 8);
    return (bytes[k / 8] >> shift) & 1 == 1;
  }

  lemma ShiftedBit(b: bv8, k: nat)
    requires k < 8
    ensures (b >> (7 - k)) & 1 == 1 <==> BitOf(b, k)
  {
    assert (b >> 7) & 1 == 1 <==> b & 0x80 != 0;
    assert (b >> 6) & 1 == 1 <==> b & 0x40 != 0;
    assert (b >> 5) & 1 == 1 <==> b & 0x20 != 0;
    assert (b >> 4) & 1 == 1 <==> b & 0x10 != 0;
    assert (b >> 3) & 1 == 1 <==> b & 0x08 != 0;
    assert (b >> 2) & 1 == 1 <==> b & 0x04 != 0;
    assert (b >> 1) & 1 == 1 <==> b & 0x02 != 0;
    assert (b >> 0) & 1 == 1 <==> b & 0x01 != 0;
  }

  /** x is the longest bit string that both y, read on past its length, and z start with. */
  predicate IsCommon(x: Bits, bytes: seq<bv8>, z: Bits) {
    && IsPrefix(x, z) && (forall k :: 0 <= k < |x| ==> x[k] == BitAt(bytes, k))
    && (|x| < |z| ==> BitAt(bytes, |x|) != z[|x|])
  }

  /** The bits the first differing, or last, byte has in common: where they end, and that byte cut off there. */
  method CommonByte(x: seq<bv8>, y: seq<bv8>, i: nat, end: nat) returns (len: nat, byte: bv8)
    requires i < |x| && i < |y| && 8 * i < end
    requires end < 8 * i + 8 || x[i] != y[i]
    ensures 8 * i <= len <= end && len < 8 * i + 8
    ensures forall k :: 8 * i <= k < len ==> BitAt(x, k) == BitAt(y, k)
    ensures len < end ==> BitAt(x, len) != BitAt(y, len)
    ensures forall j :: 0 <= j < len - 8 * i ==> BitOf(byte, j) == BitOf(x[i], j)
    ensures forall j :: len - 8 * i <= j < 8 ==> !BitOf(byte, j)
  {
    hide BitOf, MaskBit, Mask;
    var j := FirstDifferent(x[i], y[i], if end < 8 * i + 8 then end - 8 * i else 8);
    len := 8 * i + j;
    byte := x[i] & MaskBit(len % 8);
    forall m | 0 <= m < 8 ensures BitOf(byte, m) == (m < j && BitOf(x[i], m)) { MaskedByte(x[i], j, m); }
    forall k | 8 * i <= k < len
      ensures BitAt(x, k) == BitAt(y, k)
    {
      assert BitOf(x[i], k - 8 * i) == BitOf(y[i], k - 8 * i);
    }
  }

  /** The loop over the bits of one byte; a whole byte has a difference in it. */
  method FirstDifferent(x: bv8, y: bv8, end: nat) returns (j: nat)
    requires 0 < end <= 8 && (end == 8 ==> x != y)
    ensures j <= end && j < 8 && (forall m :: 0 <= m < j ==> BitOf(x, m) == BitOf(y, m))
    ensures j < end ==> BitOf(x, j) != BitOf(y, j)
  {
    hide BitOf, MaskBit, Mask;
    j := 0;
    var diff := x ^ y;
    var mask: bv8 := 0x80;
    FirstMask();
    while j < end && mask & diff == 0
      invariant j <= end && j < 8 && mask == Mask(j)
      invariant forall m :: 0 <= m < j ==> BitOf(x, m) == BitOf(y, m)
    {
      MaskedBit(x, y, j);
      if j < 7 { NextMask(j); } else { AllEight(x, y); }
      mask := mask >> 1;
      j := j + 1;
    }
    if j < end { MaskedBit(x, y, j); }
  }

  lemma AllEight(x: bv8, y: bv8)
    requires forall j :: 0 <= j < 8 ==> BitOf(x, j) == BitOf(y, j)
    ensures x == y
  {
    hide BitOf, SameBits;
    SameBitsEach(x, y, 8);
    SameByte(x, y);
  }

  /** route_common. */
  method RouteCommon(n: Prefix, p: Prefix) returns (common: Prefix)
    requires WellFormed(p) && |n.bytes| == |p.bytes|
    ensures WellFormed(common) && |common.bytes| == |p.bytes|
    ensures IsCommon(BitsOf(common), n.bytes, BitsOf(p))
    ensures forall k :: common.len <= k < 8 * |common.bytes| ==> !BitAt(common.bytes, k)
  {
    hide BitOf, SameBits, MaskBit, Mask;
    ZeroBits();
    var bytes: seq<bv8> := seq(|p.bytes|, _ => 0);
    var i := 0;
    while i < p.len / 8 && n.bytes[i] == p.bytes[i]
      invariant 0 <= i <= p.len / 8 && |bytes| == |p.bytes|
      invariant forall k :: 0 <= k < 8 * i ==> BitAt(n.bytes, k) == BitAt(p.bytes, k)
      invariant forall k :: 0 <= k < i ==> bytes[k] == n.bytes[k]
      invariant forall k :: i <= k < |bytes| ==> bytes[k] == 0
    {
      AgreeBytes(n.bytes, p.bytes, i);
      bytes := bytes[i := n.bytes[i]];
      i := i + 1;
    }
    var len := i * 8;
    if len != p.len {
      var byte;
      len, byte := CommonByte(n.bytes, p.bytes, i, p.len);
      bytes := bytes[i := byte];
    }
    common := Prefix(bytes, len);
    forall k | 0 <= k < len ensures BitAt(bytes, k) == BitAt(n.bytes, k) == BitAt(p.bytes, k) {
      if k < 8 * i { assert bytes[k / 8] == n.bytes[k / 8]; }
    }
  }

  lemma ZeroBits()
    ensures forall j :: 0 <= j < 8 ==> !BitOf(0, j)
  {
  }
}
