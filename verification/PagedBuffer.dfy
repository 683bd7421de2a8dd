/** public/cmd/buffer.c: output kept on a list of chunks and written out in whole or by pages. */
module PagedBuffers {
  import opened Lists
  import Terminal = LineEditors

  type Byte = char

  const MORE := " --More-- \0"
  const ERASE := "\U{8}\U{8}\U{8}\U{8}\U{8}\U{8}\U{8}\U{8}\U{8}\U{8}" + "          "
    + "\U{8}\U{8}\U{8}\U{8}\U{8}\U{8}\U{8}\U{8}\U{8}\U{8}"

  class Chunk {
    var data: seq<Byte>      // the bytes stored so far
    var cp: nat
    var sp: nat
    var next: Chunk?
    var prev: Chunk?

    constructor ()
      ensures data == [] && cp == 0 && sp == 0 && next == null && prev == null && Rest() == []
    {
      data, cp, sp, next, prev := [], 0, 0, null, null;
    }

    /** The bytes from sp to cp. */
    ghost function Rest(): seq<Byte>
      reads this
    {
      if sp <= cp <= |data| then data[sp..cp] else []
    }

    ghost predicate InRange(size: nat)
      reads this
    {
      sp <= cp == |data| <= size
    }

    /** memcpy behind what is there. */
    method Fill(bytes: seq<Byte>, ghost size: nat)
      requires InRange(size) && |bytes| <= size - cp
      modifies this`data, this`cp
      ensures InRange(size) && cp == old(cp) + |bytes| && Rest() == old(Rest()) + bytes
    {
      data := data + bytes;
      cp := cp + |bytes|;
    }

    /** n bytes are written out. */
    method Skip(n: nat)
      requires sp <= cp == |data| && n <= cp - sp
      modifies this`sp
      ensures sp == old(sp) + n <= cp && n <= |old(Rest())| == old(cp - sp) && Rest() == old(Rest())[n..]
    {
      sp := sp + n;
    }
  }

  function At(items: seq<Chunk>, k: int): Chunk? {
    if 0 <= k < |items| then items[k] else null
  }

  function Concat(pieces: seq<seq<Byte>>): seq<Byte> {
    if pieces == [] then [] else pieces[0] + Concat(pieces[1..])
  }

  lemma {:induction false} ConcatSum(a: seq<seq<Byte>>, b: seq<seq<Byte>>)
    ensures Concat(a + b) == Concat(a) + Concat(b)
  {
    if a == [] {
      assert a + b == b;
    } else {
      assert (a + b)[1..] == a[1..] + b;
      ConcatSum(a[1..], b);
    }
  }

  lemma ConcatOne(piece: seq<Byte>)
    ensures Concat([piece]) == piece
  {
    assert [piece][1..] == [];
  }

  lemma {:induction false} ConcatNothing(pieces: seq<seq<Byte>>)
    requires forall k :: 0 <= k < |pieces| ==> pieces[k] == []
    ensures Concat(pieces) == []
  {
    if pieces != [] { ConcatNothing(pieces[1..]); }
  }

  lemma ConcatAppend(pieces: seq<seq<Byte>>, piece: seq<Byte>)
    ensures Concat(pieces + [piece]) == Concat(pieces) + piece
  {
    ConcatSum(pieces, [piece]);
    ConcatOne(piece);
  }

  /** What each chunk still holds, and all together. */
  ghost function Pieces(items: seq<Chunk>): (ps: seq<seq<Byte>>)
    reads items
    ensures |ps| == |items| && forall k :: 0 <= k < |items| ==> ps[k] == items[k].Rest()
  {
    seq(|items|, k requires 0 <= k < |items| reads items => items[k].Rest())
  }

  ghost function Bytes(items: seq<Chunk>): seq<Byte>
    reads items
  {
    Concat(Pieces(items))
  }

  // ---------- Pages ----------

  /** Whether a line ends at this byte: a newline, or the width is reached. */
  predicate EndsLine(c: Byte, lp: int, width: int) { c == '\n' || lp == width }

  /** How many lines end in s, when it starts in column lp. */
  function LinesEnded(s: seq<Byte>, width: int, lp: int): nat {
    if s == [] then 0
    else if EndsLine(s[0], lp, width) then 1 + LinesEnded(s[1..], width, 1)
    else LinesEnded(s[1..], width, lp + 1)
  }

  /** How many bytes make up a page: up to and with the byte at which the left-th line ends; everything if there is
      none. */
  function PageSize(s: seq<Byte>, width: int, lp: int, left: int): (n: nat)
    ensures n <= |s| && (s != [] ==> n > 0)
  {
    if s == [] then 0
    else if EndsLine(s[0], lp, width) then
      if left == 1 then 1 else 1 + PageSize(s[1..], width, 1, left - 1)
    else 1 + PageSize(s[1..], width, lp + 1, left)
  }

  /** A page is the shortest beginning in which that many lines end, or all there is when fewer end. */
  lemma {:induction false} PageIsLeast(s: seq<Byte>, width: int, lp: int, left: int)
    requires left >= 1
    ensures var n := PageSize(s, width, lp, left);
            && (n < |s| ==> LinesEnded(s[..n], width, lp) == left)
            && LinesEnded(s[..n], width, lp) <= left
            && forall m :: 0 <= m < n ==> LinesEnded(s[..m], width, lp) < left
    decreases |s|
  {
    if s != [] {
      var n := PageSize(s, width, lp, left);
      assert s[..n][1..] == s[1..][..n - 1];
      if !(EndsLine(s[0], lp, width) && left == 1) {
        var ends := EndsLine(s[0], lp, width);
        PageIsLeast(s[1..], width, if ends then 1 else lp + 1, if ends then left - 1 else left);
        forall m | 0 <= m < n ensures LinesEnded(s[..m], width, lp) < left {
          if m > 0 { assert s[..m][1..] == s[1..][..m - 1]; }
        }
      } else {
        assert s[..1][1..] == [];
      }
    }
  }

  predicate OneStretch(s: seq<Byte>) { '\n' !in s }

  /** Without a newline a line ends at every byte that no longer fits in it. */
  lemma {:induction false} LinesWrapped(s: seq<Byte>, width: int, lp: int)
    requires 0 <= lp <= width && 0 < width && OneStretch(s) && 0 < lp + |s|
    ensures LinesEnded(s, width, lp) == (lp + |s| - 1) / width
    decreases |s|
  {
    if s == [] {
      Quotient(lp - 1, width, 0);
    } else {
      assert s[0] != '\n' && forall c :: c in s[1..] ==> c in s;
      LinesWrapped(s[1..], width, if lp == width then 1 else lp + 1);
      if lp == width { OneMore(|s| - 1, width); }
    }
  }

  lemma Quotient(n: int, width: int, q: int)
    requires 0 < width && q * width <= n < q * width + width
    ensures n / width == q
  {
    var d := n / width;
    assert n == d * width + n % width;
    assert (q - d) * width == q * width - d * width;
    NotBeyond(q - d, width);
    NotBeyond(d - q, width);
  }

  lemma OneMore(n: nat, width: int)
    requires 0 < width
    ensures (n + width) / width == n / width + 1
  {
    var q := n / width;
    assert n == q * width + n % width && (q + 1) * width == q * width + width;
    Quotient(n + width, width, q + 1);
  }

  lemma NotBeyond(k: int, width: int)
    requires 0 < width && k * width < width
    ensures k <= 0
  {
  }

  /** A newline ends its line whether or not it still fits, and is the first byte of the next one. */
  lemma {:induction false} LinesBroken(s: seq<Byte>, rest: seq<Byte>, width: int, lp: int)
    requires 0 <= lp && OneStretch(s)
    ensures LinesEnded(s + "\n" + rest, width, lp) == LinesEnded(s, width, lp) + 1 + LinesEnded(rest, width, 1)
    decreases |s|
  {
    var all := s + "\n" + rest;
    if s == [] {
      assert all[0] == '\n' && all[1..] == rest;
    } else {
      assert s[0] != '\n' && forall c :: c in s[1..] ==> c in s;
      assert all[0] == s[0] && all[1..] == s[1..] + "\n" + rest;
      LinesBroken(s[1..], rest, width, if lp == width then 1 else lp + 1);
    }
  }

  // ---------- The buffer ----------

  class Buffer {
    const size: nat
    var head: Chunk?
    var tail: Chunk?
    var alloc: int
    var length: int
    ghost var items: seq<Chunk>
    ghost var flushed: int       // bytes taken out since the last reset

    ghost predicate Linked(k: nat)
      requires k < |items|
      reads this, items
    {
      items[k].next == At(items, k + 1) && items[k].prev == At(items, k - 1)
    }

    /** Between calls no chunk is empty. */
    ghost predicate Chunks()
      reads this, items
    {
      && size > 0 && head == At(items, 0) && tail == At(items, |items| - 1) && alloc == |items| && Distinct(items)
      && (forall k :: 0 <= k < |items| ==> Linked(k))
      && (forall k :: 0 <= k < |items| ==> items[k].InRange(size))
    }

    ghost predicate Valid()
      reads this, items
    {
      && Chunks()
      && (forall k :: 0 <= k < |items| ==> items[k].sp < items[k].cp)
      && length == |Bytes(items)| + flushed
    }

    ghost function Content(): seq<Byte>
      reads this, items
    {
      Bytes(items)
    }

    /** buffer_new. */
    constructor (size: nat)
      requires size > 0
      ensures Valid() && Content() == [] && length == 0 && this.size == size && flushed == 0
    {
      this.size := size;
      head, tail, alloc, length, items, flushed := null, null, 0, 0, [], 0;
    }

    /** buffer_empty. */
    method Empty() returns (e: bool)
      requires Valid()
      ensures e <==> Content() == []
    {
      e := tail == null || tail.cp == tail.sp;
      if items != [] { assert Pieces(items)[0] != []; }
    }

    /** buffer_add: an empty chunk at the end. */
    method AddChunk() returns (d: Chunk)
      requires Chunks()
      modifies this`head, this`tail, this`alloc, this`items, TailOnly(tail)`next
      ensures Chunks() && fresh(d) && items == old(items) + [d] && tail == d && d.sp == d.cp == 0
      ensures Bytes(items) == old(Bytes(items))
    {
      hide Chunks, Concat;
      ghost var ps := Pieces(items);
      AtTail();
      d := new Chunk();
      assert Chunks() && Pieces(items) == ps;
      LinkLast(d);
      assert Pieces(items) == ps + [[]];
      ConcatAppend(ps, []);
    }

    method LinkLast(d: Chunk)
      requires Chunks() && d !in items && d.next == null && d.prev == null && d.InRange(size)
      modifies this`head, this`tail, this`alloc, this`items, TailOnly(tail)`next, d`prev
      ensures Chunks() && items == old(items) + [d] && tail == d
    {
      ghost var n := |items|;
      if n > 0 { assert Linked(n - 1); }
      if tail == null {
        head, tail := d, d;
      } else {
        d.prev := tail;
        tail.next := d;
        tail := d;
      }
      alloc := alloc + 1;
      items := items + [d];
      forall k | 0 <= k < |items| ensures Linked(k) { assert k < n - 1 ==> old(Linked(k)); }
    }

    static ghost function TailOnly(c: Chunk?): set<Chunk> {
      if c == null then {} else {c}
    }

    /** memcpy behind what the last chunk holds. */
    method Store(d: Chunk, bytes: seq<Byte>)
      requires Chunks() && items != [] && d == items[|items| - 1] && |bytes| <= size - d.cp
      modifies d`data, d`cp
      ensures Chunks() && Bytes(items) == old(Bytes(items)) + bytes && d.cp == old(d.cp) + |bytes|
    {
      hide Concat, Chunk.Rest;
      ghost var n := |items| - 1;
      ghost var ps := Pieces(items);
      d.Fill(bytes, size);
      PieceChanged(ps, Pieces(items), n, ps[n] + bytes);
      assert ps == ps[..n] + [ps[n]] && Pieces(items) == ps[..n] + [ps[n] + bytes];
      ConcatAppend(ps[..n], ps[n]);
      ConcatAppend(ps[..n], ps[n] + bytes);
      forall k | 0 <= k < |items| ensures Linked(k) { assert old(Linked(k)); }
    }

    static lemma PieceChanged(ps: seq<seq<Byte>>, qs: seq<seq<Byte>>, m: nat, piece: seq<Byte>)
      requires m < |ps| == |qs| && qs[m] == piece && forall k :: 0 <= k < |ps| && k != m ==> qs[k] == ps[k]
      ensures qs == ps[m := piece]
    {
    }

    ghost predicate NoneEmpty()
      reads this, items
    {
      forall k :: 0 <= k < |items| ==> items[k].sp < items[k].cp
    }

    /** One turn of the loop in buffer_write: as much as the last chunk, or a new one, can take. */
    method WriteSome(data: Chunk?, ptr: seq<Byte>) returns (last: Chunk, rest: seq<Byte>)
      requires Chunks() && NoneEmpty() && data == tail && |ptr| > 0
      modifies this`head, this`tail, this`alloc, this`items, TailOnly(tail)`next, TailOnly(tail)`data, TailOnly(tail)`cp
      ensures Chunks() && NoneEmpty() && last == tail && |rest| < |ptr|
      ensures Bytes(items) + rest == old(Bytes(items)) + ptr
      ensures items == old(items) || (items == old(items) + [last] && fresh(last))
    {
      hide Bytes;
      AtTail();
      if data == null || data.cp == size {
        last := AddChunk();
      } else {
        last := data;
      }
      AtTail();
      var room := if |ptr| <= size - last.cp then |ptr| else size - last.cp;
      Store(last, ptr[..room]);
      rest := ptr[room..];
      assert ptr[..room] + rest == ptr;
      AtTail();
    }

    lemma AtTail()
      requires Chunks()
      ensures items == [] <==> tail == null
      ensures items != [] ==> tail == items[|items| - 1] && tail.sp <= tail.cp <= size
      ensures forall k :: 0 <= k < |items| - 1 ==> items[k] != tail
    {
    }

    /** buffer_write: the bytes go behind what is there. */
    method Write(ptr: seq<Byte>)
      requires Valid()
      modifies this`head, this`tail, this`alloc, this`items, this`length, Members()`next, Members()`data, Members()`cp
      ensures Valid() && Content() == old(Content()) + ptr && length == old(length) + |ptr| && flushed == old(flushed)
    {
      hide Bytes;
      length := length + |ptr|;
      forall k | 0 <= k < |items| ensures Linked(k) { assert old(Linked(k)); }
      Extend(ptr);
    }

    method Extend(ptr: seq<Byte>)
      requires Chunks() && NoneEmpty()
      modifies this`head, this`tail, this`alloc, this`items, Members()`next, Members()`data, Members()`cp
      ensures Chunks() && NoneEmpty() && Bytes(items) == old(Bytes(items)) + ptr
    {
      hide Chunks, Bytes;
      var data, rest := tail, ptr;
      while |rest| > 0
        invariant Chunks() && NoneEmpty() && data == tail && Bytes(items) + rest == old(Bytes(items)) + ptr
        invariant forall c :: c in items ==> c in old(items) || fresh(c)
        decreases |rest|
      {
        AtTail();
        data, rest := WriteSome(data, rest);
      }
    }

    ghost function Members(): set<Chunk>
      reads this
    {
      set c | c in items
    }

    // ---------- Writing out ----------

    /** How a run through the chunks stands: those in front of the m-th are used up, those from the m-th on are not. */
    ghost predicate UsedUp(m: nat)
      reads this, items
    {
      && m <= |items|
      && (forall k :: 0 <= k < m ==> items[k].sp == items[k].cp)
      && (forall k :: m <= k < |items| ==> items[k].sp < items[k].cp)
    }

    /** Only the chunks from the m-th on count. */
    static lemma Remaining(ps: seq<seq<Byte>>, m: nat)
      requires m < |ps| && forall k :: 0 <= k < m ==> ps[k] == []
      ensures Concat(ps) == ps[m] + Concat(ps[m + 1..])
    {
      hide Concat;
      assert ps == ps[..m] + ps[m..];
      ConcatSum(ps[..m], ps[m..]);
      ConcatNothing(ps[..m]);
      HeadOf(ps[m..]);
      assert ps[m..][1..] == ps[m + 1..];
    }

    static lemma HeadOf(ps: seq<seq<Byte>>)
      requires ps != []
      ensures Concat(ps) == ps[0] + Concat(ps[1..])
    {
    }

    lemma NextOf(m: nat)
      requires Chunks() && m < |items|
      ensures items[m].next == At(items, m + 1)
    {
      assert Linked(m);
    }

    /** Some bytes of one chunk are written out. */
    method Advance(data: Chunk, n: nat, ghost m: nat)
      requires Chunks() && UsedUp(m) && m < |items| && items[m] == data && n <= data.cp - data.sp
      modifies data`sp
      ensures Chunks() && UsedUp(if n == old(data.cp - data.sp) then m + 1 else m)
      ensures n <= |old(Bytes(items))| && Bytes(items) == old(Bytes(items))[n..]
      ensures old(data.Rest()[..n]) == old(Bytes(items))[..n]
    {
      hide Concat, Chunk.Rest, Chunks, UsedUp;
      ghost var ps := Pieces(items);
      UsedPieces(m);
      SkipAt(data, n, m);
      PieceChanged(ps, Pieces(items), m, ps[m][n..]);
      TakenOff(ps, m, n);
    }

    method SkipAt(data: Chunk, n: nat, ghost m: nat)
      requires Chunks() && UsedUp(m) && m < |items| && items[m] == data && n <= data.cp - data.sp
      modifies data`sp
      ensures Chunks() && UsedUp(if n == old(data.cp - data.sp) then m + 1 else m)
      ensures n <= |old(data.Rest())| && data.Rest() == old(data.Rest())[n..]
      ensures forall k :: 0 <= k < |items| && k != m ==> items[k].Rest() == old(items[k].Rest())
    {
      hide Chunk.Rest;
      data.Skip(n);
      forall k | 0 <= k < |items| ensures Linked(k) { assert old(Linked(k)); }
    }

    static lemma TakenOff(ps: seq<seq<Byte>>, m: nat, n: nat)
      requires m < |ps| && n <= |ps[m]| && forall k :: 0 <= k < m ==> ps[k] == []
      ensures n <= |Concat(ps)| && Concat(ps[m := ps[m][n..]]) == Concat(ps)[n..] && ps[m][..n] == Concat(ps)[..n]
    {
      hide Concat;
      var qs := ps[m := ps[m][n..]];
      Remaining(ps, m);
      Remaining(qs, m);
      assert qs[m + 1..] == ps[m + 1..];
    }

    lemma UsedPieces(m: nat)
      requires UsedUp(m)
      ensures forall k :: 0 <= k < m ==> Pieces(items)[k] == []
    {
    }

    /** The loop over the chunks in buffer_flush and buffer_flush_vty: the first n bytes, or all there are. */
    method Emit(n: nat) returns (out: seq<Byte>, data: Chunk?, ghost m: nat)
      requires Valid()
      modifies Members()`sp
      ensures Chunks() && UsedUp(m) && data == At(items, m)
      ensures var was := old(Content());
              var k := if n <= |was| then n else |was|;
              out == was[..k] && Content() == was[k..]
    {
      hide Chunks, Bytes, At, UsedUp;
      ghost var was := Content();
      NothingUsed();
      var rest: nat := n;
      out, data, m := [], head, 0;
      while data != null
        invariant Chunks() && UsedUp(m) && data == At(items, m)
        invariant |out| + rest == n && |out| <= |was| && out == was[..|out|] && Bytes(items) == was[|out|..]
        decreases |items| - m
      {
        AtChunk(m);
        var room := data.cp - data.sp;
        if rest <= room {
          var piece := TakeFrom(data, rest, m);
          Taken(was, |out|, rest);
          out := out + piece;
          if rest == room {
            AtChunk(m);
            data, m := data.next, m + 1;
          }
          return;
        } else {
          var piece := TakeFrom(data, room, m);
          Taken(was, |out|, room);
          out := out + piece;
          rest := rest - room;
          AtChunk(m);
          data, m := data.next, m + 1;
        }
      }
      NothingLeft(m);
    }

    /** The next n bytes of a chunk that has as many. */
    method TakeFrom(data: Chunk, n: nat, ghost m: nat) returns (piece: seq<Byte>)
      requires Chunks() && UsedUp(m) && m < |items| && items[m] == data && n <= data.cp - data.sp
      modifies data`sp
      ensures Chunks() && UsedUp(if n == old(data.cp - data.sp) then m + 1 else m)
      ensures n <= |old(Bytes(items))| && piece == old(Bytes(items))[..n] && Bytes(items) == old(Bytes(items))[n..]
    {
      hide Chunks, Bytes, UsedUp;
      AtChunk(m);
      piece := data.data[data.sp..data.sp + n];
      Advance(data, n, m);
    }

    static lemma Taken(was: seq<Byte>, i: nat, n: nat)
      requires i <= |was|
      ensures i + n <= |was| ==> was[..i] + was[i..][..n] == was[..i + n] && was[i..][n..] == was[i + n..]
    {
    }

    lemma NothingUsed()
      requires Valid()
      ensures Chunks() && UsedUp(0) && head == At(items, 0) && Content() == Bytes(items)
    {
    }

    lemma AtChunk(m: nat)
      requires Chunks() && At(items, m) != null
      ensures m < |items| && items[m] == At(items, m) && items[m].next == At(items, m + 1)
      ensures items[m].sp <= items[m].cp == |items[m].data| && items[m].Rest()
              == items[m].data[items[m].sp..items[m].cp]
    {
      assert Linked(m);
    }

    lemma NothingLeft(m: nat)
      requires Chunks() && UsedUp(m) && At(items, m) == null
      ensures m == |items| && Bytes(items) == []
    {
      UsedPieces(m);
      ConcatNothing(Pieces(items));
    }

    /** The first chunk is freed. */
    method FreeHead()
      requires Chunks() && items != []
      modifies this`head, this`tail, this`alloc, this`items, TailOnly(At(items, 1))`prev
      ensures Chunks() && items == old(items)[1..] && Pieces(items) == old(Pieces(items))[1..]
    {
      hide Chunks;
      UnlinkHead();
    }

    method UnlinkHead()
      requires Chunks() && items != []
      modifies this`head, this`tail, this`alloc, this`items, TailOnly(At(items, 1))`prev
      ensures Chunks() && items == old(items)[1..]
    {
      assert Linked(0);
      if |items| > 1 { assert Linked(1); }
      var next := head.next;
      if next != null {
        next.prev := null;
      } else {
        tail := next;
      }
      head := next;
      alloc := alloc - 1;
      items := items[1..];
      forall k | 0 <= k < |items| ensures Linked(k) { assert old(Linked(k + 1)); }
    }

    method FreeOne(data: Chunk?, ghost m: nat)
      requires Chunks() && UsedUp(m) && data == At(items, m) && head != null && head != data
      modifies this`head, this`tail, this`alloc, this`items, Members()`prev
      ensures m > 0 && Chunks() && UsedUp(m - 1) && data == At(items, m - 1) && Bytes(items) == old(Bytes(items))
      ensures head == At(items, 0) && Members() <= old(Members()) && |items| < old(|items|)
    {
      hide Chunks, Concat;
      HeadIs();
      FirstUsed(m, data);
      FreeHead();
      HeadIs();
    }

    /** Freeing what is used up. */
    method FreeTo(data: Chunk?, ghost m: nat)
      requires Chunks() && UsedUp(m) && data == At(items, m)
      modifies this`head, this`tail, this`alloc, this`items, Members()`prev
      ensures Chunks() && NoneEmpty() && Bytes(items) == old(Bytes(items)) && Members() <= old(Members())
    {
      hide Chunks, Bytes, UsedUp, At, NoneEmpty;
      ghost var left := m;
      HeadIs();
      while head != null && head != data
        invariant Chunks() && UsedUp(left) && data == At(items, left) && Bytes(items) == old(Bytes(items))
        invariant head == At(items, 0) && Members() <= old(Members())
        decreases |items|
      {
        FreeOne(data, left);
        left := left - 1;
      }
      NotTwice(left, data);
    }

    lemma HeadIs()
      requires Chunks()
      ensures head == At(items, 0)
    {
    }

    /** The first chunk is not where the run stopped, so it is used up and holds nothing. */
    lemma FirstUsed(m: nat, data: Chunk?)
      requires Chunks() && UsedUp(m) && data == At(items, m) && At(items, 0) != null && At(items, 0) != data
      ensures m > 0 && items != [] && Concat(Pieces(items)) == Concat(Pieces(items)[1..])
    {
      HeadOf(Pieces(items));
    }

    lemma NotTwice(m: nat, data: Chunk?)
      requires Chunks() && UsedUp(m) && data == At(items, m) && (At(items, 0) == null || At(items, 0) == data)
      ensures NoneEmpty()
    {
    }

    /** buffer_flush: as many of the oldest bytes as asked for, if there are as many. The length that buffer_write keeps
        is not corrected. */
    method Flush(n: nat) returns (out: seq<Byte>)
      requires Valid()
      modifies this`head, this`tail, this`alloc, this`items, this`flushed, Members()`sp, Members()`prev
      ensures Valid() && length == old(length)
      ensures var was := old(Content());
              var k := if n <= |was| then n else |was|;
              out == was[..k] && Content() == was[k..] && flushed == old(flushed) + k
    {
      hide Bytes, UsedUp, Chunks, At;
      ghost var was := Content();
      var data;
      ghost var m;
      out, data, m := Emit(n);
      FreeTo(data, m);
      Counted(|out|);
    }

    /** What left the chunks is counted. */
    ghost method Counted(k: nat)
      requires Chunks() && NoneEmpty() && length == |Content()| + flushed + k
      modifies this`flushed
      ensures Valid() && flushed == old(flushed) + k && Content() == old(Content())
    {
      hide Bytes;
      flushed := flushed + k;
      forall j | 0 <= j < |items| ensures Linked(j) { assert old(Linked(j)); }
    }

    /** Whether everything has been taken, before the used chunks are freed. */
    method Drained(ghost m: nat) returns (e: bool)
      requires Chunks() && UsedUp(m)
      ensures Chunks() && UsedUp(m) && Content() == old(Content())
      ensures e <==> Content() == []
    {
      e := tail == null || tail.cp == tail.sp;
      if m < |items| {
        UsedPieces(m);
        Remaining(Pieces(items), m);
        assert Pieces(items)[m] != [];
      } else {
        UsedPieces(m);
        ConcatNothing(Pieces(items));
      }
    }

    /** buffer_flush_vty: what Flush writes out, with the erasing of an earlier prompt in front and, when bytes remain,
        a prompt behind. */
    method FlushVty(n: nat, erase: bool, noMore: bool) returns (out: seq<Byte>)
      requires Valid()
      modifies this`head, this`tail, this`alloc, this`items, this`flushed, Members()`sp, Members()`prev
      ensures Valid() && length == old(length) && Members() <= old(Members())
      ensures var was := old(Content());
              var k := if n <= |was| then n else |was|;
              Content() == was[k..] && flushed == old(flushed) + k
              && out == Framed(was[..k], erase, k < |was| && !noMore)
    {
      hide Bytes, UsedUp, Chunks, At;
      var page, data;
      ghost var m;
      page, data, m := Emit(n);
      var empty := Drained(m);
      out := Framed(page, erase, !empty && !noMore);
      FreeTo(data, m);
      Counted(|page|);
    }

    /** buffer_reset. */
    method Reset()
      requires Chunks()
      modifies this`head, this`tail, this`alloc, this`length, this`items, this`flushed
      ensures Valid() && Content() == [] && length == 0 && flushed == 0
    {
      head, tail, alloc, length, items, flushed := null, null, 0, 0, [], 0;
    }

    /** The bytes of all chunks, for one writev. */
    method Gather() returns (out: seq<Byte>)
      requires Valid()
      ensures Valid() && Content() == old(Content()) && out == Content()
    {
      hide At, Concat;
      NothingUsed();
      ghost var ps, m := Pieces(items), 0;
      var d := head;
      out := [];
      assert Concat(ps[..0]) == [] by { Nothing(); }
      while d != null
        invariant m <= |items| && d == At(items, m) && out == Concat(ps[..m])
        decreases |items| - m
      {
        AtChunk(m);
        assert ps[..m + 1] == ps[..m] + [ps[m]];
        ConcatAppend(ps[..m], ps[m]);
        out := out + d.data[d.sp..d.cp];
        d, m := d.next, m + 1;
      }
      AtEnd(m);
      assert ps[..m] == ps;
    }

    static lemma Nothing()
      ensures Concat([]) == []
    {
    }

    lemma AtEnd(m: nat)
      requires m <= |items| && At(items, m) == null
      ensures m == |items|
    {
    }

    /** buffer_flush_all. */
    method FlushAll() returns (out: seq<Byte>)
      requires Valid()
      modifies this`head, this`tail, this`alloc, this`length, this`items, this`flushed
      ensures Valid() && Content() == [] && out == old(Content())
    {
      hide Bytes;
      var empty := Empty();
      if empty { return []; }
      out := Gather();
      Reset();
    }

    /** buffer_flush_vty_all: everything at once; the prompt follows whenever there was anything. */
    method FlushVtyAll(erase: bool, noMore: bool) returns (out: seq<Byte>)
      requires Valid()
      modifies this`head, this`tail, this`alloc, this`items, this`flushed, Members()`prev
      ensures Valid() && Content() == [] && length == old(length) && flushed == length
      ensures var was := old(Content()); out == Framed(was, erase, was != [] && !noMore)
    {
      hide Bytes, Chunks;
      ghost var was := Content();
      var page := Gather();
      var empty := Empty();
      out := Framed(page, erase, !empty && !noMore);
      FreeAll();
      Counted(|was|);
    }

    /** Every chunk is freed. */
    method FreeAll()
      requires Chunks()
      modifies this`head, this`tail, this`alloc, this`items, Members()`prev
      ensures Chunks() && NoneEmpty() && Content() == []
    {
      hide Chunks;
      HeadIs();
      while head != null
        invariant Chunks() && head == At(items, 0) && Members() <= old(Members())
        decreases |items|
      {
        FreeHead();
        HeadIs();
      }
    }

    /** How much of the content makes up a page. */
    method Measure(width: int, height: int) returns (n: nat)
      requires Valid()
      ensures Valid() && Content() == old(Content()) && n == PageSize(Content(), width, 0, height)
    {
      hide At, Concat, PageSize;
      NothingUsed();
      ghost var ps, m := Pieces(items), 0;
      var data, lp, lineno := head, 0, 0;
      n := 0;
      while data != null
        invariant m <= |items| && data == At(items, m)
        invariant PageSize(Content(), width, 0, height) == n + PageSize(Concat(ps[m..]), width, lp, height - lineno)
        decreases |items| - m
      {
        AtChunk(m);
        HeadOf(ps[m..]);
        assert ps[m..][1..] == ps[m + 1..];
        ghost var rest := Concat(ps[m + 1..]);
        var done;
        n, lp, lineno, done := MeasureChunk(data, rest, width, height, n, lp, lineno);
        if done { return; }
        data, m := data.next, m + 1;
      }
      AtEnd(m);
      assert ps[m..] == [];
      Nothing();
      PageOfNothing(width, lp, height - lineno);
    }

    static lemma PageOfNothing(width: int, lp: int, left: int)
      ensures PageSize([], width, lp, left) == 0
    {
    }

    /** The inner loop, over one chunk. */
    static method MeasureChunk(data: Chunk, ghost rest: seq<Byte>, width: int, height: int, n0: nat, lp0: int,
            lineno0: int)
      returns (n: nat, lp: int, lineno: int, done: bool)
      requires data.sp <= data.cp == |data.data|
      ensures done ==> n0 + PageSize(data.Rest() + rest, width, lp0, height - lineno0) == n
      ensures !done ==>
        n0 + PageSize(data.Rest() + rest, width, lp0, height - lineno0) == n + PageSize(rest, width, lp,
          height - lineno)
    {
      hide PageSize;
      var cp := data.sp;
      n, lp, lineno := n0, lp0, lineno0;
      assert data.data[cp..] == data.Rest();
      while cp < data.cp
        invariant data.sp <= cp <= data.cp
        invariant n0 + PageSize(data.Rest() + rest, width, lp0, height - lineno0)
          == n + PageSize(data.data[cp..] + rest, width, lp, height - lineno)
      {
        PageStep(data.data[cp..] + rest, width, lp, height - lineno);
        assert (data.data[cp..] + rest)[1..] == data.data[cp + 1..] + rest;
        if data.data[cp] == '\n' || lp == width {
          lineno := lineno + 1;
          if lineno == height { return n + 1, lp, lineno, true; }
          lp := 0;
        }
        cp, lp, n := cp + 1, lp + 1, n + 1;
      }
      assert data.data[cp..] + rest == rest;
      done := false;
    }

    static lemma PageStep(s: seq<Byte>, width: int, lp: int, left: int)
      requires s != []
      ensures PageSize(s, width, lp, left) ==
        if EndsLine(s[0], lp, width) then if left == 1 then 1 else 1 + PageSize(s[1..], width, 1, left - 1)
        else 1 + PageSize(s[1..], width, lp + 1, left)
    {
    }

    /** buffer_flush_window: one page, one line less high so that there is room for the prompt. */
    method FlushWindow(width: int, height: int, erase: bool, noMore: bool) returns (out: seq<Byte>)
      requires Valid()
      modifies this`head, this`tail, this`alloc, this`items, this`flushed, Members()`sp, Members()`prev
      ensures Valid() && length == old(length) && Members() <= old(Members())
      ensures var was := old(Content());
              var k := PageSize(was, width, 0, LinesOf(height));
              Content() == was[k..] && out == Framed(was[..k], erase, k < |was| && !noMore)
    {
      hide Bytes, PageSize, Chunks;
      var lines := height;
      if height >= 2 { lines := height - 1; }
      var n := Measure(width, lines);
      out := FlushVty(n, erase, noMore);
    }
  }

  function LinesOf(height: int): int {
    if height >= 2 then height - 1 else height
  }

  /** What a window shows: one line less than its height, so that there is room for the prompt; in a window of one line
      that line; in one without lines everything. */
  lemma WindowHolds(s: seq<Byte>, width: int, height: int)
    ensures var n := PageSize(s, width, 0, LinesOf(height));
            && (height >= 2 && n < |s| ==> LinesEnded(s[..n], width, 0) == height - 1)
            && (height == 1 && n < |s| ==> LinesEnded(s[..n], width, 0) == 1)
            && (height <= 0 ==> n == |s|)
  {
    if height >= 1 { PageIsLeast(s, width, 0, LinesOf(height)); } else { NoWindow(s, width, 0, height); }
  }

  lemma {:induction false} NoWindow(s: seq<Byte>, width: int, lp: int, left: int)
    requires left <= 0
    ensures PageSize(s, width, lp, left) == |s|
    decreases |s|
  {
    if s != [] {
      var ends := EndsLine(s[0], lp, width);
      NoWindow(s[1..], width, if ends then 1 else lp + 1, if ends then left - 1 else left);
    }
  }

  /** The content page by page. */
  function Pages(s: seq<Byte>, width: int, lines: int): (ps: seq<seq<Byte>>)
    decreases |s|
  {
    if s == [] then []
    else
      var k := PageSize(s, width, 0, lines);
      [s[..k]] + Pages(s[k..], width, lines)
  }

  /** The pages are all of the content in order, and none is empty. */
  lemma {:induction false} PagesAreAll(s: seq<Byte>, width: int, lines: int)
    ensures Concat(Pages(s, width, lines)) == s
    ensures forall i :: 0 <= i < |Pages(s, width, lines)| ==> Pages(s, width, lines)[i] != []
    decreases |s|
  {
    if s != [] {
      var k := PageSize(s, width, 0, lines);
      PagesAreAll(s[k..], width, lines);
      assert Pages(s, width, lines)[1..] == Pages(s[k..], width, lines);
      assert s == s[..k] + s[k..];
    }
  }

  /** Pages as they are written: a prompt behind each but the last, and erased in front of each but the first. */
  function Shown(pages: seq<seq<Byte>>, erase: bool): seq<seq<Byte>> {
    if pages == [] then [] else [Framed(pages[0], erase, |pages| > 1)] + Shown(pages[1..], true)
  }

  /** The prompt stands behind each page but the last and is erased in front of each page but the first. */
  lemma {:induction false} ShownAt(pages: seq<seq<Byte>>, erase: bool, i: nat)
    requires i < |pages|
    ensures |Shown(pages, erase)| == |pages|
    ensures Shown(pages, erase)[i] == (if i > 0 || erase then ERASE else []) + pages[i]
                                      + (if i < |pages| - 1 then MORE else [])
  {
    if |pages| > 1 { ShownAt(pages[1..], true, if i > 0 then i - 1 else 0); }
  }

  /** A text written at the end of the line, as many steps back, blanks and steps back again leave blanks and the cursor
      where it was. */
  lemma TextErased(s: Terminal.Screen, t: string, n: nat)
    requires s.cursor == |s.cells| && Terminal.AllPrinting(t) && |t| == n
    ensures Terminal.Feed(s, t) == Terminal.Screen(s.cells + t, s.cursor + n)
    ensures Terminal.Feed(Terminal.Feed(s, t), Terminal.Backwards(n) + (Blanks(n) + Terminal.Backwards(n)))
            == Terminal.Screen(s.cells + Blanks(n), s.cursor)
  {
    hide Terminal.Put, Terminal.Feed, Terminal.Over, Blanks, Terminal.Backwards, Terminal.AllPrinting;
    var back, blanks := Terminal.Backwards(n), Blanks(n);
    OverEnd(s.cells, t, n);
    Terminal.FeedText(s, t);
    var shown := Terminal.Feed(s, t);
    Terminal.FeedConcat(shown, back, blanks + back);
    Terminal.FeedBackwards(shown, n);
    var there := Terminal.Feed(shown, back);
    Terminal.FeedConcat(there, blanks, back);
    Terminal.FeedText(there, blanks);
    Terminal.FeedBackwards(Terminal.Feed(there, blanks), n);
  }

  lemma OverEnd(cells: string, t: string, n: nat)
    requires |t| == n
    ensures Terminal.Over(cells, |cells|, t) == cells + t
    ensures Terminal.Over(cells + t, |cells|, Blanks(n)) == cells + Blanks(n)
    ensures |Blanks(n)| == n && Terminal.AllPrinting(Blanks(n))
  {
  }

  function Blanks(n: nat): string { seq(n, _ => ' ') }

  const PROMPT := " --More-- "

  lemma PromptBytes()
    ensures MORE == PROMPT + "\0" && |PROMPT| == 10 && Terminal.AllPrinting(PROMPT)
    ensures ERASE == Terminal.Backwards(10) + (Blanks(10) + Terminal.Backwards(10))
  {
  }

  /** The prompt and a zero byte, which shows nothing; what erases it takes the cursor back and leaves blanks. */
  lemma PromptErased(s: Terminal.Screen)
    requires s.cursor == |s.cells|
    ensures MORE == PROMPT + "\0"
    ensures Terminal.Feed(s, PROMPT) == Terminal.Screen(s.cells + PROMPT, s.cursor + 10)
    ensures Terminal.Feed(Terminal.Feed(s, PROMPT), ERASE) == Terminal.Screen(s.cells + Blanks(10), s.cursor)
  {
    hide *;
    PromptBytes();
    TextErased(s, PROMPT, 10);
  }

  /** A reader who asks for page after page is shown all of them, and then the buffer is empty. */
  method PageThrough(b: Buffer, width: int, height: int) returns (outs: seq<seq<Byte>>)
    requires b.Valid()
    modifies b, b.Members()
    ensures b.Valid() && b.Content() == [] && outs == Shown(Pages(old(b.Content()), width, LinesOf(height)), false)
  {
    hide Buffer.Valid, Buffer.Content, Pages, Framed, PageSize;
    outs := [];
    var empty := b.Empty();
    while !empty
      invariant b.Valid() && (empty <==> b.Content() == []) && b.Members() <= old(b.Members())
      invariant Shown(Pages(old(b.Content()), width, LinesOf(height)), false)
        == outs + Shown(Pages(b.Content(), width, LinesOf(height)), outs != [])
      decreases |b.Content()|
    {
      PagesStep(b.Content(), width, LinesOf(height), outs != []);
      var out := b.FlushWindow(width, height, outs != [], false);
      outs := outs + [out];
      empty := b.Empty();
    }
    NoPages(width, LinesOf(height));
  }

  lemma NoPages(width: int, lines: int)
    ensures Pages([], width, lines) == []
  {
  }

  lemma PagesStep(s: seq<Byte>, width: int, lines: int, erase: bool)
    requires s != []
    ensures var k := PageSize(s, width, 0, lines);
            0 < k <= |s| && Shown(Pages(s, width, lines), erase)
              == [Framed(s[..k], erase, k < |s|)] + Shown(Pages(s[k..], width, lines), true)
  {
    hide PageSize, Framed;
  }

  /** Output as a terminal gets it. */
  function Framed(page: seq<Byte>, erase: bool, more: bool): seq<Byte> {
    (if erase then ERASE else []) + page + (if more then MORE else [])
  }
}
