/** The growing byte buffer regex_compile writes into, with the store and insert operations on jumps. */
module RegexBuffer {
  import opened RegexTree
  import opened RegexCode
  import opened Wrappers

  const INIT_BUF_SIZE := 32
  const MAX_BUF_SIZE := 65536

  /** What a run of repetition characters puts before and after its operand of n bytes. */
  function LoopFront(zero: bool, many: bool, keep: bool, n: nat): seq<Byte> {
    (if zero then [] else JumpCode(DUMMY_FAILURE_JUMP, 3))
    + JumpCode(if keep then ON_FAILURE_KEEP_STRING_JUMP else ON_FAILURE_JUMP, if many then n + 3 else n)
  }

  function LoopBack(many: bool, keep: bool, n: nat): seq<Byte> {
    if !many then [] else if keep then JumpCode(JUMP, -(n + 3)) else JumpCode(MAYBE_POP_JUMP, -(n + 6))
  }

  lemma InsertedAfter(front: seq<Byte>, rest: seq<Byte>, jump: seq<Byte>)
    ensures Inserted(front + rest, |front|, jump) == front + (jump + rest)
  {
  }

  /** The code once a `|' has put a jump before the branch and led the jump after the earlier alternatives to the one
      that will come after this branch. */
  function Barred(code: seq<Byte>, begalt: nat, fixup: Option<nat>): seq<Byte>
    requires begalt <= |code| && (fixup.Some? ==> fixup.value + 3 == begalt)
  {
    var n := |code| - begalt;
    var gap := Inserted(code, begalt, JumpCode(ON_FAILURE_JUMP, n + 3));
    if fixup.Some? then Overwritten(gap, fixup.value, JumpCode(JUMP_PAST_ALT, n + 3)) else gap
  }

  /** The code once a `)' has ended the alternatives before it. */
  function Closed(code: seq<Byte>, begalt: nat, fixup: Option<nat>): seq<Byte>
    requires fixup.Some? ==> fixup.value + 3 == begalt <= |code|
  {
    if fixup.Some? then
      Overwritten(code + [PUSH_DUMMY_FAILURE], fixup.value, JumpCode(JUMP_PAST_ALT, |code| - begalt))
    else code
  }

  /** The number of inner groups, stored where the start_memory left room for it. */
  function CountStored(code: seq<Byte>, laststart: nat, reg: nat, inner: nat): seq<Byte>
    requires reg <= MAX_REGNUM ==> laststart + 2 < |code|
  {
    if reg <= MAX_REGNUM then code[laststart + 2 := inner % 256] else code
  }

  function LoopFirst(many: bool, keep: bool, n: nat): seq<Byte> {
    JumpCode(if keep then ON_FAILURE_KEEP_STRING_JUMP else ON_FAILURE_JUMP, if many then n + 3 else n)
  }

  function Wrapped(front: seq<Byte>, body: seq<Byte>, zero: bool, many: bool, keep: bool): seq<Byte> {
    front + (LoopFront(zero, many, keep, |body|) + body + LoopBack(many, keep, |body|))
  }

  lemma LoopParts(n: nat, zero: bool, many: bool, keep: bool)
    ensures |LoopBack(many, keep, n)| == if many then 3 else 0
    ensures LoopFront(zero, many, keep, n)
         == (if zero then [] else JumpCode(DUMMY_FAILURE_JUMP, 3)) + LoopFirst(many, keep, n)
    ensures LoopFirst(many, keep, n) ==
      JumpCode(if keep then ON_FAILURE_KEEP_STRING_JUMP else ON_FAILURE_JUMP, if many then n + 3 else n)
  {
  }

  /** The jumps inserted one by one. */
  lemma Rewrap(front: seq<Byte>, body: seq<Byte>, zero: bool, many: bool, keep: bool)
    ensures var n := |body|;
            var back, first, dummy := LoopBack(many, keep, n), LoopFirst(many, keep, n),
              JumpCode(DUMMY_FAILURE_JUMP, 3);
            && (!many ==> front + body == front + (body + back))
            && front + body + back == front + (body + back)
            && Inserted(front + (body + back), |front|, first) == front + (first + (body + back))
            && Inserted(front + (first + (body + back)), |front|, dummy) == front + (dummy + (first + (body + back)))
            && (zero ==> Wrapped(front, body, zero, many, keep) == front + (first + (body + back)))
            && (!zero ==> Wrapped(front, body, zero, many, keep) == front + (dummy + (first + (body + back))))
  {
    hide JumpCode, LoopBack, LoopFront, LoopFirst;
    var n := |body|;
    var back, first, dummy := LoopBack(many, keep, n), LoopFirst(many, keep, n), JumpCode(DUMMY_FAILURE_JUMP, 3);
    LoopParts(n, zero, many, keep);
    InsertedAfter(front, body + back, first);
    InsertedAfter(front, first + (body + back), dummy);
    assert (first + body) + back == first + (body + back);
    assert dummy + first + body + back == dummy + (first + (body + back));
    assert [] + first == first;
  }

  class CodeBuffer {
    var data: array<Byte>   // bufp->buffer, bufp->allocated long
    var b: nat              // where the next byte goes

    ghost predicate Valid()
      reads this
    {
      1 <= data.Length <= MAX_BUF_SIZE && b <= data.Length
    }

    /** The code emitted so far. */
    ghost function Bytes(): seq<Byte>
      reads this, data
      requires Valid()
    {
      data[..b]
    }

    constructor ()
      ensures Valid() && fresh(data) && Bytes() == []
    {
      data := new Byte[INIT_BUF_SIZE];
      b := 0;
    }

    /** GET_BUFFER_SPACE: double the buffer until n more bytes fit, up to MAX_BUF_SIZE. */
    method GetSpace(n: nat) returns (ok: bool)
      requires Valid()
      modifies this`data
      ensures Valid() && (data == old(data) || fresh(data)) && Bytes() == old(Bytes())
      ensures ok <==> b + n <= MAX_BUF_SIZE
      ensures ok ==> b + n <= data.Length
    {
      while b + n > data.Length
        invariant Valid() && (data == old(data) || fresh(data)) && Bytes() == old(Bytes())
        decreases MAX_BUF_SIZE - data.Length
      {
        if data.Length == MAX_BUF_SIZE { return false; }
        ghost var smaller := data;
        var size := if 2 * data.Length > MAX_BUF_SIZE then MAX_BUF_SIZE else 2 * data.Length;
        var bigger := new Byte[size];
        for k := 0 to data.Length
          invariant Valid() && data == smaller && Bytes() == old(Bytes())
          invariant forall j :: 0 <= j < k ==> bigger[j] == data[j]
        {
          bigger[k] := data[k];
        }
        assert bigger[..b] == data[..b];
        data := bigger;
      }
      return true;
    }

    /** BUF_PUSH. */
    method PushByte(c: Byte) returns (ok: bool)
      requires Valid()
      modifies this, data
      ensures Valid() && (data == old(data) || fresh(data))
      ensures ok <==> old(b) + 1 <= MAX_BUF_SIZE
      ensures Bytes() == if ok then old(Bytes()) + [c] else old(Bytes())
    {
      ok := GetSpace(1);
      if ok {
        data[b] := c;
        b := b + 1;
      }
    }

    /** BUF_PUSH_2, BUF_PUSH_3 and the bytes of a bitmap: room for all of them, then one after the other. */
    method PushBytes(s: seq<Byte>) returns (ok: bool)
      requires Valid()
      modifies this, data
      ensures Valid() && (data == old(data) || fresh(data))
      ensures ok <==> old(b) + |s| <= MAX_BUF_SIZE
      ensures Bytes() == if ok then old(Bytes()) + s else old(Bytes())
      ensures !ok ==> b == old(b)
    {
      ok := GetSpace(|s|);
      if ok {
        ghost var buffer := data;
        for k := 0 to |s|
          invariant data == buffer && b == old(b) + k && b + (|s| - k) <= data.Length && Valid()
          invariant Bytes() == old(Bytes()) + s[..k]
        {
          data[b] := s[k];
          b := b + 1;
        }
      }
    }

    /** STORE_JUMP over three bytes already emitted: the jump at loc leads to `to'. */
    method StoreJump(op: Byte, loc: nat, to: int)
      requires Valid() && loc + 3 <= b
      modifies data
      ensures Bytes() == Overwritten(old(Bytes()), loc, JumpCode(op, to - loc - 3))
    {
      var offset := to - loc - 3;
      data[loc], data[loc + 1], data[loc + 2] := op, Low(offset), High(offset);
    }

    /** Three bytes of space at the end, then STORE_JUMP there. */
    method AppendJump(op: Byte, to: int) returns (ok: bool)
      requires Valid()
      modifies this, data
      ensures Valid() && (data == old(data) || fresh(data))
      ensures ok <==> old(b) + 3 <= MAX_BUF_SIZE
      ensures Bytes() == if ok then old(Bytes()) + JumpCode(op, to - old(b) - 3) else old(Bytes())
    {
      ok := GetSpace(3);
      if ok {
        b := b + 3;
        StoreJump(op, b - 3, to);
      }
    }

    /** INSERT_JUMP: move everything from loc on up by three bytes, then store the jump in the gap. */
    method InsertJump(op: Byte, loc: nat, to: int) returns (ok: bool)
      requires Valid() && loc <= b
      modifies this, data
      ensures Valid() && (data == old(data) || fresh(data))
      ensures ok <==> old(b) + 3 <= MAX_BUF_SIZE
      ensures Bytes() == if ok then Inserted(old(Bytes()), loc, JumpCode(op, to - loc - 3)) else old(Bytes())
    {
      hide Low, High;
      ok := GetSpace(3);
      if ok {
        MoveUp(loc);
        ghost var moved := data[..b + 3];
        var offset := to - loc - 3;
        assert moved[..loc] == data[..loc] && moved[loc + 3..] == data[loc + 3..b + 3];
        Filled(moved, old(Bytes()), loc, op, Low(offset), High(offset));
        data[loc], data[loc + 1], data[loc + 2] := op, Low(offset), High(offset);
        b := b + 3;
        assert data[..b] == moved[loc := op][loc + 1 := Low(offset)][loc + 2 := High(offset)];
      }
    }

    static lemma Filled(moved: seq<Byte>, was: seq<Byte>, loc: nat, x: Byte, y: Byte, z: Byte)
      requires loc <= |was| && |moved| == |was| + 3 && moved[..loc] == was[..loc] && moved[loc + 3..] == was[loc..]
      ensures moved[loc := x][loc + 1 := y][loc + 2 := z] == was[..loc] + [x, y, z] + was[loc..]
    {
      assert moved == moved[..loc] + moved[loc..loc + 3] + moved[loc + 3..];
    }

    /** Everything from loc on up by three bytes. */
    method MoveUp(loc: nat)
      requires loc <= b && b + 3 <= data.Length
      modifies data
      ensures data[..loc] == old(data[..loc]) && data[loc + 3..b + 3] == old(data[loc..b])
    {
      var from := b;
      while from != loc
        invariant loc <= from <= b
        invariant forall k :: 0 <= k < from ==> data[k] == old(data[k])
        invariant forall k :: from + 3 <= k < b + 3 ==> data[k] == old(data[k - 3])
      {
        from := from - 1;
        data[from + 3] := data[from];
      }
    }

    /** Leave three bytes to be filled in later. */
    method Skip() returns (ok: bool)
      requires Valid()
      modifies this, data
      ensures Valid() && (data == old(data) || fresh(data))
      ensures ok <==> old(b) + 3 <= MAX_BUF_SIZE
      ensures ok ==> b == old(b) + 3 && Bytes()[..old(b)] == old(Bytes())
      ensures !ok ==> Bytes() == old(Bytes())
    {
      ok := GetSpace(3);
      if ok { b := b + 3; }
    }

    /** Overwrite one emitted byte. */
    method Patch(k: nat, c: Byte)
      requires Valid() && k < b
      modifies data
      ensures Bytes() == old(Bytes())[k := c]
    {
      data[k] := c;
    }

    /** An exactn with one character: its count byte is pushed as 0 and then incremented. */
    method PushRun(c: Byte) returns (ok: bool)
      requires Valid()
      modifies this, data
      ensures Valid() && (data == old(data) || fresh(data))
      ensures ok ==> b == old(b) + 3 && Bytes() == old(Bytes()) + [EXACTN, 1, c]
      ensures !ok ==> b + 3 > MAX_BUF_SIZE
    {
      ok := PushBytes([EXACTN, 0]);
      if !ok { return; }
      ok := PushByte(c);
      if !ok { return; }
      Patch(b - 2, data[b - 2] + 1);
    }

    /** One more character for the exactn whose count byte is at q. */
    method ExtendRun(q: nat, c: Byte) returns (ok: bool)
      requires Valid() && q < b && data[q] != 255
      modifies this, data
      ensures Valid() && (data == old(data) || fresh(data))
      ensures ok ==> Bytes() == (old(Bytes()) + [c])[q := old(Bytes()[q]) + 1]
      ensures !ok ==> b + 1 > MAX_BUF_SIZE
    {
      ok := PushByte(c);
      if !ok { return; }
      assert data[q] == Bytes()[q];
      Patch(q, data[q] + 1);
    }

    /** The jump back from the end of the operand that starts at ls. */
    method JumpBack(ls: nat, keep: bool) returns (ok: bool)
      requires Valid() && ls <= b
      modifies this, data
      ensures Valid() && (data == old(data) || fresh(data))
      ensures ok ==> Bytes() == old(Bytes()) + LoopBack(true, keep, old(b) - ls)
      ensures ok ==> b == old(b) + 3
      ensures !ok ==> b + 3 > MAX_BUF_SIZE
    {
      if keep {
        ok := AppendJump(JUMP, ls);
      } else {
        ok := AppendJump(MAYBE_POP_JUMP, ls - 3);
      }
    }

    /** The jumps around the operand that starts at ls, in the order the compiler emits them. */
    method Wrap(ls: nat, zero: bool, many: bool, keep: bool) returns (ok: bool)
      requires Valid() && ls <= b
      requires keep ==> many
      modifies this, data
      ensures Valid() && (data == old(data) || fresh(data))
      ensures ok ==> Bytes() == Wrapped(old(Bytes()[..ls]), old(Bytes()[ls..]), zero, many, keep)
      ensures !ok ==> b + 3 > MAX_BUF_SIZE
    {
      hide JumpCode, LoopBack, LoopFront, Inserted, Wrapped;
      ghost var was := Bytes();
      ghost var front, body, n := was[..ls], was[ls..], b - ls;
      ghost var back := LoopBack(many, keep, n);
      assert was == front + body;
      if many {
        ok := JumpBack(ls, keep);
        if !ok { return; }
      }
      LoopParts(n, zero, many, keep);
      Rewrap(front, body, zero, many, keep);
      ghost var first := LoopFirst(many, keep, n);
      ok := InsertJump(if keep then ON_FAILURE_KEEP_STRING_JUMP else ON_FAILURE_JUMP, ls, b + 3);
      if !ok { return; }
      assert Bytes() == front + (first + (body + back));
      if !zero {
        ok := InsertJump(DUMMY_FAILURE_JUMP, ls, ls + 6);
      }
    }

    /** The jumps a `|' puts before the branch and after the earlier alternatives. */
    method EndAlternative(begalt: nat, fixup: Option<nat>) returns (ok: bool)
      requires Valid() && begalt <= b && (fixup.Some? ==> fixup.value + 3 == begalt)
      modifies this, data
      ensures Valid() && (data == old(data) || fresh(data))
      ensures ok ==> Bytes() == Barred(old(Bytes()), begalt, fixup)
      ensures !ok ==> b + 3 > MAX_BUF_SIZE
    {
      ok := InsertJump(ON_FAILURE_JUMP, begalt, b + 6);
      if ok && fixup.Some? {
        StoreJump(JUMP_PAST_ALT, fixup.value, b);
      }
    }

    /** What a `)' puts after the last alternative, and in the jump after the earlier ones. */
    method EndAlternatives(begalt: nat, fixup: Option<nat>) returns (ok: bool)
      requires Valid() && (fixup.Some? ==> fixup.value + 3 == begalt <= b)
      modifies this, data
      ensures Valid() && (data == old(data) || fresh(data))
      ensures ok ==> Bytes() == Closed(old(Bytes()), begalt, fixup)
      ensures !ok ==> b + 3 > MAX_BUF_SIZE
    {
      hide JumpCode;
      ok := true;
      if fixup.Some? {
        ok := PushByte(PUSH_DUMMY_FAILURE);
        if !ok { return; }
        StoreJump(JUMP_PAST_ALT, fixup.value, b - 1);
      }
    }

    /** The end of group `reg', which started at laststart and has `inner' groups in it. */
    method EndGroup(laststart: nat, reg: nat, inner: nat) returns (ok: bool)
      requires Valid() && (reg <= MAX_REGNUM ==> laststart + 2 < b)
      modifies this, data
      ensures Valid() && (data == old(data) || fresh(data))
      ensures ok ==> Bytes() == CountStored(old(Bytes()), laststart, reg, inner) + MemoryCode(STOP_MEMORY, reg, inner)
      ensures !ok ==> b + 3 > MAX_BUF_SIZE
    {
      ok := true;
      if reg <= MAX_REGNUM {
        Patch(laststart + 2, inner % 256);
        ok := PushBytes([STOP_MEMORY, reg, inner % 256]);
      } else {
        assert Bytes() + [] == Bytes();
      }
    }

    /** The beginning of group `reg'. */
    method StartGroup(reg: nat) returns (ok: bool)
      requires Valid()
      modifies this, data
      ensures Valid() && (data == old(data) || fresh(data))
      ensures ok ==> Bytes() == old(Bytes()) + MemoryCode(START_MEMORY, reg, 0)
      ensures !ok ==> b + 3 > MAX_BUF_SIZE
    {
      ok := true;
      if reg <= MAX_REGNUM {
        ok := PushBytes([START_MEMORY, reg, 0]);
      } else {
        assert Bytes() + [] == Bytes();
      }
    }
  }
}
