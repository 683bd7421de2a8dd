/** public/cmd/table.c: the routing table as an object whose methods rewire its nodes in place. */
module RouteTables {
  import opened Wrappers
  import opened PrefixBits
  import opened RouteTrie
  import opened RouteOrder

  ghost function Only(n: RouteNode?): set<RouteNode> {
    if n == null then {} else {n}
  }

  class RouteTable {
    const width: nat              // bytes in an address
    var top: RouteNode?
    ghost var nodes: set<RouteNode>

    ghost predicate Shaped()
      reads this, nodes
    {
      Shape(nodes, top) && forall n :: n in nodes ==> WellFormed(n.p) && |n.p.bytes| == width
    }

    /** What holds between calls. */
    ghost predicate Valid()
      reads this, nodes
    {
      Shaped() && forall n :: n in nodes ==> Compact(n)
    }

    constructor (width: nat)
      ensures Valid() && nodes == {} && this.width == width
    {
      this.width := width;
      top, nodes := null, {};
    }

    /** p is an address of this table's family. */
    predicate Fits(p: Prefix) {
      WellFormed(p) && |p.bytes| == width
    }

    /** n has data and covers the key. */
    ghost predicate Candidate(n: RouteNode, key: Bits)
      reads this, n
    {
      n in nodes && n.info.Some? && IsPrefix(Key(n), key)
    }

    /** Every node that covers the key and is not yet passed is at `node' or below it. */
    ghost predicate Ahead(n: RouteNode, node: RouteNode?)
    {
      node != null && IsPrefix(Key(node), Key(n))
    }

    /** The walk of route_node_match. */
    method LongestWithData(p: Prefix) returns (matched: RouteNode?)
      requires Valid() && Fits(p)
      ensures matched == null ==> forall n :: !Candidate(n, BitsOf(p))
      ensures matched != null ==>
        Candidate(matched, BitsOf(p)) && forall n :: Candidate(n, BitsOf(p)) ==> |Key(n)| <= |Key(matched)|
    {
      hide IsPrefix, BitAt, BitsOf;
      matched := null;
      var node := top;
      ghost var key := BitsOf(p);
      forall n | n in nodes ensures Ahead(n, node) { TopCovers(nodes, top, n); }
      while node != null
        invariant node != null ==> node in nodes
        invariant matched != null ==> Candidate(matched, key) && (node != null ==> matched.p.len < node.p.len)
        invariant forall n :: Candidate(n, key) ==> Ahead(n, node) || (matched != null && |Key(n)| <= |Key(matched)|)
        decreases if node != null then p.len + 1 - node.p.len else -1
      {
        if node.p.len > p.len { LongerCannot(node, key); break; }
        var covers := PrefixMatch(node.p, p);
        if !covers { NoneAhead(node, key); break; }
        if node.info.Some? { matched := node; }
        var bit := CheckBit(p.bytes, node.p.len);
        Step(node, p, bit);
        node := node.Child(bit);
      }
    }

    /** Going down the branch the next bit of p names leaves behind no node that covers p, except the one just seen. */
    lemma Step(node: RouteNode, p: Prefix, bit: bool)
      requires Shaped() && WellFormed(p) && node in nodes && IsPrefix(Key(node), BitsOf(p))
               && bit == BitAt(p.bytes, node.p.len)
      ensures forall n :: n in nodes && IsPrefix(Key(n), BitsOf(p)) && Ahead(n, node) ==>
        n == node || Ahead(n, node.Child(bit))
      ensures node.Child(bit) != null ==> node.Child(bit) in nodes && node.p.len < node.Child(bit).p.len
    {
      assert NodeOk(nodes, top, node);
      forall n | n in nodes && Ahead(n, node) ensures Below(node, n) { Descend(nodes, top, node, n); }
    }

    lemma LongerCannot(node: RouteNode, key: Bits)
      requires |Key(node)| > |key|
      ensures forall n :: IsPrefix(Key(n), key) ==> !Ahead(n, node)
    {
    }

    /** Past a node that does not cover the key nothing covers it. */
    lemma NoneAhead(node: RouteNode, key: Bits)
      requires !IsPrefix(Key(node), key)
      ensures forall n :: IsPrefix(Key(n), key) ==> !Ahead(n, node)
    {
    }

    /** route_node_match: the longest prefix with data that covers p, locked. */
    method Match(p: Prefix) returns (matched: RouteNode?)
      requires Valid() && Fits(p)
      modifies nodes`lock
      ensures Valid()
      ensures matched == null ==> forall n :: !Candidate(n, BitsOf(p))
      ensures matched != null ==>
        && Candidate(matched, BitsOf(p)) && (forall n :: Candidate(n, BitsOf(p)) ==> |Key(n)| <= |Key(matched)|)
        && matched.lock == old(matched.lock) + 1
      ensures forall n :: n in nodes && n != matched ==> n.lock == old(n.lock)
    {
      hide IsPrefix, BitAt, BitsOf;
      matched := LongestWithData(p);
      if matched != null { LockNode(matched); }
    }

    /** route_lock_node. */
    method LockNode(node: RouteNode)
      requires Shaped() && node in nodes && node.lock >= 0
      modifies node`lock
      ensures Shaped() && node.lock == old(node.lock) + 1
      ensures (forall n :: n in nodes && n != node ==> Compact(n)) ==> Valid()
    {
      hide Key, IsPrefix;
      node.lock := node.lock + 1;
      forall n | n in nodes ensures NodeOk(nodes, top, n) { assert old(NodeOk(nodes, top, n)); }
    }

    /** The walk of route_node_lookup. */
    method EqualWithData(p: Prefix) returns (found: RouteNode?)
      requires Valid() && Fits(p)
      ensures found == null ==> forall n :: n in nodes && n.info.Some? ==> Key(n) != BitsOf(p)
      ensures found != null ==> found in nodes && found.info.Some? && Key(found) == BitsOf(p)
    {
      hide IsPrefix, BitAt, BitsOf;
      var node := top;
      ghost var key := BitsOf(p);
      forall n | n in nodes ensures Ahead(n, node) { TopCovers(nodes, top, n); }
      while node != null
        invariant node != null ==> node in nodes
        invariant forall n :: n in nodes && n.info.Some? && Key(n) == key ==> Ahead(n, node)
        decreases if node != null then p.len + 1 - node.p.len else -1
      {
        SelfPrefix(key);
        if node.p.len > p.len { LongerCannot(node, key); break; }
        var covers := PrefixMatch(node.p, p);
        if !covers { NoneAhead(node, key); break; }
        PrefixLength(Key(node), key);
        if node.p.len == p.len && node.info.Some? { return node; }
        var bit := CheckBit(p.bytes, node.p.len);
        Step(node, p, bit);
        node := node.Child(bit);
      }
      return null;
    }

    /** route_node_lookup: the node for exactly p, if it has data. */
    method Lookup(p: Prefix) returns (found: RouteNode?)
      requires Valid() && Fits(p)
      modifies nodes`lock
      ensures Valid()
      ensures found == null ==> forall n :: n in nodes && n.info.Some? ==> Key(n) != BitsOf(p)
      ensures found != null ==>
        found in nodes && found.info.Some? && Key(found) == BitsOf(p) && found.lock == old(found.lock) + 1
      ensures forall n :: n in nodes && n != found ==> n.lock == old(n.lock)
    {
      hide IsPrefix, BitAt, BitsOf;
      found := EqualWithData(p);
      if found != null { LockNode(found); }
    }

    // ---------- Adding nodes ----------

    /** A fresh node for p, not in the trie yet. */
    ghost predicate Loose(n: RouteNode)
      reads this, n
    {
      n !in nodes && Fits(n.p) && n.left == null && n.right == null && n.parent == null && n.lock == 0 && n.info == None
    }

    /** set_link. */
    method SetLink(at: RouteNode, node: RouteNode)
      requires at != node && |Key(at)| < |Key(node)|
      modifies at`left, at`right, node`parent
      ensures var bit := Key(node)[|Key(at)|]; at.Child(bit) == node && at.Child(!bit) == old(at.Child(!bit))
      ensures node.parent == at
    {
      var bit := CheckBit(node.p.bytes, at.p.len);
      if bit { at.right := node; } else { at.left := node; }
      node.parent := at;
    }

    /** Hang `node' below `at' on the branch its next bit names, or make it the top. */
    method HangLeaf(at: RouteNode?, node: RouteNode)
      requires Shaped() && Loose(node)
      requires if at == null then top == null
               else
                 && at in nodes && |Key(at)| < |Key(node)| && IsPrefix(Key(at), Key(node))
                 && at.Child(Key(node)[|Key(at)|]) == null
      modifies this`top, this`nodes, Only(at)`left, Only(at)`right, node`parent
      ensures Shaped() && nodes == old(nodes) + {node}
      ensures at != null ==>
        var bit := Key(node)[|Key(at)|]; at.Child(bit) == node && at.Child(!bit) == old(at.Child(!bit))
      ensures node.parent == at && top == if at == null then node else old(top)
      ensures forall n :: n in old(nodes) && old(Compact(n)) ==> Compact(n)
    {
      hide Key, IsPrefix, Under;
      if at != null {
        UnderIs(Key(at), Key(node));
        SetLink(at, node);
      } else {
        top := node;
      }
      nodes := nodes + {node};
      forall n | n in nodes ensures NodeOk(nodes, top, n) {
        if n != node { assert old(NodeOk(nodes, top, n)); }
      }
    }

    /** Put `mid' where `node' hangs below `at', with `node' below it. */
    method HangBetween(at: RouteNode?, node: RouteNode, mid: RouteNode)
      requires Shaped() && Loose(mid) && node in nodes && node.parent == at
      requires |Key(mid)| < |Key(node)| && IsPrefix(Key(mid), Key(node))
      requires at != null ==>
        |Key(at)| < |Key(mid)| && IsPrefix(Key(at), Key(mid)) && at.Child(Key(mid)[|Key(at)|]) == node
      modifies this`top, this`nodes, Only(at)`left, Only(at)`right, mid`left, mid`right, mid`parent, node`parent
      ensures Shaped() && nodes == old(nodes) + {mid}
      ensures var bit := Key(node)[|Key(mid)|]; mid.Child(bit) == node && mid.Child(!bit) == null
      ensures at != null ==>
        var bit := Key(mid)[|Key(at)|]; at.Child(bit) == mid && at.Child(!bit) == old(at.Child(!bit))
      ensures node.parent == mid && mid.parent == at && top == if at == null then mid else old(top)
      ensures forall n :: n in old(nodes) && old(Compact(n)) ==> Compact(n)
    {
      hide Key, IsPrefix, NodeOk, Shape;
      Rehang(at, node, mid);
    }

    /** The links of route_node_get around a node put in above another. */
    method LinkAbove(at: RouteNode?, node: RouteNode, mid: RouteNode)
      requires at != node && at != mid && mid != node && |Key(mid)| < |Key(node)|
      requires at != null ==> |Key(at)| < |Key(mid)|
      modifies this`top, this`nodes, Only(at)`left, Only(at)`right, mid`left, mid`right, mid`parent, node`parent
      ensures var bit := Key(node)[|Key(mid)|]; mid.Child(bit) == node && mid.Child(!bit) == old(mid.Child(!bit))
      ensures at != null ==>
        var bit := Key(mid)[|Key(at)|]; at.Child(bit) == mid && at.Child(!bit) == old(at.Child(!bit))
      ensures node.parent == mid && mid.parent == if at == null then old(mid.parent) else at
      ensures top == (if at == null then mid else old(top)) && nodes == old(nodes) + {mid}
    {
      hide Key;
      SetLink(mid, node);
      if at != null {
        SetLink(at, mid);
      } else {
        top := mid;
      }
      nodes := nodes + {mid};
    }

    method Rehang(at: RouteNode?, node: RouteNode, mid: RouteNode)
      requires Shaped() && Loose(mid) && node in nodes && node.parent == at
      requires |Key(mid)| < |Key(node)| && IsPrefix(Key(mid), Key(node))
      requires at != null ==>
        |Key(at)| < |Key(mid)| && IsPrefix(Key(at), Key(mid)) && at.Child(Key(mid)[|Key(at)|]) == node
      modifies this`top, this`nodes, Only(at)`left, Only(at)`right, mid`left, mid`right, mid`parent, node`parent
      ensures Shaped() && nodes == old(nodes) + {mid}
      ensures var bit := Key(node)[|Key(mid)|]; mid.Child(bit) == node && mid.Child(!bit) == null
      ensures at != null ==>
        var bit := Key(mid)[|Key(at)|];
        at in old(nodes) && at.Child(bit) == mid && at.Child(!bit) == old(at.Child(!bit))
      ensures node.parent == mid && mid.parent == at && top == if at == null then mid else old(top)
    {
      hide Key, IsPrefix, Under;
      assert NodeOk(nodes, top, node);
      UnderIs(Key(mid), Key(node));
      if at != null {
        UnderIs(Key(at), Key(mid));
        assert NodeOk(nodes, top, at);
        OtherChild(at, node, !Key(mid)[|Key(at)|]);
      }
      LinkAbove(at, node, mid);
      assert forall n :: n in old(nodes) && n != at ==> n.left == old(n.left) && n.right == old(n.right);
      assert ChildOk(nodes, mid, false) && ChildOk(nodes, mid, true);
      forall n, b | n in nodes && n != mid ensures ChildOk(nodes, n, b) {
        assert old(NodeOk(nodes, top, n));
        if n == at {
          assert at.Child(b) == mid || at.Child(b) == old(at.Child(b));
        } else {
          assert n.Child(b) == old(n.Child(b));
        }
      }
      forall n | n in nodes ensures ParentOk(nodes, top, n) {
        if n != mid { assert old(ParentOk(nodes, top, n)) by { assert old(NodeOk(nodes, top, n)); } }
      }
    }

    lemma OtherChild(at: RouteNode, node: RouteNode, b: bool)
      requires ChildOk(nodes, at, b) && ChildOk(nodes, at, !b) && at.Child(!b) == node
      ensures at.Child(b) != node
    {
    }

    static lemma UnderIs(x: Bits, y: Bits)
      requires |x| < |y| && IsPrefix(x, y)
      ensures Under(x, y, y[|x|])
    {
    }

    /** The walk of route_node_get: how far the trie goes along p. */
    method Along(p: Prefix) returns (at: RouteNode?, node: RouteNode?)
      requires Valid() && Fits(p)
      ensures at != null ==> at in nodes && IsPrefix(Key(at), BitsOf(p))
      ensures node != null ==> node in nodes && node.parent == at
      ensures if at != null && at.p.len == p.len then node == null
        else && (forall n :: n in nodes ==> Key(n) != BitsOf(p))
             && (at == null ==> node == top)
             && (at != null ==> at.p.len < p.len && node == at.Child(BitsOf(p)[at.p.len]))
             && (node != null ==> !IsPrefix(Key(node), BitsOf(p)))
    {
      hide IsPrefix, BitAt, BitsOf;
      at, node := null, top;
      ghost var key := BitsOf(p);
      SelfPrefix(key);
      forall n | n in nodes ensures Ahead(n, node) { TopCovers(nodes, top, n); }
      while node != null
        invariant at != null ==> at in nodes && IsPrefix(Key(at), key) && at.p.len < p.len
        invariant node != null ==> node in nodes && node.parent == at && (at != null ==> at.p.len < node.p.len)
        invariant node == if at == null then top else at.Child(BitsOf(p)[at.p.len])
        invariant forall n :: n in nodes && Key(n) == key ==> Ahead(n, node)
        decreases if node != null then p.len + 1 - node.p.len else -1
      {
        if node.p.len > p.len { LongerCannot(node, key); LongerNoPrefix(node, key); break; }
        var covers := PrefixMatch(node.p, p);
        if !covers { NoneAhead(node, key); break; }
        if node.p.len == p.len { return node, null; }
        at := node;
        var bit := CheckBit(p.bytes, node.p.len);
        Step(node, p, bit);
        assert NodeOk(nodes, top, node);
        assert bit == BitsOf(p)[node.p.len];
        node := node.Child(bit);
      }
    }

    lemma LongerNoPrefix(node: RouteNode, key: Bits)
      requires |Key(node)| > |key|
      ensures !IsPrefix(Key(node), key)
    {
    }

    /** The stub holds what the key of node and that of an earlier node m have in common, all of it. */
    ghost predicate Parts(stub: RouteNode, node: RouteNode, m: RouteNode) {
      && IsPrefix(Key(stub), Key(node)) && IsPrefix(Key(stub), Key(m))
      && |Key(stub)| < |Key(node)| && |Key(stub)| < |Key(m)|
      && Key(node)[|Key(stub)|] != Key(m)[|Key(stub)|]
    }

    /** route_node_get: the node for p, locked; it is added if it is not there, and with it at most one stub. */
    method Get(p: Prefix) returns (node: RouteNode)
      requires Valid() && Fits(p)
      modifies this`top, this`nodes, nodes
      ensures Valid() && node in nodes && Key(node) == BitsOf(p)
      ensures old(nodes) <= nodes && fresh(nodes - old(nodes))
      ensures forall n :: n in old(nodes) ==> n.info == old(n.info) && (n != node ==> n.lock == old(n.lock))
      ensures node in old(nodes) ==> nodes == old(nodes) && node.lock == old(node.lock) + 1
      ensures node !in old(nodes) ==>
        && node.lock == 1 && node.info == None
        && (forall n :: n in old(nodes) ==> Key(n) != BitsOf(p))
        && (|| nodes == old(nodes) + {node}
            || exists stub, m ::
              stub !in old(nodes) && nodes == old(nodes) + {node, stub} && stub.lock == 0 && stub.info == None
              && m in old(nodes) && Parts(stub, node, m))
    {
      hide IsPrefix, BitAt, BitsOf, Shape;
      var at, next := Along(p);
      if at != null && at.p.len == p.len {
        PrefixLength(Key(at), BitsOf(p));
        LockNode(at);
        return at;
      }
      if next == null {
        node := new RouteNode(p);
        HangLeaf(at, node);
      } else {
        node := GetBetween(at, next, p);
      }
      LockNode(node);
    }

    /** The part of route_node_get where a node is in the way. */
    method GetBetween(at: RouteNode?, next: RouteNode, p: Prefix) returns (node: RouteNode)
      requires Valid() && Fits(p) && next in nodes && next.parent == at && !IsPrefix(Key(next), BitsOf(p))
      requires forall n :: n in nodes ==> Key(n) != BitsOf(p)
      requires if at == null then next == top
               else
                 && at in nodes && at.p.len < p.len && IsPrefix(Key(at), BitsOf(p))
                 && next == at.Child(BitsOf(p)[at.p.len])
      modifies this`top, this`nodes, nodes`left, nodes`right, nodes`parent
      ensures Shaped() && node in nodes && fresh(node) && Key(node) == BitsOf(p) && node.lock == 0 && node.info == None
      ensures old(nodes) <= nodes && fresh(nodes - old(nodes))
      ensures forall n :: n in nodes && n != node ==> Compact(n)
      ensures || nodes == old(nodes) + {node}
              || exists stub :: fresh(stub) && nodes == old(nodes) + {node, stub} && stub.lock == 0 && stub.info == None
                                && Parts(stub, node, next)
    {
      hide IsPrefix, BitAt, BitsOf, Shape;
      var common := RouteCommon(next.p, p);
      CommonFacts(at, next, common, p);
      PrefixLength(BitsOf(common), BitsOf(p));
      var mid := new RouteNode(common);
      HangBetween(at, next, mid);
      if mid.p.len != p.len {
        node := new RouteNode(p);
        HangLeaf(mid, node);
        assert Parts(mid, node, next);
      } else {
        node := mid;
      }
    }

    /** Where the part p and next have in common lies. */
    lemma CommonFacts(at: RouteNode?, next: RouteNode, common: Prefix, p: Prefix)
      requires Shaped() && Fits(p) && next in nodes && next.parent == at && !IsPrefix(Key(next), BitsOf(p))
      requires if at == null then true
               else
                 && at in nodes && at.p.len < p.len && IsPrefix(Key(at), BitsOf(p))
                 && next == at.Child(BitsOf(p)[at.p.len])
      requires IsCommon(BitsOf(common), next.p.bytes, BitsOf(p))
      ensures var c := BitsOf(common);
              && |c| < |Key(next)| && IsPrefix(c, Key(next)) && IsPrefix(c, BitsOf(p))
              && (|c| < p.len ==> Key(next)[|c|] != BitsOf(p)[|c|])
              && (|c| == p.len ==> c == BitsOf(p))
              && (at != null ==> |Key(at)| < |c| && IsPrefix(Key(at), c) && c[|Key(at)|] == BitsOf(p)[|Key(at)|])
    {
      hide BitsOf, BitAt, IsPrefix, IsCommon;
      Parting(BitsOf(common), Key(next), next.p.bytes, BitsOf(p));
      if at != null {
        assert NodeOk(nodes, top, at);
        PartsBelow(Key(at), BitsOf(common), Key(next), BitsOf(p));
      }
    }

    /** The part in common ends inside x, before the bit in which x and z differ. */
    static lemma Parting(c: Bits, x: Bits, bytes: seq<bv8>, z: Bits)
      requires IsCommon(c, bytes, z) && !IsPrefix(x, z) && |x| <= 8 * |bytes|
      requires forall k :: 0 <= k < |x| ==> x[k] == BitAt(bytes, k)
      ensures |c| < |x| && IsPrefix(c, x) && IsPrefix(c, z) && (|c| < |z| ==> x[|c|] != z[|c|])
              && (|c| == |z| ==> c == z)
    {
      hide BitAt;
    }

    static lemma PartsBelow(a: Bits, c: Bits, x: Bits, z: Bits)
      requires |a| < |z| && IsPrefix(a, z) && Under(a, x, z[|a|])
      requires |c| < |x| && IsPrefix(c, x) && IsPrefix(c, z) && (|c| < |z| ==> x[|c|] != z[|c|])
      ensures |a| < |c| && IsPrefix(a, c) && c[|a|] == z[|a|]
    {
    }

    // ---------- Removing nodes ----------

    twostate predicate LinksKept(of: set<RouteNode>)
      reads of
    {
      forall n :: n in of ==> n.left == old(n.left) && n.right == old(n.right) && n.parent == old(n.parent)
    }

    /** Which side of its parent a node hangs on, and its only child. */
    predicate OnRight(node: RouteNode)
      reads node, node.parent
    {
      node.parent != null && node.parent.left != node
    }

    function OnlyChild(node: RouteNode): RouteNode?
      reads node
    {
      if node.left != null then node.left else node.right
    }

    /** The pointer changes of route_node_delete: the child takes the node's place. */
    method Splice(node: RouteNode)
      requires node in nodes && (node.parent != null ==> node.parent in nodes && node.parent != node)
      requires OnlyChild(node) != null ==> OnlyChild(node) in nodes
      modifies this`top, nodes`left, nodes`right, nodes`parent
      ensures var c, up, side := old(OnlyChild(node)), old(node.parent), old(OnRight(node));
              && (c != null ==> c.parent == up)
              && (forall n :: n in nodes && n != c ==> n.parent == old(n.parent))
              && (up != null ==> up.Child(side) == c && up.Child(!side) == old(up.Child(!side)))
              && (forall n :: n in nodes && n != up ==> n.left == old(n.left) && n.right == old(n.right))
              && top == (if up == null then c else old(top))
    {
      var child := if node.left != null then node.left else node.right;
      var up := node.parent;
      if child != null { child.parent := up; }
      if up != null {
        if up.left == node { up.left := child; } else { up.right := child; }
      } else {
        top := child;
      }
    }

    /** Take out a node with at most one child. */
    method Unlink(node: RouteNode)
      requires Shaped() && node in nodes && (node.left == null || node.right == null)
      modifies this`top, this`nodes, nodes`left, nodes`right, nodes`parent
      ensures Shaped() && nodes == old(nodes) - {node}
      ensures var c, up, side := old(OnlyChild(node)), old(node.parent), old(OnRight(node));
              && (up != null ==> up in nodes && up.Child(side) == c && up.Child(!side) == old(up.Child(!side)))
              && (forall n :: n in nodes && n != up ==> n.left == old(n.left) && n.right == old(n.right))
    {
      hide Key, IsPrefix, Under;
      ghost var child, up, side := OnlyChild(node), node.parent, OnRight(node);
      assert NodeOk(nodes, top, node);
      if up == null && child == null { OnlyNode(node); }
      if up != null {
        TheChild(nodes, top, node);
        OneSide(up, node, side);
        assert NodeOk(nodes, top, up);
        if child != null { UnderBoth(Key(up), Key(node), Key(child), side, node.left == null); }
      }
      Splice(node);
      nodes := nodes - {node};
      forall n, b | n in nodes ensures ChildOk(nodes, n, b) {
        assert old(NodeOk(nodes, top, n));
        if n == up && b == side {
          assert n.Child(b) == child;
        } else {
          var c := n.Child(b);
          assert c == old(n.Child(b));
          if c != null { assert old(c.parent) == n && c != node && c != child; }
        }
      }
      forall n | n in nodes ensures ParentOk(nodes, top, n) { assert old(NodeOk(nodes, top, n)); }
    }

    lemma OneSide(up: RouteNode, node: RouteNode, side: bool)
      requires Shaped() && up in nodes && up.Child(side) == node
      ensures up.Child(!side) != node
    {
      assert NodeOk(nodes, top, up);
    }

    /** The branch of a grandchild is that of the child between. */
    lemma UnderBoth(x: Bits, y: Bits, z: Bits, b: bool, c: bool)
      requires Under(x, y, b) && Under(y, z, c)
      ensures Under(x, z, b)
    {
    }

    /** A top without children is the only node. */
    lemma OnlyNode(node: RouteNode)
      requires Shaped() && node == top && node in nodes && node.left == null && node.right == null
      ensures nodes == {node}
    {
      forall n | n in nodes ensures n == node {
        TopCovers(nodes, top, n);
        Descend(nodes, top, node, n);
      }
    }

    /** route_node_delete. */
    method Delete(node: RouteNode)
      requires Shaped() && node in nodes && node.lock == 0 && node.info == None
      requires forall n :: n in nodes && n != node ==> Compact(n)
      modifies this`top, this`nodes, nodes`left, nodes`right, nodes`parent
      ensures Valid() && nodes <= old(nodes)
      ensures node in nodes <==> old(node.left) != null && old(node.right) != null
      ensures node in nodes ==> nodes == old(nodes) && LinksKept(nodes)
      ensures forall n :: n in old(nodes) && n !in nodes && n != node ==>
        n == old(node.parent) && n.lock == 0 && old(node.left) == null && old(node.right) == null
      decreases node.p.len
    {
      hide Key, IsPrefix, Under, Shape;
      if node.left != null && node.right != null { return; }
      var parent := node.parent;
      if parent != null { TheChild(nodes, top, node); StubParent(node); }
      Unlink(node);
      if parent != null && parent.lock == 0 {
        Delete(parent);
      }
    }

    /** The parent of a stub with a missing child still has two children to keep apart, so no deletion goes further
        up. */
    lemma StubParent(node: RouteNode)
      requires Shaped() && node in nodes && node.parent != null
      ensures node.parent in nodes && node.parent.Child(OnRight(node)) == node
    {
      assert NodeOk(nodes, top, node);
    }

    /** route_unlock_node. */
    method Unlock(node: RouteNode)
      requires Valid() && node in nodes && node.lock >= 1 && (node.lock == 1 ==> node.info == None)
      modifies this`top, this`nodes, nodes`left, nodes`right, nodes`parent, node`lock
      ensures Valid() && nodes <= old(nodes)
      ensures node in nodes <==> old(node.lock) > 1 || (old(node.left) != null && old(node.right) != null)
      ensures node.lock == old(node.lock) - 1
      ensures node in nodes ==> nodes == old(nodes) && LinksKept(nodes)
      ensures forall n :: n in old(nodes) && n !in nodes && n != node ==>
        n == old(node.parent) && n.lock == 0 && old(node.left) == null && old(node.right) == null
    {
      hide Shape;
      Unhold(node);
      if node.lock == 0 { Delete(node); }
    }

    method Unhold(node: RouteNode)
      requires Shaped() && node in nodes
      modifies node`lock
      ensures Shaped() && node.lock == old(node.lock) - 1
    {
      hide Key, IsPrefix, Under;
      node.lock := node.lock - 1;
      forall n | n in nodes ensures NodeOk(nodes, top, n) { assert old(NodeOk(nodes, top, n)); }
    }

    // ---------- Walking ----------

    /** The pointer walk of route_next. */
    method Successor(node: RouteNode) returns (next: RouteNode?)
      requires Shaped() && node in nodes
      ensures next != null ==> IsNext(nodes, Key(node), next)
      ensures next == null ==> forall n :: n in nodes ==> !Less(Key(node), Key(n))
    {
      hide Key, Less, IsPrefix, IsNext, Passed;
      if node.left != null || node.right != null {
        NextIsChild(nodes, top, node);
        return if node.left != null then node.left else node.right;
      }
      LeafPassed(nodes, top, node);
      var at := node;
      SelfPrefix(Key(node));
      while at.parent != null
        invariant at in nodes && IsPrefix(Key(at), Key(node)) && Passed(nodes, Key(node), Key(at))
        decreases at.p.len
      {
        TheChild(nodes, top, at);
        if at.parent.left == at && at.parent.right != null {
          NextIsUncle(nodes, top, Key(node), at);
          return at.parent.right;
        }
        ParentPassed(nodes, top, Key(node), at);
        at := at.parent;
      }
      assert NodeOk(nodes, top, at);
      NoneAfter(nodes, top, Key(node));
      return null;
    }

    /** route_top: the first node, locked. */
    method Top() returns (first: RouteNode?)
      requires Valid()
      modifies nodes`lock
      ensures Valid() && (first == null <==> nodes == {})
      ensures first != null ==>
        first in nodes && (forall n :: n in nodes ==> n == first || Less(Key(first), Key(n)))
          && first.lock == old(first.lock) + 1
      ensures forall n :: n in nodes && n != first ==> n.lock == old(n.lock)
    {
      hide Key, Less, IsPrefix;
      if top == null { return null; }
      first := top;
      forall n | n in nodes && n != first ensures Less(Key(first), Key(n)) {
        TopCovers(nodes, top, n);
        PrefixLength(Key(top), Key(n));
        if |Key(top)| == |Key(n)| { OneNodePerKey(nodes, top, top, n); } else { PrefixLess(Key(top), Key(n)); }
      }
      LockNode(first);
    }

    /** route_next: the node after `node', locked; `node' is unlocked, and may go with that. */
    method Next(node: RouteNode) returns (next: RouteNode?)
      requires Valid() && node in nodes && node.lock >= 1 && (node.lock == 1 ==> node.info == None)
      modifies this`top, this`nodes, nodes`left, nodes`right, nodes`parent, nodes`lock
      ensures Valid() && nodes <= old(nodes)
      ensures next != null ==> next in nodes && IsNext(old(nodes), Key(node), next) && next.lock == old(next.lock) + 1
      ensures next == null ==> forall n :: n in old(nodes) ==> !Less(Key(node), Key(n))
      ensures node.lock == old(node.lock) - 1
      ensures forall n :: n in old(nodes) && n != node && n != next ==> n.lock == old(n.lock)
      ensures forall n :: n in old(nodes) && n !in nodes ==> n.lock == 0 && (n == node || n == old(node.parent))
      ensures node.lock > 0 || old(node.left != null && node.right != null) ==> nodes == old(nodes) && LinksKept(nodes)
    {
      hide Key, Less, IsPrefix;
      next := Successor(node);
      if next != null {
        NotItself(Key(node), next);
        LockNode(next);
      }
      Unlock(node);
    }

    lemma NotItself(x: Bits, next: RouteNode)
      requires IsNext(nodes, x, next)
      ensures Key(next) != x
    {
      LessIrreflexive(x);
    }

    /** A caller that holds the node once more for its data drops both. */
    method Drop(node: RouteNode)
      requires Valid() && node in nodes && node.lock >= 2
      modifies node`info, node`lock
      ensures Valid() && node.info == None && node.lock == old(node.lock) - 1
    {
      hide Key, IsPrefix, Under;
      node.info := None;
      node.lock := node.lock - 1;
      forall n | n in nodes ensures NodeOk(nodes, top, n) { assert old(NodeOk(nodes, top, n)); }
    }

    /** route_next, seen from a walk that still has `todo' ahead of it. */
    method Advance(node: RouteNode, ghost todo: set<RouteNode>) returns (next: RouteNode?)
      requires Valid() && node in nodes && node.lock >= 1 && (node.lock == 1 ==> node.info == None)
      requires todo <= nodes && node !in todo && forall n :: n in todo ==> Less(Key(node), Key(n))
      modifies this`top, this`nodes, nodes`left, nodes`right, nodes`parent, nodes`lock
      ensures Valid() && nodes <= old(nodes) && todo <= nodes
      ensures next != null ==> next in nodes && Less(Key(node), Key(next)) && next.lock == old(next.lock) + 1
      ensures forall n :: n in todo ==> next != null && (n == next || Less(Key(next), Key(n)))
      ensures node.lock == old(node.lock) - 1
      ensures forall n :: n in old(nodes) && n != node && n != next ==> n.lock == old(n.lock)
      ensures forall n :: n in old(nodes) && n !in nodes ==> n.lock == 0
      ensures old(node.lock) > 1 || old(node.left != null && node.right != null) ==>
        nodes == old(nodes) && LinksKept(nodes)
    {
      hide Key, Less, Shape;
      ParentEarlier(node, todo);
      next := Next(node);
    }

    /** Neither the node nor its parent is still ahead. */
    lemma ParentEarlier(node: RouteNode, todo: set<RouteNode>)
      requires Shaped() && node in nodes && node !in todo && forall n :: n in todo ==> Less(Key(node), Key(n))
      ensures node.parent !in todo
    {
      hide Key, Less, IsPrefix;
      if node.parent != null && node.parent in todo {
        TheChild(nodes, top, node);
        PrefixLess(Key(node.parent), Key(node));
      }
    }

    lemma Later(visited: seq<RouteNode>, node: RouteNode, next: RouteNode)
      requires forall n :: n in visited ==> n == node || Less(Key(n), Key(node))
      requires Less(Key(node), Key(next))
      ensures next !in visited && forall n :: n in visited ==> Less(Key(n), Key(next))
    {
      hide Key, Less;
      forall n | n in visited ensures Less(Key(n), Key(next)) {
        if n != node { LessTransitive(Key(n), Key(node), Key(next)); }
      }
      LessIrreflexive(Key(next));
    }

    /** Each node comes before the ones visited after it. */
    ghost predicate InOrder(visited: seq<RouteNode>) {
      forall i, j :: 0 <= i < j < |visited| ==> Less(Key(visited[i]), Key(visited[j]))
    }

    /** How things stand in the middle of a walk. `was', lock0 and info0 are the nodes, locks and data at its start;
        todo are the nodes not visited yet, with the one just arrived at, which the walk holds once more, first. */
    ghost predicate Walking(was: set<RouteNode>, lock0: map<RouteNode, int>, info0: map<RouteNode, Option<int>>,
                            release: set<RouteNode>, todo: set<RouteNode>, node: RouteNode?)
      requires was <= lock0.Keys && was <= info0.Keys
      reads this, nodes, was
    {
      && Valid() && nodes <= was && todo <= nodes
      && (node != null ==> node in todo)
      && (forall n :: n in todo ==>
            && node != null && (n == node || Less(Key(node), Key(n)))
            && n.info == info0[n] && n.lock == lock0[n] + if n == node then 1 else 0)
      && (forall n :: n in was && n !in todo ==>
            && n.info == (if n in release then None else info0[n])
            && (n !in release || info0[n] == None ==> n.lock == lock0[n]))
      && (forall n :: n in was && n !in nodes ==> n.lock == 0)
      && (node != null ==> forall n :: n in nodes && n !in todo ==> Less(Key(n), Key(node)))
      && (node != null ==> node.lock >= 1 && (node.lock == 1 ==> node.info == None))
    }

    /** One round of a walk. */
    method Round(node: RouteNode, release: set<RouteNode>, ghost todo: set<RouteNode>, ghost was: set<RouteNode>,
                 ghost lock0: map<RouteNode, int>, ghost info0: map<RouteNode, Option<int>>) returns (next: RouteNode?)
      requires was <= lock0.Keys && was <= info0.Keys && Walking(was, lock0, info0, release, todo, node)
      requires forall n :: n in was && info0[n].Some? ==> lock0[n] >= 1
      modifies this`top, this`nodes, nodes
      ensures Walking(was, lock0, info0, release, todo - {node}, next) && nodes <= old(nodes)
      ensures next != null ==> Less(Key(node), Key(next))
      ensures (node !in release || info0[node] == None) && (lock0[node] == 0
              ==> old(node.left != null && node.right != null)) ==>
        nodes == old(nodes) && LinksKept(nodes)
    {
      hide Key, Less, Shape;
      ghost var later := todo - {node};
      ghost var before := nodes - todo;
      if node in release && node.info.Some? { Drop(node); }
      next := Advance(node, later);
      if next != null { After(before, node, next); }
    }

    lemma After(before: set<RouteNode>, node: RouteNode, next: RouteNode)
      requires forall n :: n in before ==> Less(Key(n), Key(node))
      requires Less(Key(node), Key(next))
      ensures next != node && next !in before && forall n :: n in before ==> Less(Key(n), Key(next))
    {
      hide Key, Less;
      forall n | n in before ensures Less(Key(n), Key(next)) { LessTransitive(Key(n), Key(node), Key(next)); }
      LessIrreflexive(Key(node));
      LessIrreflexive(Key(next));
    }

    lemma WalkStarts(was: set<RouteNode>, lock0: map<RouteNode, int>, info0: map<RouteNode, Option<int>>,
                     release: set<RouteNode>, node: RouteNode?)
      requires Valid() && nodes == was && was <= lock0.Keys && was <= info0.Keys
      requires node == null ==> nodes == {}
      requires node != null ==> node in nodes && forall n :: n in nodes ==> n == node || Less(Key(node), Key(n))
      requires forall n :: n in nodes ==> n.info == info0[n] && n.lock == lock0[n] + if n == node then 1 else 0
      requires forall n :: n in was && info0[n].Some? ==> lock0[n] >= 1
      requires forall n :: n in was ==> lock0[n] >= 0
      ensures Walking(was, lock0, info0, release, nodes, node)
    {
    }

    lemma WalkAt(was: set<RouteNode>, lock0: map<RouteNode, int>, info0: map<RouteNode, Option<int>>,
                 release: set<RouteNode>, todo: set<RouteNode>, node: RouteNode?)
      requires was <= lock0.Keys && was <= info0.Keys && Walking(was, lock0, info0, release, todo, node)
      ensures node != null ==> node in todo && node in nodes
      ensures node == null ==> todo == {} && Valid()
      ensures node == null ==> forall n :: n in was ==>
        && n.info == (if n in release then None else info0[n])
        && (n !in release || info0[n] == None ==> n.lock == lock0[n])
        && (n !in nodes ==> n.lock == 0)
      ensures nodes <= was && todo <= nodes
    {
    }

    lemma HeldData()
      requires Valid()
      ensures forall n :: n in nodes ==> n.lock >= 0 && (n.info.Some? ==> n.lock >= 1)
      ensures forall n :: n in nodes && n.lock == 0 ==> n.left != null && n.right != null
    {
    }

    lemma NoOrder()
      ensures InOrder([])
    {
    }

    lemma OrderMore(visited: seq<RouteNode>, node: RouteNode)
      requires InOrder(visited) && forall n :: n in visited ==> Less(Key(n), Key(node))
      ensures InOrder(visited + [node])
    {
      hide Key, Less;
    }

    /** A whole walk by route_top and route_next, during which the caller drops its data, and the lock it holds for it,
        from the nodes in `release' as it comes by. Every node there was at the start is visited exactly once, in
        order. If nothing is dropped, nothing has changed in the end. */
    method Walk(release: set<RouteNode>) returns (visited: seq<RouteNode>)
      requires Valid()
      modifies this`top, this`nodes, nodes
      ensures Valid() && nodes <= old(nodes)
      ensures InOrder(visited) && forall n :: n in visited <==> n in old(nodes)
      ensures forall n :: n in old(nodes) ==> n.info == if n in release then None else old(n.info)
      ensures forall n :: n in old(nodes) && n !in nodes ==> n.lock == 0
      ensures forall n :: n in old(nodes) && (n !in release || old(n.info) == None) ==> n.lock == old(n.lock)
      ensures release !! old(nodes) ==> nodes == old(nodes) && LinksKept(nodes)
    {
      hide Key, Less, Shape, Walking, InOrder, Valid, Compact;
      assert InOrder([]) by { NoOrder(); }
      HeldData();
      ghost var was := nodes;
      ghost var lock0 := map n | n in nodes :: n.lock;
      ghost var info0 := map n | n in nodes :: n.info;
      visited := [];
      var node := Top();
      ghost var todo := nodes;
      WalkStarts(was, lock0, info0, release, node);
      while node != null
        invariant nodes <= was && todo <= was && Walking(was, lock0, info0, release, todo, node)
        invariant InOrder(visited) && (forall n :: n in visited <==> n in was - todo)
        invariant node != null ==> node in todo && forall n :: n in visited ==> Less(Key(n), Key(node))
        invariant release !! was ==> nodes == was && LinksKept(was)
        decreases todo
      {
        OrderMore(visited, node);
        visited := visited + [node];
        ghost var at := node;
        WalkAt(was, lock0, info0, release, todo, node);
        node := Round(node, release, todo, was, lock0, info0);
        todo := todo - {at};
        if node != null { Later(visited, at, node); }
        WalkAt(was, lock0, info0, release, todo, node);
      }
      WalkAt(was, lock0, info0, release, todo, node);
    }

    /** route_table_free: every node is freed, exactly once, and none is looked at after that. The nodes of the table
        are the ones not freed yet. */
    method Free() returns (freed: seq<RouteNode>)
      requires Shaped()
      modifies this`top, this`nodes, nodes`left, nodes`right, nodes`parent
      ensures nodes == {} && (forall n :: n in freed <==> n in old(nodes)) && |freed| == |old(nodes)|
    {
      hide Key, Shape;
      freed := [];
      var node := top;
      NonEmpty();
      while node != null
        invariant Shaped() && nodes <= old(nodes) && (node != null ==> node in nodes) && (node == null ==> nodes == {})
        invariant forall n :: n in freed <==> n in old(nodes) - nodes
        invariant |freed| + |nodes| == |old(nodes)|
        decreases nodes, if node != null then 8 * width - node.p.len else -1
      {
        ChildrenIn(node);
        if node.left != null {
          node := node.left;
        } else if node.right != null {
          node := node.right;
        } else {
          var tmp := node;
          node := node.parent;
          if node == null { OnlyNode(tmp); }
          Unlink(tmp);
          freed := freed + [tmp];
        }
      }
    }

    lemma NonEmpty()
      requires Shaped()
      ensures if top == null then nodes == {} else top in nodes
    {
    }

    lemma ChildrenIn(node: RouteNode)
      requires Shaped() && node in nodes
      ensures node.p.len <= 8 * width
      ensures node.left != null ==> node.left in nodes && node.left.p.len > node.p.len && node.left.p.len <= 8 * width
      ensures node.right != null ==>
        node.right in nodes && node.right.p.len > node.p.len && node.right.p.len <= 8 * width
      ensures if node.parent == null then node == top else node.parent in nodes && node.parent != node
    {
      assert NodeOk(nodes, top, node);
      if node.parent != null { TheChild(nodes, top, node); }
    }

    // ---------- Counting ----------

    ghost function Stubs(): set<RouteNode>
      reads this, nodes
    {
      set n | n in nodes && n.lock == 0
    }

    ghost function Held(): set<RouteNode>
      reads this, nodes
    {
      set n | n in nodes && n.lock > 0
    }

    ghost function Children(of: set<RouteNode>, b: bool): set<RouteNode>
      requires forall n :: n in of ==> n.Child(b) != null
      reads of
    {
      set n | n in of :: var c: RouteNode := n.Child(b); c
    }

    /** Distinct nodes have distinct children. */
    lemma {:induction false} CountChildren(of: set<RouteNode>, b: bool)
      requires Shaped() && of <= nodes && forall n :: n in of ==> n.Child(b) != null
      ensures |Children(of, b)| == |of|
      ensures forall c :: c in Children(of, b) ==> c in nodes && c.parent in of && c.parent.Child(b) == c
      decreases of
    {
      hide Key, Under;
      if of != {} {
        var x :| x in of;
        var rest := of - {x};
        CountChildren(rest, b);
        assert NodeOk(nodes, top, x);
        var c: RouteNode := x.Child(b);
        assert c !in Children(rest, b);
        assert Children(of, b) == Children(rest, b) + {c};
      }
    }

    /** There are fewer stubs than nodes somebody holds. */
    lemma StubsFewer()
      requires Valid() && nodes != {}
      ensures |Stubs()| < |Held()|
    {
      hide Key, Under;
      var stubs := Stubs();
      CountChildren(stubs, false);
      CountChildren(stubs, true);
      var lefts, rights := Children(stubs, false), Children(stubs, true);
      forall c | c in lefts && c in rights ensures false { OneSide(c.parent, c, false); }
      assert lefts !! rights;
      assert lefts + rights <= nodes - {top};
      Sizes(lefts, rights, nodes, top);
      assert nodes == stubs + Held() && stubs !! Held();
    }

    lemma Sizes(x: set<RouteNode>, y: set<RouteNode>, all: set<RouteNode>, t: RouteNode)
      requires x !! y && x + y <= all - {t} && t in all
      ensures |x| + |y| < |all|
    {
      assert |x + y| == |x| + |y|;
      Subset(x + y, all - {t});
    }

    lemma {:induction false} Subset(x: set<RouteNode>, y: set<RouteNode>)
      requires x <= y
      ensures |x| <= |y|
      decreases x
    {
      if x != {} {
        var e :| e in x;
        Subset(x - {e}, y - {e});
      }
    }
  }
}
