/** The nodes of public/cmd/table.c and the shape they keep: a path-compressed binary trie over bit strings. */
module RouteTrie {
  import opened Wrappers
  import opened PrefixBits

  class RouteNode {
    const p: Prefix
    var left: RouteNode?      // link[0]
    var right: RouteNode?     // link[1]
    var parent: RouteNode?
    var lock: int
    var info: Option<int>     // what a caller hangs on the node; None for NULL

    constructor (p: Prefix)
      ensures this.p == p && left == null && right == null && parent == null && lock == 0 && info == None
    {
      this.p := p;
      left, right, parent, lock, info := null, null, null, 0, None;
    }

    function Child(b: bool): RouteNode?
      reads this
    {
      if b then right else left
    }
  }

  function Key(n: RouteNode): (s: Bits)
    ensures |s| == n.p.len
  {
    BitsOf(n.p)
  }

  /** y is a proper extension of x whose next bit is b. */
  predicate Under(x: Bits, y: Bits, b: bool) {
    |x| < |y| && IsPrefix(x, y) && y[|x|] == b
  }

  ghost predicate ChildOk(nodes: set<RouteNode>, n: RouteNode, b: bool)
    reads nodes, n
  {
    var c := n.Child(b);
    c != null ==> c in nodes && c.parent == n && Under(Key(n), Key(c), b)
  }

  ghost predicate ParentOk(nodes: set<RouteNode>, top: RouteNode?, n: RouteNode)
    reads nodes, n
  {
    if n.parent == null then n == top
    else n.parent in nodes && (n.parent.left == n || n.parent.right == n)
  }

  ghost predicate NodeOk(nodes: set<RouteNode>, top: RouteNode?, n: RouteNode)
    reads nodes, n
  {
    ChildOk(nodes, n, false) && ChildOk(nodes, n, true) && ParentOk(nodes, top, n)
  }

  /** Every link goes both ways and every child is under the branch its next bit names. */
  ghost predicate Shape(nodes: set<RouteNode>, top: RouteNode?)
    reads nodes
  {
    && (if top == null then nodes == {} else top in nodes && top.parent == null)
    && forall n :: n in nodes ==> NodeOk(nodes, top, n)
  }

  /** A node nobody holds is a stub: it has no data and stands where two subtrees part. */
  ghost predicate Compact(n: RouteNode)
    reads n
  {
    n.lock >= 0 && (n.lock == 0 ==> n.info == None && n.left != null && n.right != null)
  }

  // ---------- Bit strings ----------

  lemma PrefixTransitive(x: Bits, y: Bits, z: Bits)
    requires IsPrefix(x, y) && IsPrefix(y, z)
    ensures IsPrefix(x, z)
  {
  }

  /** Two prefixes of one string are comparable. */
  lemma PrefixesCompare(x: Bits, y: Bits, z: Bits)
    requires IsPrefix(x, z) && IsPrefix(y, z) && |x| <= |y|
    ensures IsPrefix(x, y) && (|x| < |y| ==> y[|x|] == z[|x|]) && (|x| == |y| ==> x == y)
  {
  }

  // ---------- What the local shape implies ----------

  lemma TheChild(nodes: set<RouteNode>, top: RouteNode?, n: RouteNode)
    requires Shape(nodes, top) && n in nodes && n.parent != null
    ensures n.parent in nodes && |Key(n.parent)| < |Key(n)| && IsPrefix(Key(n.parent), Key(n))
    ensures n.parent.Child(Key(n)[|Key(n.parent)|]) == n
  {
    assert NodeOk(nodes, top, n);
    assert NodeOk(nodes, top, n.parent);
  }

  /** The top is a prefix of everything. */
  lemma {:induction false} TopCovers(nodes: set<RouteNode>, top: RouteNode?, n: RouteNode)
    requires Shape(nodes, top) && n in nodes
    ensures top != null && IsPrefix(Key(top), Key(n)) && (n != top ==> n.parent != null)
    decreases |Key(n)|
  {
    hide Key, IsPrefix;
    assert NodeOk(nodes, top, n);
    if n.parent == null {
      SelfPrefix(Key(n));
    } else {
      TheChild(nodes, top, n);
      TopCovers(nodes, top, n.parent);
      PrefixTransitive(Key(top), Key(n.parent), Key(n));
    }
  }

  lemma SelfPrefix(x: Bits)
    ensures IsPrefix(x, x)
  {
  }

  /** n is x itself or lies in the subtree its next bit names. */
  ghost predicate Below(x: RouteNode, n: RouteNode)
    reads x
  {
    x == n || (|Key(x)| < |Key(n)| && var c := x.Child(Key(n)[|Key(x)|]); c != null && IsPrefix(Key(c), Key(n)))
  }

  /** A node that extends x in bits is found below x in the trie; so no two nodes have the same key. */
  lemma {:induction false} Descend(nodes: set<RouteNode>, top: RouteNode?, x: RouteNode, n: RouteNode)
    requires Shape(nodes, top) && x in nodes && n in nodes && IsPrefix(Key(x), Key(n))
    ensures Below(x, n)
    decreases |Key(x)| + |Key(n)|
  {
    hide Key, IsPrefix, ChildOk, ParentOk;
    TopCovers(nodes, top, x);
    TopCovers(nodes, top, n);
    PrefixLength(Key(x), Key(n));
    PrefixLength(Key(top), Key(x));
    if x != n {
      if n == top {
        TheChild(nodes, top, x);
        TopCovers(nodes, top, x.parent);
        PrefixLength(Key(top), Key(x.parent));
        assert false;
      } else {
        TheChild(nodes, top, n);
        var pn := n.parent;
        if |Key(x)| <= |Key(pn)| {
          PrefixesCompare(Key(x), Key(pn), Key(n));
          Descend(nodes, top, x, pn);
          if x != pn {
            PrefixTransitive(Key(x.Child(Key(pn)[|Key(x)|])), Key(pn), Key(n));
          } else {
            SelfPrefix(Key(n));
          }
        } else {
          BesideParent(nodes, top, x, n);
        }
      }
    }
  }

  lemma PrefixLength(x: Bits, y: Bits)
    requires IsPrefix(x, y)
    ensures |x| <= |y| && (|x| == |y| ==> x == y)
  {
  }

  /** Only n itself is longer than n's parent and a prefix of n. */
  lemma {:induction false} BesideParent(nodes: set<RouteNode>, top: RouteNode?, x: RouteNode, n: RouteNode)
    requires Shape(nodes, top) && x in nodes && n in nodes && IsPrefix(Key(x), Key(n))
    requires n.parent != null && |Key(n.parent)| < |Key(x)|
    ensures x == n
    decreases |Key(x)| + |Key(n)|, 0
  {
    hide Key, IsPrefix, ChildOk, ParentOk;
    TheChild(nodes, top, n);
    PrefixLength(Key(x), Key(n));
    var pn := n.parent;
    PrefixesCompare(Key(pn), Key(x), Key(n));
    Descend(nodes, top, pn, x);
    PrefixLength(Key(n), Key(x));
    // Now both keys are equal: x and n hang from nodes that are prefixes of the same string.
    TopCovers(nodes, top, x);
    TopCovers(nodes, top, pn);
    PrefixLength(Key(top), Key(pn));
    TheChild(nodes, top, x);
    var px := x.parent;
    if |Key(px)| <= |Key(pn)| {
      PrefixesCompare(Key(px), Key(pn), Key(n));
      Descend(nodes, top, px, pn);
      if px != pn { PrefixLength(Key(x), Key(pn)); }
    } else {
      PrefixesCompare(Key(pn), Key(px), Key(n));
      Descend(nodes, top, pn, px);
      PrefixLength(Key(n), Key(px));
    }
  }

  lemma OneNodePerKey(nodes: set<RouteNode>, top: RouteNode?, x: RouteNode, n: RouteNode)
    requires Shape(nodes, top) && x in nodes && n in nodes && Key(x) == Key(n)
    ensures x == n
  {
    SelfPrefix(Key(x));
    Descend(nodes, top, x, n);
  }
}
