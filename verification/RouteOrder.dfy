/** The order of a routing table's walk: lexicographic, a prefix before its extensions. */
module RouteOrder {
  import opened Wrappers
  import opened PrefixBits
  import opened RouteTrie

  predicate LessAt(x: Bits, y: Bits, k: nat) {
    Agree(x, y, k) && (if k < |x| then k < |y| && !x[k] && y[k] else k == |x| && k < |y|)
  }

  ghost predicate Less(x: Bits, y: Bits) {
    exists k: nat :: LessAt(x, y, k)
  }

  lemma LessIrreflexive(x: Bits)
    ensures !Less(x, x)
  {
  }

  lemma LessTransitive(x: Bits, y: Bits, z: Bits)
    requires Less(x, y) && Less(y, z)
    ensures Less(x, z)
  {
    var k: nat :| LessAt(x, y, k);
    var m: nat :| LessAt(y, z, m);
    assert LessAt(x, z, if k < m then k else m);
  }

  lemma LessTotal(x: Bits, y: Bits)
    ensures x == y || Less(x, y) || Less(y, x)
    decreases |x|
  {
    var k := FirstDifference(x, y, 0);
    if k < |x| && k < |y| { assert if x[k] then LessAt(y, x, k) else LessAt(x, y, k); }
    else if |x| < |y| { assert LessAt(x, y, k); }
    else if |y| < |x| { assert LessAt(y, x, k); }
  }

  function FirstDifference(x: Bits, y: Bits, k: nat): (d: nat)
    requires Agree(x, y, k)
    ensures Agree(x, y, d) && (d < |x| && d < |y| ==> x[d] != y[d])
    decreases |x| - k
  {
    if k < |x| && k < |y| && x[k] == y[k] then FirstDifference(x, y, k + 1) else k
  }

  /** A proper prefix comes first. */
  lemma PrefixLess(x: Bits, y: Bits)
    requires IsPrefix(x, y) && |x| < |y|
    ensures Less(x, y) && !Less(y, x)
  {
    assert LessAt(x, y, |x|);
  }

  /** Under one string, the 0 branch comes before the 1 branch. */
  lemma BranchLess(u: Bits, x: Bits, y: Bits)
    requires Under(u, x, false) && Under(u, y, true)
    ensures Less(x, y) && !Less(y, x)
  {
    assert LessAt(x, y, |u|);
  }

  /** What is after x but not under u, a prefix of x, is after everything under u. */
  lemma AfterAll(u: Bits, x: Bits, n: Bits, y: Bits)
    requires IsPrefix(u, x) && IsPrefix(u, y) && Less(x, n) && !IsPrefix(u, n)
    ensures Less(y, n)
  {
    var k: nat :| LessAt(x, n, k);
    assert LessAt(y, n, k);
  }

  lemma UnderChild(u: Bits, c: Bits, n: Bits, b: bool)
    requires Under(u, c, b) && IsPrefix(c, n)
    ensures Under(u, n, b)
  {
  }

  // ---------- The node after another ----------

  /** `next' is the first node after the key x. */
  ghost predicate IsNext(nodes: set<RouteNode>, x: Bits, next: RouteNode) {
    && next in nodes && Less(x, Key(next))
    && forall n :: n in nodes && Less(x, Key(n)) ==> n == next || Less(Key(next), Key(n))
  }

  /** Among the nodes below u on branch b the child there is first. */
  lemma ChildFirst(nodes: set<RouteNode>, top: RouteNode?, u: RouteNode, b: bool, n: RouteNode)
    requires Shape(nodes, top) && u in nodes && n in nodes && Under(Key(u), Key(n), b)
    ensures u.Child(b) != null && (n == u.Child(b) || Less(Key(u.Child(b)), Key(n)))
    ensures u.Child(b) in nodes && Under(Key(u), Key(u.Child(b)), b)
  {
    hide Key, Less;
    Descend(nodes, top, u, n);
    assert NodeOk(nodes, top, u);
    var c := u.Child(b);
    if |Key(c)| < |Key(n)| {
      PrefixLess(Key(c), Key(n));
    } else {
      PrefixLength(Key(c), Key(n));
      OneNodePerKey(nodes, top, c, n);
    }
  }

  /** A node with children is followed by the first of them. */
  lemma NextIsChild(nodes: set<RouteNode>, top: RouteNode?, x: RouteNode)
    requires Shape(nodes, top) && x in nodes && (x.left != null || x.right != null)
    ensures IsNext(nodes, Key(x), if x.left != null then x.left else x.right)
  {
    hide Key, Less, IsPrefix;
    assert NodeOk(nodes, top, x);
    var c := if x.left != null then x.left else x.right;
    PrefixLess(Key(x), Key(c));
    SelfPrefix(Key(x));
    forall n | n in nodes && Less(Key(x), Key(n)) ensures n == c || Less(Key(c), Key(n)) {
      if IsPrefix(Key(x), Key(n)) {
        Extension(Key(x), Key(n));
        var b := Key(n)[|Key(x)|];
        ChildFirst(nodes, top, x, b, n);
        if b && c == x.left { BranchLess(Key(x), Key(c), Key(n)); }
      } else {
        AfterAll(Key(x), Key(x), Key(n), Key(c));
      }
    }
  }

  lemma Extension(x: Bits, n: Bits)
    requires IsPrefix(x, n) && Less(x, n)
    ensures |x| < |n| && Under(x, n, n[|x|])
  {
  }

  /** Nothing after x lies under u. */
  ghost predicate Passed(nodes: set<RouteNode>, x: Bits, u: Bits) {
    forall n :: n in nodes && Less(x, Key(n)) ==> !IsPrefix(u, Key(n))
  }

  lemma LeafPassed(nodes: set<RouteNode>, top: RouteNode?, x: RouteNode)
    requires Shape(nodes, top) && x in nodes && x.left == null && x.right == null
    ensures Passed(nodes, Key(x), Key(x))
  {
    hide Key, Less;
    forall n | n in nodes && Less(Key(x), Key(n)) ensures !IsPrefix(Key(x), Key(n)) {
      if IsPrefix(Key(x), Key(n)) { Extension(Key(x), Key(n)); ChildFirst(nodes, top, x, Key(n)[|Key(x)|], n); }
    }
  }

  /** Climbing from a left child whose parent has a right child, that child is next. */
  lemma NextIsUncle(nodes: set<RouteNode>, top: RouteNode?, x: Bits, c: RouteNode)
    requires Shape(nodes, top) && c in nodes && IsPrefix(Key(c), x) && Passed(nodes, x, Key(c))
    requires c.parent != null && c.parent.left == c && c.parent.right != null
    ensures IsNext(nodes, x, c.parent.right)
  {
    hide Key, Less, IsPrefix;
    TheChild(nodes, top, c);
    var u := c.parent;
    var next := u.right;
    assert NodeOk(nodes, top, u);
    UnderChild(Key(u), Key(c), x, false);
    BranchLess(Key(u), x, Key(next));
    forall n | n in nodes && Less(x, Key(n)) ensures n == next || Less(Key(next), Key(n)) {
      if IsPrefix(Key(u), Key(n)) {
        NotAncestor(x, Key(u), Key(n));
        var b := Key(n)[|Key(u)|];
        if b { ChildFirst(nodes, top, u, true, n); } else { UnderLeft(nodes, top, u, n); }
      } else {
        AfterAll(Key(u), x, Key(n), Key(next));
      }
    }
  }

  /** What extends u and is after x, itself under u, is a proper extension of u. */
  lemma NotAncestor(x: Bits, u: Bits, n: Bits)
    requires IsPrefix(u, x) && |u| < |x| && IsPrefix(u, n) && Less(x, n)
    ensures |u| < |n| && Under(u, n, n[|u|])
  {
    if |n| == |u| { PrefixLess(n, x); }
  }

  lemma UnderLeft(nodes: set<RouteNode>, top: RouteNode?, u: RouteNode, n: RouteNode)
    requires Shape(nodes, top) && u in nodes && n in nodes && Under(Key(u), Key(n), false)
    ensures u.left != null && IsPrefix(Key(u.left), Key(n))
  {
    hide Key;
    Descend(nodes, top, u, n);
  }

  /** Otherwise there is nothing more under the parent either. */
  lemma ParentPassed(nodes: set<RouteNode>, top: RouteNode?, x: Bits, c: RouteNode)
    requires Shape(nodes, top) && c in nodes && IsPrefix(Key(c), x) && Passed(nodes, x, Key(c))
    requires c.parent != null && !(c.parent.left == c && c.parent.right != null)
    ensures Passed(nodes, x, Key(c.parent)) && IsPrefix(Key(c.parent), x)
  {
    hide Key, Less, IsPrefix;
    TheChild(nodes, top, c);
    var u := c.parent;
    assert NodeOk(nodes, top, u);
    var side := Key(c)[|Key(u)|];
    PrefixTransitive(Key(u), Key(c), x);
    PrefixLength(Key(c), x);
    forall n | n in nodes && Less(x, Key(n)) ensures !IsPrefix(Key(u), Key(n)) {
      if IsPrefix(Key(u), Key(n)) {
        NotAncestor(x, Key(u), Key(n));
        var b := Key(n)[|Key(u)|];
        ChildFirst(nodes, top, u, b, n);
        if b == side {
          Descend(nodes, top, u, n);
        } else {
          UnderChild(Key(u), Key(c), x, side);
          BranchLess(Key(u), Key(n), x);
        }
      }
    }
  }

  lemma NoneAfter(nodes: set<RouteNode>, top: RouteNode, x: Bits)
    requires Shape(nodes, top) && Passed(nodes, x, Key(top))
    ensures forall n :: n in nodes ==> !Less(x, Key(n))
  {
    hide Key, Less, IsPrefix;
    forall n | n in nodes ensures !Less(x, Key(n)) { TopCovers(nodes, top, n); }
  }
}
