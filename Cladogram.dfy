/**
 * The cladogram layout engine of `assignment4/model/Cladogram.java`.
 *
 * Policy A (equal leaf depth) walks the tree in post-order: a leaf gets
 * x = maxDepth and y = the value of a leaf counter that then goes up by one;
 * an internal node gets x = (least x of its children) - 1 and y = the mean of
 * its children's y. Policy B (uniform edge length) runs the same pass and
 * then a pre-order pass that overwrites x with the depth from the root.
 *
 * Coordinates are reals; the result maps the path of each node to its point.
 */
module Cladogram {
  import opened Wrappers
  import opened Trees
  import opened Geometry

  type Layout = map<Path, Point>

  // ---------------------------------------------------------------------
  // Policy A as functions of the tree

  /** The leaf counter's value when child `i` of `t` is entered, if it was `start` at `t`. */
  function ChildStart<T>(t: Tree<T>, start: nat, i: nat): nat
    requires i <= |t.children|
  {
    start + LeavesBefore(t, i)
  }

  /** The point policy A gives the root of `t` when the leaf counter starts at `start`. */
  function NodePoint<T>(t: Tree<T>, start: nat, maxDepth: int): Point
    decreases t, 1
  {
    if t.children == [] then Point(maxDepth as real, start as real)
    else
      var pts := ChildPoints(t, start, maxDepth);
      Point(MinOf(Xs(pts)) - 1.0, SumOf(Ys(pts)) / (|pts| as real))
  }

  /** The points of the children of `t`, left to right. */
  function ChildPoints<T>(t: Tree<T>, start: nat, maxDepth: int): (pts: seq<Point>)
    ensures |pts| == |t.children|
    decreases t, 0
  {
    seq(|t.children|, i requires 0 <= i < |t.children| => NodePoint(t.children[i], ChildStart(t, start, i), maxDepth))
  }

  /** The entries policy A writes for the subtree `t` placed at `path`. */
  function LayoutOf<T>(t: Tree<T>, path: Path, start: nat, maxDepth: int): Layout
    decreases t, |t.children| + 1
  {
    ChildrenLayout(t, path, start, maxDepth, |t.children|)[path := NodePoint(t, start, maxDepth)]
  }

  /** The entries written for the subtrees of the first `k` children. */
  function ChildrenLayout<T>(t: Tree<T>, path: Path, start: nat, maxDepth: int, k: nat): Layout
    requires k <= |t.children|
    decreases t, k
  {
    if k == 0 then map[]
    else
      ChildrenLayout(t, path, start, maxDepth, k - 1)
        + LayoutOf(t.children[k - 1], path + [k - 1], ChildStart(t, start, k - 1), maxDepth)
  }

  /** `layoutEqualLeafDepth(root)`. */
  function EqualLeafDepth<T>(root: Tree<T>): Layout
  {
    LayoutOf(root, [], 0, Height(root))
  }

  /** `layoutUniformEdgeLength(root)`: the same y values, x replaced by the depth. */
  function UniformEdgeLength<T>(root: Tree<T>): Layout
  {
    var a := EqualLeafDepth(root);
    map q | q in a :: Point(|q| as real, a[q].y)
  }

  // ---------------------------------------------------------------------
  // Where the entries are

  /** The number of leaves met before the node at path `q` in left-to-right order. */
  function LeavesBeforePath<T>(t: Tree<T>, q: Path): nat
    requires IsNodePath(t, q)
    decreases |q|
  {
    if q == [] then 0 else LeavesBefore(t, q[0]) + LeavesBeforePath(t.children[q[0]], q[1..])
  }

  /** The point policy A gives the node at path `q` of `t`. */
  function SubtreePoint<T>(t: Tree<T>, start: nat, maxDepth: int, q: Path): Point
    requires IsNodePath(t, q)
  {
    NodePoint(At(t, q).value, start + LeavesBeforePath(t, q), maxDepth)
  }

  lemma SubtreePointCons<T>(t: Tree<T>, start: nat, maxDepth: int, i: nat, r: Path)
    requires i < |t.children| && IsNodePath(t.children[i], r)
    ensures IsNodePath(t, [i] + r)
    ensures SubtreePoint(t, start, maxDepth, [i] + r) == SubtreePoint(t.children[i], ChildStart(t, start, i), maxDepth, r)
  {
    AtCons(t, i, r);
    assert ([i] + r)[1..] == r;
  }

  /** Policy A writes exactly one entry per node below `path`, holding that node's point. */
  lemma {:induction false} LayoutOfEntries<T>(t: Tree<T>, path: Path, start: nat, maxDepth: int, q: Path)
    ensures q in LayoutOf(t, path, start, maxDepth) <==> Below(t, path, q)
    ensures Below(t, path, q) ==>
      LayoutOf(t, path, start, maxDepth)[q] == SubtreePoint(t, start, maxDepth, q[|path|..])
    decreases t, |t.children| + 1
  {
    ChildrenLayoutEntries(t, path, start, maxDepth, |t.children|, q);
    if q == path {
      assert q[|path|..] == [];
    } else if Below(t, path, q) {
      var r := q[|path|..];
      assert r != [] && r[0] == q[|path|];
    }
  }

  lemma {:induction false} ChildrenLayoutEntries<T>(t: Tree<T>, path: Path, start: nat, maxDepth: int, k: nat, q: Path)
    requires k <= |t.children|
    ensures q in ChildrenLayout(t, path, start, maxDepth, k) <==>
      (|path| < |q| && q[..|path|] == path && q[|path|] < k && Below(t, path, q))
    ensures (|path| < |q| && q[..|path|] == path && q[|path|] < k && Below(t, path, q)) ==>
      ChildrenLayout(t, path, start, maxDepth, k)[q] == SubtreePoint(t, start, maxDepth, q[|path|..])
    decreases t, k
  {
    if k > 0 {
      var c := t.children[k - 1];
      ChildrenLayoutEntries(t, path, start, maxDepth, k - 1, q);
      LayoutOfEntries(c, path + [k - 1], ChildStart(t, start, k - 1), maxDepth, q);
      BelowChild(t, path, k - 1, q);
      if |path| < |q| && q[..|path|] == path && q[|path|] == k - 1 && Below(t, path, q) {
        var r := q[|path| + 1..];
        assert q[|path|..] == [k - 1] + r;
        assert q[|path + [k - 1]|..] == r;
        SubtreePointCons(t, start, maxDepth, k - 1, r);
      }
    }
  }

  /** One more child laid out extends the children's entries by that child's subtree. */
  lemma ChildrenLayoutStep<T>(t: Tree<T>, path: Path, start: nat, maxDepth: int, i: nat, before: Layout)
    requires i < |t.children|
    ensures ChildStart(t, start, i) + Leaves(t.children[i]) == ChildStart(t, start, i + 1)
    ensures before + ChildrenLayout(t, path, start, maxDepth, i)
              + LayoutOf(t.children[i], path + [i], ChildStart(t, start, i), maxDepth)
            == before + ChildrenLayout(t, path, start, maxDepth, i + 1)
  {
  }

  /** After the children are laid out, child `j`'s entry holds its point. */
  lemma ChildEntry<T>(t: Tree<T>, path: Path, start: nat, maxDepth: int, j: nat)
    requires j < |t.children|
    ensures path + [j] in ChildrenLayout(t, path, start, maxDepth, |t.children|)
    ensures ChildrenLayout(t, path, start, maxDepth, |t.children|)[path + [j]]
      == NodePoint(t.children[j], ChildStart(t, start, j), maxDepth)
  {
    var q := path + [j];
    assert q[..|path|] == path && q[|path|] == j;
    assert q[|path|..] == [j] + [];
    AtCons(t, j, []);
    assert Below(t, path, q);
    ChildrenLayoutEntries(t, path, start, maxDepth, |t.children|, q);
    SubtreePointCons(t, start, maxDepth, j, []);
  }

  /** The children's entries of a layout, read back in child order. */
  function GatherChildPoints(m: Layout, path: Path, n: nat): (pts: seq<Point>)
    requires forall j :: 0 <= j < n ==> path + [j] in m
    ensures |pts| == n
  {
    seq(n, j requires 0 <= j < n => m[path + [j]])
  }

  /** Once every child is laid out, each child's entry holds its point. */
  lemma ChildPointsInLayout<T>(t: Tree<T>, path: Path, start: nat, maxDepth: int, before: Layout, m: Layout)
    requires m == before + ChildrenLayout(t, path, start, maxDepth, |t.children|)
    ensures forall j :: 0 <= j < |t.children| ==> path + [j] in m
    ensures GatherChildPoints(m, path, |t.children|) == ChildPoints(t, start, maxDepth)
  {
    forall j | 0 <= j < |t.children|
      ensures path + [j] in m && m[path + [j]] == ChildPoints(t, start, maxDepth)[j]
    {
      ChildEntry(t, path, start, maxDepth, j);
    }
  }

  /** Writing the node's own entry last completes its subtree's entries. */
  lemma NodeLayout<T>(t: Tree<T>, path: Path, start: nat, maxDepth: int, before: Layout, pts: seq<Point>)
    requires t.children != [] && pts == ChildPoints(t, start, maxDepth)
    ensures (before + ChildrenLayout(t, path, start, maxDepth, |t.children|))
              [path := Point(MinOf(Xs(pts)) - 1.0, SumOf(Ys(pts)) / (|t.children| as real))]
            == before + LayoutOf(t, path, start, maxDepth)
  {
  }

  // ---------------------------------------------------------------------
  // The imperative passes

  /** The `HashMap` and the one-element `int[]` leaf counter the passes share. */
  class LayoutPass {
    var points: Layout
    var leafCounter: nat

    constructor ()
      ensures points == map[] && leafCounter == 0
    {
      points := map[];
      leafCounter := 0;
    }

    /** `layoutEqualLeafDepthRecursive`. */
    method EqualLeafDepthRecursive<T>(node: Tree<T>, path: Path, maxDepth: int)
      modifies this
      ensures leafCounter == old(leafCounter) + Leaves(node)
      ensures points == old(points) + LayoutOf(node, path, old(leafCounter), maxDepth)
      decreases node
    {
      var children := node.children;
      if children == [] {
        points := points[path := Point(maxDepth as real, leafCounter as real)];
        leafCounter := leafCounter + 1;
      } else {
        var start := leafCounter;
        ghost var before := points;
        var i := 0;
        while i < |children|
          invariant 0 <= i <= |children|
          invariant leafCounter == ChildStart(node, start, i)
          invariant points == before + ChildrenLayout(node, path, start, maxDepth, i)
        {
          EqualLeafDepthRecursive(children[i], path + [i], maxDepth);
          ChildrenLayoutStep(node, path, start, maxDepth, i, before);
          i := i + 1;
        }
        WriteInternalPoint(node, path, start, maxDepth, before);
      }
    }

    /** The tail of `layoutEqualLeafDepthRecursive` for an internal node, once its children are placed. */
    method WriteInternalPoint<T>(node: Tree<T>, path: Path, start: nat, maxDepth: int, ghost before: Layout)
      requires node.children != []
      requires points == before + ChildrenLayout(node, path, start, maxDepth, |node.children|)
      modifies this
      ensures leafCounter == old(leafCounter)
      ensures points == before + LayoutOf(node, path, start, maxDepth)
    {
      ChildPointsInLayout(node, path, start, maxDepth, before, points);
      var n := |node.children|;
      var pts := GatherChildPoints(points, path, n);
      NodeLayout(node, path, start, maxDepth, before, pts);
      var minX := MinOf(Xs(pts));
      var avgY := SumOf(Ys(pts)) / (n as real);
      points := points[path := Point(minX - 1.0, avgY)];
    }

    /** `layoutUniformEdgeXRecursive`: overwrites x with the depth, keeps y. */
    method UniformEdgeXRecursive<T>(node: Tree<T>, path: Path, x: int)
      requires forall q :: Below(node, path, q) ==> q in points
      modifies this
      ensures leafCounter == old(leafCounter)
      ensures points.Keys == old(points).Keys
      ensures forall q :: q in points ==>
                points[q] == (if Below(node, path, q) then Point((x + |q| - |path|) as real, old(points)[q].y) else old(points)[q])
      decreases node
    {
      assert path[..|path|] == path && path[|path|..] == [];
      var old_ := points[path];
      points := points[path := Point(x as real, old_.y)];
      var i := 0;
      while i < |node.children|
        invariant 0 <= i <= |node.children|
        invariant leafCounter == old(leafCounter)
        invariant points.Keys == old(points).Keys
        invariant forall q :: q in points ==>
                    points[q] == (if q == path || (|path| < |q| && q[..|path|] == path && q[|path|] < i && Below(node, path, q))
                                  then Point((x + |q| - |path|) as real, old(points)[q].y) else old(points)[q])
      {
        forall q | Below(node.children[i], path + [i], q) ensures q in points {
          BelowChild(node, path, i, q);
        }
        ghost var mid := points;
        UniformEdgeXRecursive(node.children[i], path + [i], x + 1);
        forall q | q in points
          ensures points[q] ==
            if q == path || (|path| < |q| && q[..|path|] == path && q[|path|] < i + 1 && Below(node, path, q))
            then Point((x + |q| - |path|) as real, old(points)[q].y) else old(points)[q]
        {
          BelowChild(node, path, i, q);
        }
        i := i + 1;
      }
      forall q | q in points
        ensures Below(node, path, q) <==>
          (q == path || (|path| < |q| && q[..|path|] == path && q[|path|] < |node.children| && Below(node, path, q)))
      {
        if Below(node, path, q) && q != path {
          var r := q[|path|..];
          assert r != [] && r[0] == q[|path|];
        }
      }
    }
  }

  /** `layoutEqualLeafDepth`. */
  method LayoutEqualLeafDepth<T>(root: Tree<T>) returns (layout: Layout)
    ensures layout == EqualLeafDepth(root)
  {
    var pass := new LayoutPass();
    var maxDepth := Height(root);
    pass.EqualLeafDepthRecursive(root, [], maxDepth);
    layout := pass.points;
  }

  /** `layoutUniformEdgeLength`. */
  method LayoutUniformEdgeLength<T>(root: Tree<T>) returns (layout: Layout)
    ensures layout == UniformEdgeLength(root)
  {
    var pass := new LayoutPass();
    var maxDepth := Height(root);
    pass.EqualLeafDepthRecursive(root, [], maxDepth);
    forall q | Below(root, [], q) ensures q in pass.points {
      LayoutOfEntries(root, [], 0, maxDepth, q);
    }
    pass.UniformEdgeXRecursive(root, [], 0);
    layout := pass.points;
    forall q | q in layout ensures Below(root, [], q) {
      LayoutOfEntries(root, [], 0, maxDepth, q);
    }
  }

  // ---------------------------------------------------------------------
  // What the layouts promise

  /** Under policy A a node sits `Height` columns left of the leaves: x = maxDepth - Height. */
  lemma {:induction false} NodePointX<T>(t: Tree<T>, start: nat, maxDepth: int)
    ensures NodePoint(t, start, maxDepth).x == (maxDepth - Height(t)) as real
    decreases t
  {
    if t.children != [] {
      var xs := Xs(ChildPoints(t, start, maxDepth));
      forall i | 0 <= i < |t.children|
        ensures xs[i] == (maxDepth - Height(t.children[i])) as real
      {
        NodePointX(t.children[i], ChildStart(t, start, i), maxDepth);
      }
      MinOfBounds(xs);
      HeightOfChildren(t);
      var m :| 0 <= m < |xs| && MinOf(xs) == xs[m];
      var j :| 0 <= j < |t.children| && Height(t) == Height(t.children[j]) + 1;
      assert MinOf(xs) <= xs[j];
      assert Height(t.children[m]) + 1 == Height(t);
    }
  }

  /** The leaves of child `i` are numbered within those of its parent. */
  lemma ChildStartRange<T>(t: Tree<T>, start: nat, i: nat)
    requires i < |t.children|
    ensures start <= ChildStart(t, start, i)
    ensures ChildStart(t, start, i) + Leaves(t.children[i]) <= start + Leaves(t)
  {
    LeavesBeforeMonotone(t, i + 1, |t.children|);
  }

  /** Under policy A a leaf at counter value `start` gets y = start, and every node a y within its leaves' range. */
  lemma {:induction false} NodePointY<T>(t: Tree<T>, start: nat, maxDepth: int)
    ensures t.children == [] ==> NodePoint(t, start, maxDepth).y == start as real
    ensures start as real <= NodePoint(t, start, maxDepth).y <= (start + Leaves(t) - 1) as real
    decreases t, 1
  {
    LeavesPositive(t);
    if t.children != [] {
      var pts := ChildPoints(t, start, maxDepth);
      var lo, hi := start as real, (start + Leaves(t) - 1) as real;
      forall i | 0 <= i < |t.children|
        ensures lo <= ChildPoints(t, start, maxDepth)[i].y <= hi
      {
        ChildPointY(t, start, maxDepth, i);
      }
      MeanOfChildren(t, start, maxDepth, lo, hi);
    }
  }

  /** An internal node's y is the mean of its children's, so it lies in any range that holds theirs. */
  lemma MeanOfChildren<T>(t: Tree<T>, start: nat, maxDepth: int, lo: real, hi: real)
    requires t.children != []
    requires forall i :: 0 <= i < |t.children| ==> lo <= ChildPoints(t, start, maxDepth)[i].y <= hi
    ensures lo <= NodePoint(t, start, maxDepth).y <= hi
  {
    var ys := Ys(ChildPoints(t, start, maxDepth));
    SumOfBounds(ys, lo, hi);
    MeanBounds(SumOf(ys), |ys| as real, lo, hi);
  }

  /** Child `i`'s y lies within its parent's leaf range. */
  lemma {:induction false} ChildPointY<T>(t: Tree<T>, start: nat, maxDepth: int, i: nat)
    requires i < |t.children|
    ensures start as real <= ChildPoints(t, start, maxDepth)[i].y <= (start + Leaves(t) - 1) as real
    decreases t, 0
  {
    NodePointY(t.children[i], ChildStart(t, start, i), maxDepth);
    ChildStartRange(t, start, i);
  }

  /** An internal node lies strictly left of each of its children, by one column for the deepest. */
  lemma ParentLeftOfChildren<T>(t: Tree<T>, start: nat, maxDepth: int, i: nat)
    requires i < |t.children|
    ensures NodePoint(t, start, maxDepth).x < NodePoint(t.children[i], ChildStart(t, start, i), maxDepth).x
    ensures NodePoint(t, start, maxDepth).x == MinOf(Xs(ChildPoints(t, start, maxDepth))) - 1.0
  {
    NodePointX(t, start, maxDepth);
    NodePointX(t.children[i], ChildStart(t, start, i), maxDepth);
    HeightOfChildren(t);
  }

  /** `layoutEqualLeafDepth`: one entry per node; leaves aligned at x = maxDepth, root at x = 0. */
  lemma EqualLeafDepthShape<T>(root: Tree<T>, q: Path)
    ensures q in EqualLeafDepth(root) <==> IsNodePath(root, q)
    ensures IsNodePath(root, q) ==>
      EqualLeafDepth(root)[q].x == (Height(root) - Height(At(root, q).value)) as real
    ensures [] in EqualLeafDepth(root) && EqualLeafDepth(root)[[]].x == 0.0
  {
    assert q[..0] == [] && q[0..] == q;
    var nil: Path := [];
    assert nil[..0] == [] && nil[0..] == [];
    LayoutOfEntries(root, [], 0, Height(root), q);
    LayoutOfEntries(root, [], 0, Height(root), []);
    NodePointX(root, 0, Height(root));
    if IsNodePath(root, q) {
      NodePointX(At(root, q).value, LeavesBeforePath(root, q), Height(root));
    }
  }

  /** Leaves before the node at `q`, plus the node's own leaves, stay within the tree's leaves. */
  lemma {:induction false} LeavesBeforePathBound<T>(t: Tree<T>, q: Path)
    requires IsNodePath(t, q)
    ensures LeavesBeforePath(t, q) + Leaves(At(t, q).value) <= Leaves(t)
    decreases |q|
  {
    if q != [] {
      var i := q[0];
      LeavesBeforePathBound(t.children[i], q[1..]);
      LeavesBeforeMonotone(t, i + 1, |t.children|);
    }
  }

  /** `layoutEqualLeafDepth`: the y of each node lies within [0, leaves - 1], and a leaf's y is the
      number of leaves left of it. */
  lemma EqualLeafDepthY<T>(root: Tree<T>, q: Path)
    requires IsNodePath(root, q)
    ensures q in EqualLeafDepth(root)
    ensures 0.0 <= EqualLeafDepth(root)[q].y <= (Leaves(root) - 1) as real
    ensures IsLeaf(At(root, q).value) ==> EqualLeafDepth(root)[q].y == LeavesBeforePath(root, q) as real
  {
    assert q[..0] == [] && q[0..] == q;
    LayoutOfEntries(root, [], 0, Height(root), q);
    NodePointY(At(root, q).value, LeavesBeforePath(root, q), Height(root));
    LeavesBeforePathBound(root, q);
  }

  /** Every leaf at or below `p` comes before every node at `q` when `p` is left of `q`. */
  lemma {:induction false} LeftOfLeavesBefore<T>(t: Tree<T>, p: Path, q: Path)
    requires IsNodePath(t, p) && IsNodePath(t, q) && LeftOf(p, q)
    ensures LeavesBeforePath(t, p) + Leaves(At(t, p).value) <= LeavesBeforePath(t, q)
    decreases |p|
  {
    var i, j := p[0], q[0];
    if i == j && LeftOf(p[1..], q[1..]) {
      LeftOfLeavesBefore(t.children[i], p[1..], q[1..]);
    } else {
      LeavesBeforePathBound(t.children[i], p[1..]);
      LeavesBeforeMonotone(t, i + 1, j);
    }
  }

  /** Two different leaves have different leaf counts before them. */
  lemma {:induction false} LeavesBeforeLeafInjective<T>(t: Tree<T>, p: Path, q: Path)
    requires IsNodePath(t, p) && IsNodePath(t, q)
    requires IsLeaf(At(t, p).value) && IsLeaf(At(t, q).value) && p != q
    ensures LeavesBeforePath(t, p) != LeavesBeforePath(t, q)
    decreases |p|
  {
    if p == [] || q == [] {
      // The root is a leaf only in a one-node tree, whose one path is [].
      assert false;
    } else if p[0] == q[0] {
      assert p == [p[0]] + p[1..] && q == [q[0]] + q[1..];
      LeavesBeforeLeafInjective(t.children[p[0]], p[1..], q[1..]);
    } else if p[0] < q[0] {
      LeftOfLeavesBefore(t, p, q);
      LeavesPositive(At(t, p).value);
    } else {
      LeftOfLeavesBefore(t, q, p);
      LeavesPositive(At(t, q).value);
    }
  }

  /**
   * `layoutEqualLeafDepth` numbers the leaves 0, 1, 2, … from left to right:
   * different leaves get different ys, and a leaf left of another gets the
   * smaller y.
   */
  lemma EqualLeafDepthLeafOrder<T>(root: Tree<T>, p: Path, q: Path)
    requires IsNodePath(root, p) && IsNodePath(root, q)
    requires IsLeaf(At(root, p).value) && IsLeaf(At(root, q).value)
    ensures p in EqualLeafDepth(root) && q in EqualLeafDepth(root)
    ensures p != q ==> EqualLeafDepth(root)[p].y != EqualLeafDepth(root)[q].y
    ensures LeftOf(p, q) ==> EqualLeafDepth(root)[p].y < EqualLeafDepth(root)[q].y
  {
    EqualLeafDepthY(root, p);
    EqualLeafDepthY(root, q);
    if p != q {
      LeavesBeforeLeafInjective(root, p, q);
    }
    if LeftOf(p, q) {
      LeftOfLeavesBefore(root, p, q);
      LeavesPositive(At(root, p).value);
    }
  }

  /** `layoutUniformEdgeLength`: the same nodes and y values; x is the depth, so the root is at 0
      and each child one column right of its parent. */
  lemma UniformEdgeLengthShape<T>(root: Tree<T>, q: Path, i: nat)
    ensures q in UniformEdgeLength(root) <==> IsNodePath(root, q)
    ensures IsNodePath(root, q) ==>
      UniformEdgeLength(root)[q] == Point(|q| as real, EqualLeafDepth(root)[q].y)
    ensures IsNodePath(root, q + [i]) ==>
      q in UniformEdgeLength(root) && q + [i] in UniformEdgeLength(root) &&
      UniformEdgeLength(root)[q + [i]].x == UniformEdgeLength(root)[q].x + 1.0
  {
    EqualLeafDepthShape(root, q);
    EqualLeafDepthShape(root, q + [i]);
    if IsNodePath(root, q + [i]) {
      AtPrefix(root, q + [i], |q|);
      assert (q + [i])[..|q|] == q;
    }
  }
}
