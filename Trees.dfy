/**
 * Ordered trees as values: a node carries its record data and the ordered
 * list of its children, as the `ANode` records of the repository do once
 * their `children` lists are filled. A node inside a tree is named by its
 * path, the list of child positions leading to it from the root; paths take
 * the place of the records used as `HashMap` keys, which are told apart only
 * structurally in the Java code.
 */
module Trees {
  import opened Wrappers

  datatype Tree<T> = Node(data: T, children: seq<Tree<T>>)

  type Path = seq<nat>

  predicate IsLeaf<T>(t: Tree<T>) { t.children == [] }

  /** The subtree at path `p`, if `p` names a node of `t`. */
  function At<T>(t: Tree<T>, p: Path): Option<Tree<T>>
    decreases |p|
  {
    if p == [] then Some(t)
    else if p[0] < |t.children| then At(t.children[p[0]], p[1..])
    else None
  }

  /** `p` names a node of `t`. */
  predicate IsNodePath<T>(t: Tree<T>, p: Path) { At(t, p).Some? }

  /** Following a path one step further. */
  lemma AtExtend<T>(t: Tree<T>, p: Path, i: nat)
    requires IsNodePath(t, p)
    ensures At(t, p + [i]) ==
      if i < |At(t, p).value.children| then Some(At(t, p).value.children[i]) else None
    decreases |p|
  {
    if p != [] {
      assert (p + [i])[1..] == p[1..] + [i];
      AtExtend(t.children[p[0]], p[1..], i);
    }
  }

  /** Looking up `q` below child `i` is looking up `[i] + q` below the node. */
  lemma AtCons<T>(t: Tree<T>, i: nat, q: Path)
    requires i < |t.children|
    ensures At(t, [i] + q) == At(t.children[i], q)
  {
    assert ([i] + q)[1..] == q;
  }

  /** Paths of the nodes of `t` are closed under taking prefixes. */
  lemma AtPrefix<T>(t: Tree<T>, p: Path, k: nat)
    requires IsNodePath(t, p) && k <= |p|
    ensures IsNodePath(t, p[..k])
    decreases |p|
  {
    if k > 0 {
      AtPrefix(t.children[p[0]], p[1..], k - 1);
      assert p[..k][1..] == p[1..][..k - 1];
    }
  }

  /** The node at `p` comes before the node at `q` in left-to-right order: at the first position where the paths differ, `p` takes an earlier child. */
  predicate LeftOf(p: Path, q: Path)
    decreases |p|
  {
    p != [] && q != [] && (p[0] < q[0] || (p[0] == q[0] && LeftOf(p[1..], q[1..])))
  }

  /** `computeMaxDepth`: 0 for a leaf, one more than the deepest child otherwise. */
  function Height<T>(t: Tree<T>): nat
    decreases t, |t.children| + 1
  {
    if t.children == [] then 0 else 1 + MaxHeight(t, |t.children|)
  }

  /** The greatest height among the first `k` children (0 when `k` is 0). */
  function MaxHeight<T>(t: Tree<T>, k: nat): nat
    requires k <= |t.children|
    decreases t, k
  {
    if k == 0 then 0
    else
      var h := Height(t.children[k - 1]);
      var m := MaxHeight(t, k - 1);
      if h > m then h else m
  }

  lemma {:induction false} MaxHeightBounds<T>(t: Tree<T>, k: nat)
    requires 1 <= k <= |t.children|
    ensures forall i :: 0 <= i < k ==> Height(t.children[i]) <= MaxHeight(t, k)
    ensures exists i :: 0 <= i < k && Height(t.children[i]) == MaxHeight(t, k)
  {
    if k > 1 {
      MaxHeightBounds(t, k - 1);
    }
  }

  /** The height of a node is one more than that of its highest child. */
  lemma HeightOfChildren<T>(t: Tree<T>)
    requires t.children != []
    ensures forall i :: 0 <= i < |t.children| ==> Height(t.children[i]) < Height(t)
    ensures exists i :: 0 <= i < |t.children| && Height(t) == Height(t.children[i]) + 1
  {
    MaxHeightBounds(t, |t.children|);
  }

  /** `countLeaves`: 1 for a leaf, the sum over the children otherwise. */
  function Leaves<T>(t: Tree<T>): nat
    decreases t, |t.children| + 1
  {
    if t.children == [] then 1 else LeavesBefore(t, |t.children|)
  }

  /** The number of leaves below the first `k` children. */
  function LeavesBefore<T>(t: Tree<T>, k: nat): nat
    requires k <= |t.children|
    decreases t, k
  {
    if k == 0 then 0 else LeavesBefore(t, k - 1) + Leaves(t.children[k - 1])
  }

  lemma {:induction false} LeavesPositive<T>(t: Tree<T>)
    ensures Leaves(t) >= 1
    decreases t, 1
  {
    if t.children != [] {
      LeavesBeforeMonotone(t, 1, |t.children|);
      LeavesPositive(t.children[0]);
    }
  }

  lemma {:induction false} LeavesBeforeMonotone<T>(t: Tree<T>, j: nat, k: nat)
    requires j <= k <= |t.children|
    ensures LeavesBefore(t, j) <= LeavesBefore(t, k)
    decreases k
  {
    if j < k {
      LeavesBeforeMonotone(t, j, k - 1);
    }
  }

  /** The number of nodes of `t`. */
  function Size<T>(t: Tree<T>): nat
    decreases t, |t.children| + 1
  {
    1 + SizeBefore(t, |t.children|)
  }

  function SizeBefore<T>(t: Tree<T>, k: nat): nat
    requires k <= |t.children|
    decreases t, k
  {
    if k == 0 then 0 else SizeBefore(t, k - 1) + Size(t.children[k - 1])
  }

  /**
   * The paths of all nodes of `t` in pre-order (a node before its
   * descendants, children left to right), each prefixed with `path`.
   */
  function PreOrder<T>(t: Tree<T>, path: Path): seq<Path>
    decreases t, |t.children| + 1
  {
    [path] + PreOrderBefore(t, path, |t.children|)
  }

  function PreOrderBefore<T>(t: Tree<T>, path: Path, k: nat): seq<Path>
    requires k <= |t.children|
    decreases t, k
  {
    if k == 0 then [] else PreOrderBefore(t, path, k - 1) + PreOrder(t.children[k - 1], path + [k - 1])
  }

  /** `q` extends `path` and the rest of it names a node of `t`. */
  predicate Below<T>(t: Tree<T>, path: Path, q: Path)
  {
    |path| <= |q| && q[..|path|] == path && IsNodePath(t, q[|path|..])
  }

  /** Pre-order lists exactly the nodes of the tree. */
  lemma {:induction false} PreOrderNodes<T>(t: Tree<T>, path: Path, q: Path)
    ensures q in PreOrder(t, path) <==> Below(t, path, q)
    decreases t, |t.children| + 1
  {
    PreOrderBeforeNodes(t, path, |t.children|, q);
    if Below(t, path, q) && q != path {
      var r := q[|path|..];
      assert r != [];
      assert r[0] < |t.children|;
    }
  }

  lemma {:induction false} PreOrderBeforeNodes<T>(t: Tree<T>, path: Path, k: nat, q: Path)
    requires k <= |t.children|
    ensures q in PreOrderBefore(t, path, k) <==>
      (|path| < |q| && q[..|path|] == path && q[|path|] < k && Below(t, path, q))
    decreases t, k
  {
    if k > 0 {
      PreOrderBeforeNodes(t, path, k - 1, q);
      PreOrderNodes(t.children[k - 1], path + [k - 1], q);
      BelowChild(t, path, k - 1, q);
    }
  }

  /** The nodes below child `i` are the nodes below the parent whose path continues with `i`. */
  lemma BelowChild<T>(t: Tree<T>, path: Path, i: nat, q: Path)
    requires i < |t.children|
    ensures Below(t.children[i], path + [i], q) <==>
      (|path| < |q| && q[..|path|] == path && q[|path|] == i && Below(t, path, q))
  {
    if |path| < |q| && q[..|path|] == path && q[|path|] == i {
      var r := q[|path|..];
      assert r == [i] + q[|path| + 1..];
      AtCons(t, i, q[|path| + 1..]);
      assert q[..|path| + 1] == path + [i];
    }
    if Below(t.children[i], path + [i], q) {
      assert q[..|path|] == (path + [i])[..|path|];
      assert q[|path|] == (path + [i])[|path|];
      var r := q[|path|..];
      assert r == [i] + q[|path| + 1..];
      AtCons(t, i, q[|path| + 1..]);
    }
  }
}
