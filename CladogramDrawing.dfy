/**
 * What both `DrawCladogram` classes (`assignment4/view` and
 * `assignment4/window`) share: the scale function built by
 * `setupScaleFunction`, the shapes added to the three groups, and the
 * iteration order of the layout map.
 *
 * A layout key is the path of a node below the root that is drawn; the
 * map's iteration order is a parameter `order` listing each key once.
 */
module CladogramDrawing {
  import opened Wrappers
  import opened Trees
  import opened Geometry
  import opened Concepts
  import opened Cladogram

  // ---------------------------------------------------------------------
  // The scale function

  /** A scaled double: a number, or the NaN or infinity a division by a zero range yields. */
  datatype Coord = Finite(value: real) | NotFinite

  function Offset(c: Coord, d: real): Coord
  {
    if c.Finite? then Finite(c.value + d) else NotFinite
  }

  datatype ScaledPoint = ScaledPoint(x: Coord, y: Coord)

  datatype Bounds = Bounds(xMin: real, xMax: real, yMin: real, yMax: real)

  /** The four stream bounds of `setupScaleFunction`: `min().orElse(0.0)` and `max().orElse(1.0)` per axis. */
  function BoundsOf(points: seq<Point>): (b: Bounds)
    ensures points == [] ==> b == Bounds(0.0, 1.0, 0.0, 1.0)
    ensures b.xMin <= b.xMax && b.yMin <= b.yMax
    ensures forall i :: 0 <= i < |points| ==>
      b.xMin <= points[i].x <= b.xMax && b.yMin <= points[i].y <= b.yMax
    ensures points != [] ==>
      (exists i :: 0 <= i < |points| && points[i].x == b.xMin) &&
      (exists i :: 0 <= i < |points| && points[i].x == b.xMax) &&
      (exists i :: 0 <= i < |points| && points[i].y == b.yMin) &&
      (exists i :: 0 <= i < |points| && points[i].y == b.yMax)
  {
    if points == [] then Bounds(0.0, 1.0, 0.0, 1.0)
    else
      var xs, ys := Xs(points), Ys(points);
      MinOfBounds(xs);
      MaxOfBounds(xs);
      MinOfBounds(ys);
      MaxOfBounds(ys);
      Bounds(MinOf(xs), MaxOf(xs), MinOf(ys), MaxOf(ys))
  }

  /** The closure `setupScaleFunction` returns, with the bounds and extents it captures. */
  datatype Scaler = Scaler(bounds: Bounds, width: real, height: real)

  function SetupScaleFunction(points: seq<Point>, width: real, height: real): Scaler
  {
    Scaler(BoundsOf(points), width, height)
  }

  /** `(v - lo) / (hi - lo) * extent`; dividing by a zero range leaves no finite value. */
  function ScaleAxis(v: real, lo: real, hi: real, extent: real): (c: Coord)
    ensures c.NotFinite? <==> hi == lo
  {
    if hi == lo then NotFinite else Finite((v - lo) / (hi - lo) * extent)
  }

  /** Applying the scale function to a point. */
  function Scale(s: Scaler, p: Point): ScaledPoint
  {
    ScaledPoint(ScaleAxis(p.x, s.bounds.xMin, s.bounds.xMax, s.width),
                ScaleAxis(p.y, s.bounds.yMin, s.bounds.yMax, s.height))
  }

  /** The scale maps the low bound to 0 and the high bound to the extent. */
  lemma ScaleAxisEnds(lo: real, hi: real, extent: real)
    requires lo != hi
    ensures ScaleAxis(lo, lo, hi, extent) == Finite(0.0)
    ensures ScaleAxis(hi, lo, hi, extent) == Finite(extent)
  {
    assert (hi - lo) / (hi - lo) == 1.0;
  }

  /** For a positive extent and a proper range the scale is strictly increasing. */
  lemma ScaleAxisMonotone(v1: real, v2: real, lo: real, hi: real, extent: real)
    requires lo < hi && extent > 0.0 && v1 < v2
    ensures ScaleAxis(v1, lo, hi, extent).value < ScaleAxis(v2, lo, hi, extent).value
  {
    var d := hi - lo;
    assert (v1 - lo) / d < (v2 - lo) / d;
    MultiplyPositive((v1 - lo) / d, (v2 - lo) / d, extent);
  }

  lemma MultiplyPositive(a: real, b: real, e: real)
    requires a < b && e > 0.0
    ensures a * e < b * e
  {
  }

  /** Values within the range land within [0, extent]. */
  lemma ScaleAxisRange(v: real, lo: real, hi: real, extent: real)
    requires lo < hi && lo <= v <= hi && extent >= 0.0
    ensures 0.0 <= ScaleAxis(v, lo, hi, extent).value <= extent
  {
    var d := hi - lo;
    var f := (v - lo) / d;
    assert 0.0 <= f <= 1.0;
    assert f * extent <= 1.0 * extent;
  }

  /** The scale is invertible on a proper range with a non-zero extent. */
  lemma ScaleAxisInverse(v: real, lo: real, hi: real, extent: real)
    requires lo != hi && extent != 0.0
    ensures lo + ScaleAxis(v, lo, hi, extent).value / extent * (hi - lo) == v
  {
    var d := hi - lo;
    var f := (v - lo) / d;
    assert f * extent / extent == f;
    assert f * d == v - lo;
  }

  /** Every point the scale was built from lands in the canvas [0, width] x [0, height],
      provided neither coordinate range is degenerate. */
  lemma ScaleIntoCanvas(points: seq<Point>, width: real, height: real, i: nat)
    requires i < |points| && width >= 0.0 && height >= 0.0
    requires BoundsOf(points).xMin != BoundsOf(points).xMax && BoundsOf(points).yMin != BoundsOf(points).yMax
    ensures var c := Scale(SetupScaleFunction(points, width, height), points[i]);
      c.x.Finite? && c.y.Finite? && 0.0 <= c.x.value <= width && 0.0 <= c.y.value <= height
  {
    var b := BoundsOf(points);
    ScaleAxisRange(points[i].x, b.xMin, b.xMax, width);
    ScaleAxisRange(points[i].y, b.yMin, b.yMax, height);
  }

  // ---------------------------------------------------------------------
  // The layout map as the drawing code sees it

  /** `order` lists each key of `layout` exactly once: the iteration order of the map. */
  predicate IsKeyOrder(order: seq<Path>, layout: Layout)
  {
    (forall q :: q in layout ==> q in order) &&
    (forall i :: 0 <= i < |order| ==> order[i] in layout) &&
    (forall i, j :: 0 <= i < j < |order| ==> order[i] != order[j])
  }

  /** Every key names a node of `root` (the keys are the nodes themselves in the Java code). */
  predicate KeysAreNodes<T>(root: Tree<T>, layout: Layout)
  {
    forall q :: q in layout ==> IsNodePath(root, q)
  }

  predicate InOrderAreNodes<T>(root: Tree<T>, order: seq<Path>)
  {
    forall i :: 0 <= i < |order| ==> IsNodePath(root, order[i])
  }

  /** A key order is as long as the map has keys. */
  lemma KeyOrderLength(order: seq<Path>, layout: Layout)
    requires IsKeyOrder(order, layout)
    ensures |order| == |layout|
  {
    DistinctCard(order);
    assert layout.Keys == set q | q in order;
  }

  /** Dropping the last key listed leaves an order of the remaining map. */
  lemma KeyOrderDropLast(order: seq<Path>, layout: Layout)
    requires IsKeyOrder(order, layout) && order != []
    ensures IsKeyOrder(order[..|order| - 1], layout - {order[|order| - 1]})
  {
    var init := order[..|order| - 1];
    assert forall i :: 0 <= i < |init| ==> init[i] == order[i];
    forall p | p in layout - {order[|order| - 1]} ensures p in init {
      var i :| 0 <= i < |order| && order[i] == p;
      assert i != |order| - 1;
    }
  }

  /** A list without repetitions has as many distinct elements as positions. */
  lemma {:induction false} DistinctCard<X>(s: seq<X>)
    requires forall i, j :: 0 <= i < j < |s| ==> s[i] != s[j]
    ensures |set x | x in s| == |s|
  {
    if s != [] {
      var init := s[..|s| - 1];
      DistinctCard(init);
      var last := s[|s| - 1];
      assert (set x | x in s) == (set x | x in init) + {last};
      assert last !in (set x | x in init);
    }
  }

  /** Every child of a key is a key. */
  predicate ChildrenClosed<T>(root: Tree<T>, layout: Layout)
    requires KeysAreNodes(root, layout)
  {
    forall q, j :: q in layout && 0 <= j < |At(root, q).value.children| ==> q + [j] in layout
  }

  /** The layouts of both policies have exactly the nodes of the tree as keys. */
  lemma FullLayoutsClosed<T>(root: Tree<T>)
    ensures KeysAreNodes(root, EqualLeafDepth(root)) && ChildrenClosed(root, EqualLeafDepth(root))
    ensures KeysAreNodes(root, UniformEdgeLength(root)) && ChildrenClosed(root, UniformEdgeLength(root))
  {
    forall q: Path ensures q in EqualLeafDepth(root) <==> IsNodePath(root, q)
    {
      EqualLeafDepthShape(root, q);
    }
    assert EqualLeafDepth(root).Keys == UniformEdgeLength(root).Keys;
    forall q: Path, j: nat | IsNodePath(root, q) && j < |At(root, q).value.children|
      ensures IsNodePath(root, q + [j])
    {
      AtExtend(root, q, j);
    }
  }

  /** `nodePointMap.values()`, in iteration order. */
  function ValuesInOrder(layout: Layout, order: seq<Path>): (pts: seq<Point>)
    requires forall i :: 0 <= i < |order| ==> order[i] in layout
    ensures |pts| == |order|
  {
    seq(|order|, i requires 0 <= i < |order| => layout[order[i]])
  }

  function ChildCount<T>(root: Tree<T>, q: Path): nat
    requires IsNodePath(root, q)
  {
    |At(root, q).value.children|
  }

  /** The number of children summed over the keys listed (`countEdges`). */
  function EdgeCount<T>(root: Tree<T>, order: seq<Path>): nat
    requires InOrderAreNodes(root, order)
  {
    if order == [] then 0
    else EdgeCount(root, order[..|order| - 1]) + ChildCount(root, order[|order| - 1])
  }

  /** The number of leaves among the keys listed. */
  function LeafKeyCount<T>(root: Tree<T>, order: seq<Path>): nat
    requires InOrderAreNodes(root, order)
  {
    if order == [] then 0
    else LeafKeyCount(root, order[..|order| - 1]) + (if ChildCount(root, order[|order| - 1]) == 0 then 1 else 0)
  }

  // ---------------------------------------------------------------------
  // Shapes

  datatype Shape =
    | Line(x1: Coord, y1: Coord, x2: Coord, y2: Coord)
    | Circle(cx: Coord, cy: Coord, radius: real)
    | Text(tx: Coord, ty: Coord, text: string, fontSize: Coord)

  /** The `Group(edgeGroup, nodeGroup, labelGroup)` that `apply` returns. */
  datatype Drawing = Drawing(edges: seq<Shape>, nodes: seq<Shape>, labels: seq<Shape>)

  /** The L-shaped connector from a parent to a child: down (or up) to the child's y, then across. */
  function Connector(p: ScaledPoint, c: ScaledPoint): (r: seq<Shape>)
    ensures |r| == 2
    ensures r[0].Line? && r[1].Line?
    ensures r[0].x1 == p.x && r[0].y1 == p.y && r[1].x2 == c.x && r[1].y2 == c.y
    ensures r[0].x2 == r[1].x1 && r[0].y2 == r[1].y1
    ensures r[0].x1 == r[0].x2 && r[1].y1 == r[1].y2
  {
    [Line(p.x, p.y, p.x, c.y), Line(p.x, c.y, c.x, c.y)]
  }
}
