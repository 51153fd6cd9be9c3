/**
 * `assignment4/view/DrawCladogram.apply`: draws every key of the layout map as
 * a dot, every leaf key with a label, and every parent-child edge as two line
 * segments. A child without an entry in the map makes the scale function
 * dereference `null`; that `NullPointerException` is the error result here.
 */
module CladogramView {
  import opened Wrappers
  import opened Trees
  import opened Geometry
  import opened Concepts
  import opened Cladogram
  import opened CladogramDrawing

  const LabelMargin: real := 80.0
  const MaxFontSize: real := 12.0
  const DotRadius: real := 2.5
  const LabelGap: real := 4.0

  /** The parent key and child position whose point was missing. */
  datatype DrawError = MissingChildPoint(parent: Path, child: nat)

  function Min(a: real, b: real): real { if a <= b then a else b }

  /** `Math.min(12, height / (double) leafCount)`; for no leaf keys the division gives an infinity or NaN. */
  function FontSize(height: real, leafCount: nat): Coord
  {
    if leafCount == 0 then (if height > 0.0 then Finite(MaxFontSize) else NotFinite)
    else Finite(Min(MaxFontSize, height / (leafCount as real)))
  }

  /** The font size never exceeds 12 and the labels of all leaf keys stacked at that size fit the height. */
  lemma FontSizeFits(height: real, leafCount: nat)
    requires leafCount > 0
    ensures FontSize(height, leafCount).Finite?
    ensures FontSize(height, leafCount).value <= MaxFontSize
    ensures FontSize(height, leafCount).value * (leafCount as real) <= height
  {
    var n := leafCount as real;
    var f := FontSize(height, leafCount).value;
    if MaxFontSize <= height / n {
      assert MaxFontSize * n <= height / n * n;
    }
    assert height / n * n == height;
  }

  predicate ChildMissing<T>(root: Tree<T>, layout: Layout, q: Path, k: nat)
  {
    q + [k] !in layout
  }

  /** The connectors for the first `k` children of the key `q`. */
  function ChildConnectors<T>(root: Tree<T>, layout: Layout, sc: Scaler, q: Path, k: nat): Result<seq<Shape>, DrawError>
    requires IsNodePath(root, q) && q in layout && k <= ChildCount(root, q)
  {
    if k == 0 then Ok([])
    else
      match ChildConnectors(root, layout, sc, q, k - 1)
      case Err(e) => Err(e)
      case Ok(prev) =>
        if ChildMissing(root, layout, q, k - 1) then Err(MissingChildPoint(q, k - 1))
        else Ok(prev + Connector(Scale(sc, layout[q]), Scale(sc, layout[q + [k - 1]])))
  }

  /** The edge group after the first `|order|` keys of the map. */
  function EdgeShapes<T>(root: Tree<T>, layout: Layout, sc: Scaler, order: seq<Path>): Result<seq<Shape>, DrawError>
    requires InOrderAreNodes(root, order) && forall i :: 0 <= i < |order| ==> order[i] in layout
  {
    if order == [] then Ok([])
    else
      var q := order[|order| - 1];
      match EdgeShapes(root, layout, sc, order[..|order| - 1])
      case Err(e) => Err(e)
      case Ok(prev) =>
        match ChildConnectors(root, layout, sc, q, ChildCount(root, q))
        case Err(e) => Err(e)
        case Ok(cs) => Ok(prev + cs)
  }

  /** The node group: one dot per key. */
  function NodeShapes(layout: Layout, sc: Scaler, order: seq<Path>): seq<Shape>
    requires forall i :: 0 <= i < |order| ==> order[i] in layout
  {
    if order == [] then []
    else
      var p := Scale(sc, layout[order[|order| - 1]]);
      NodeShapes(layout, sc, order[..|order| - 1]) + [Circle(p.x, p.y, DotRadius)]
  }

  /** The label group: the name of each leaf key, just right of its dot. */
  function LabelShapes(root: ConceptTree, layout: Layout, sc: Scaler, font: Coord, order: seq<Path>): seq<Shape>
    requires InOrderAreNodes(root, order) && forall i :: 0 <= i < |order| ==> order[i] in layout
  {
    if order == [] then []
    else
      var q := order[|order| - 1];
      var p := Scale(sc, layout[q]);
      LabelShapes(root, layout, sc, font, order[..|order| - 1])
        + (if ChildCount(root, q) == 0 then [Text(Offset(p.x, LabelGap), p.y, At(root, q).value.data.name, font)] else [])
  }

  /** What `apply` returns for the map listed in `order`. */
  function DrawingOf(root: ConceptTree, layout: Layout, width: real, height: real, order: seq<Path>): Result<Drawing, DrawError>
    requires IsKeyOrder(order, layout) && KeysAreNodes(root, layout)
  {
    var sc := SetupScaleFunction(ValuesInOrder(layout, order), width - LabelMargin, height);
    var font := FontSize(height, LeafKeyCount(root, order));
    match EdgeShapes(root, layout, sc, order)
    case Err(e) => Err(e)
    case Ok(edges) => Ok(Drawing(edges, NodeShapes(layout, sc, order), LabelShapes(root, layout, sc, font, order)))
  }

  /** `apply`: the two loops over the key set, in the map's iteration order. */
  method Apply(root: ConceptTree, layout: Layout, width: real, height: real, order: seq<Path>)
    returns (r: Result<Drawing, DrawError>)
    requires IsKeyOrder(order, layout) && KeysAreNodes(root, layout)
    ensures r == DrawingOf(root, layout, width, height, order)
  {
    var points := ValuesInOrder(layout, order);
    var scale := SetupScaleFunction(points, width - LabelMargin, height);
    var leafCount := LeafKeyCount(root, order);
    var fontSize := FontSize(height, leafCount);
    var edges := DrawEdges(root, layout, scale, order);
    if edges.Err? {
      return Err(edges.error);
    }
    var nodes, labels := DrawNodes(root, layout, scale, fontSize, order);
    r := Ok(Drawing(edges.value, nodes, labels));
  }

  /** The first loop of `apply`: the connectors of every key's children. */
  method DrawEdges<T>(root: Tree<T>, layout: Layout, scale: Scaler, order: seq<Path>)
    returns (r: Result<seq<Shape>, DrawError>)
    requires InOrderAreNodes(root, order) && forall i :: 0 <= i < |order| ==> order[i] in layout
    ensures r == EdgeShapes(root, layout, scale, order)
  {
    var edges: seq<Shape> := [];
    var i := 0;
    while i < |order|
      invariant 0 <= i <= |order|
      invariant EdgeShapes(root, layout, scale, order[..i]) == Ok(edges)
    {
      assert order[..i + 1][..i] == order[..i];
      var parent: Path := order[i];
      var cs := DrawChildConnectors(root, layout, scale, parent);
      if cs.Err? {
        EdgeErrorPropagates(root, layout, scale, order, i + 1, cs.error);
        return Err(cs.error);
      }
      edges := edges + cs.value;
      i := i + 1;
    }
    assert order[..|order|] == order;
    r := Ok(edges);
  }

  /** The inner loop of `apply`: two segments per child, failing at the first child without a point. */
  method DrawChildConnectors<T>(root: Tree<T>, layout: Layout, scale: Scaler, parent: Path)
    returns (r: Result<seq<Shape>, DrawError>)
    requires IsNodePath(root, parent) && parent in layout
    ensures r == ChildConnectors(root, layout, scale, parent, ChildCount(root, parent))
  {
    var p1 := Scale(scale, layout[parent]);
    var children := At(root, parent).value.children;
    var cs: seq<Shape> := [];
    var k: nat := 0;
    while k < |children|
      invariant 0 <= k <= |children|
      invariant ChildConnectors(root, layout, scale, parent, k) == Ok(cs)
    {
      if parent + [k] !in layout {
        ChildrenErrorPropagates(root, layout, scale, parent, k + 1, MissingChildPoint(parent, k));
        return Err(MissingChildPoint(parent, k));
      }
      var p2 := Scale(scale, layout[parent + [k]]);
      cs := cs + Connector(p1, p2);
      k := k + 1;
    }
    r := Ok(cs);
  }

  /** The second loop of `apply`: a dot per key, a label per leaf key. */
  method DrawNodes(root: ConceptTree, layout: Layout, scale: Scaler, fontSize: Coord, order: seq<Path>)
    returns (nodes: seq<Shape>, labels: seq<Shape>)
    requires InOrderAreNodes(root, order) && forall i :: 0 <= i < |order| ==> order[i] in layout
    ensures nodes == NodeShapes(layout, scale, order)
    ensures labels == LabelShapes(root, layout, scale, fontSize, order)
  {
    nodes := [];
    labels := [];
    var i := 0;
    while i < |order|
      invariant 0 <= i <= |order|
      invariant nodes == NodeShapes(layout, scale, order[..i])
      invariant labels == LabelShapes(root, layout, scale, fontSize, order[..i])
    {
      assert order[..i + 1][..i] == order[..i];
      var node: Path := order[i];
      var point := Scale(scale, layout[node]);
      nodes := nodes + [Circle(point.x, point.y, DotRadius)];
      if At(root, node).value.children == [] {
        labels := labels + [Text(Offset(point.x, LabelGap), point.y, At(root, node).value.data.name, fontSize)];
      }
      i := i + 1;
    }
    assert order[..|order|] == order;
  }

  lemma {:induction false} ChildrenErrorPropagates<T>(root: Tree<T>, layout: Layout, sc: Scaler, q: Path, k: nat, e: DrawError)
    requires IsNodePath(root, q) && q in layout && k <= ChildCount(root, q)
    requires ChildConnectors(root, layout, sc, q, k) == Err(e)
    ensures ChildConnectors(root, layout, sc, q, ChildCount(root, q)) == Err(e)
    decreases ChildCount(root, q) - k
  {
    if k < ChildCount(root, q) {
      ChildrenErrorPropagates(root, layout, sc, q, k + 1, e);
    }
  }

  lemma {:induction false} EdgeErrorPropagates<T>(root: Tree<T>, layout: Layout, sc: Scaler, order: seq<Path>, i: nat, e: DrawError)
    requires InOrderAreNodes(root, order) && forall j :: 0 <= j < |order| ==> order[j] in layout
    requires i <= |order| && EdgeShapes(root, layout, sc, order[..i]) == Err(e)
    ensures EdgeShapes(root, layout, sc, order) == Err(e)
    decreases |order| - i
  {
    if i < |order| {
      assert order[..i + 1][..i] == order[..i];
      EdgeErrorPropagates(root, layout, sc, order, i + 1, e);
    } else {
      assert order[..i] == order;
    }
  }

  // ---------------------------------------------------------------------
  // What `apply` promises

  lemma {:induction false} ChildConnectorsShape<T>(root: Tree<T>, layout: Layout, sc: Scaler, q: Path, k: nat)
    requires IsNodePath(root, q) && q in layout && k <= ChildCount(root, q)
    ensures ChildConnectors(root, layout, sc, q, k).Err? <==> exists j :: 0 <= j < k && ChildMissing(root, layout, q, j)
    ensures ChildConnectors(root, layout, sc, q, k).Ok? ==> |ChildConnectors(root, layout, sc, q, k).value| == 2 * k
  {
    if k > 0 {
      ChildConnectorsShape(root, layout, sc, q, k - 1);
    }
  }

  lemma {:induction false} EdgeShapesShape<T>(root: Tree<T>, layout: Layout, sc: Scaler, order: seq<Path>)
    requires InOrderAreNodes(root, order) && forall i :: 0 <= i < |order| ==> order[i] in layout
    ensures EdgeShapes(root, layout, sc, order).Err? <==>
      exists i, j :: 0 <= i < |order| && 0 <= j < ChildCount(root, order[i]) && ChildMissing(root, layout, order[i], j)
    ensures EdgeShapes(root, layout, sc, order).Ok? ==>
      |EdgeShapes(root, layout, sc, order).value| == 2 * EdgeCount(root, order)
  {
    if order != [] {
      var init := order[..|order| - 1];
      var q := order[|order| - 1];
      EdgeShapesShape(root, layout, sc, init);
      ChildConnectorsShape(root, layout, sc, q, ChildCount(root, q));
      assert forall i :: 0 <= i < |init| ==> init[i] == order[i];
      if exists i, j :: 0 <= i < |order| && 0 <= j < ChildCount(root, order[i]) && ChildMissing(root, layout, order[i], j) {
        var i, j :| 0 <= i < |order| && 0 <= j < ChildCount(root, order[i]) && ChildMissing(root, layout, order[i], j);
        if i < |init| {
          assert ChildMissing(root, layout, init[i], j);
        }
      }
    }
  }

  lemma {:induction false} NodeShapesAt(layout: Layout, sc: Scaler, order: seq<Path>, i: nat)
    requires forall j :: 0 <= j < |order| ==> order[j] in layout
    requires i < |order|
    ensures |NodeShapes(layout, sc, order)| == |order|
    ensures NodeShapes(layout, sc, order)[i] ==
      Circle(Scale(sc, layout[order[i]]).x, Scale(sc, layout[order[i]]).y, DotRadius)
  {
    var init := order[..|order| - 1];
    if i < |init| {
      NodeShapesAt(layout, sc, init, i);
    } else if init != [] {
      NodeShapesAt(layout, sc, init, 0);
    }
  }

  lemma {:induction false} LabelShapesShape(root: ConceptTree, layout: Layout, sc: Scaler, font: Coord, order: seq<Path>)
    requires InOrderAreNodes(root, order) && forall i :: 0 <= i < |order| ==> order[i] in layout
    ensures |LabelShapes(root, layout, sc, font, order)| == LeafKeyCount(root, order)
    ensures forall s :: s in LabelShapes(root, layout, sc, font, order) ==> s.Text? && s.fontSize == font
  {
    if order != [] {
      LabelShapesShape(root, layout, sc, font, order[..|order| - 1]);
    }
  }

  /**
   * `apply` fails exactly when some key has a child without a point; otherwise
   * it draws two segments per parent-child edge, one dot per key and one
   * label per leaf key, with the labels' font size finite and at most 12.
   */
  lemma DrawingShape(root: ConceptTree, layout: Layout, width: real, height: real, order: seq<Path>)
    requires IsKeyOrder(order, layout) && KeysAreNodes(root, layout)
    ensures DrawingOf(root, layout, width, height, order).Err? <==>
      exists q, j :: q in layout && 0 <= j < ChildCount(root, q) && ChildMissing(root, layout, q, j)
    ensures DrawingOf(root, layout, width, height, order).Ok? ==>
      var d := DrawingOf(root, layout, width, height, order).value;
      |d.edges| == 2 * EdgeCount(root, order) &&
      |d.nodes| == |layout| &&
      |d.labels| == LeafKeyCount(root, order) &&
      forall s :: s in d.labels ==> s.Text? && s.fontSize.Finite? && s.fontSize.value <= MaxFontSize
  {
    var sc := SetupScaleFunction(ValuesInOrder(layout, order), width - LabelMargin, height);
    var font := FontSize(height, LeafKeyCount(root, order));
    EdgeShapesShape(root, layout, sc, order);
    LabelShapesShape(root, layout, sc, font, order);
    KeyOrderLength(order, layout);
    if order != [] {
      NodeShapesAt(layout, sc, order, 0);
    }
    if LeafKeyCount(root, order) > 0 {
      FontSizeFits(height, LeafKeyCount(root, order));
    }
    if exists q, j :: q in layout && 0 <= j < ChildCount(root, q) && ChildMissing(root, layout, q, j) {
      var q, j :| q in layout && 0 <= j < ChildCount(root, q) && ChildMissing(root, layout, q, j);
      var i :| 0 <= i < |order| && order[i] == q;
      assert ChildMissing(root, layout, order[i], j);
    }
  }

  /** A layout holding every child of every key is drawn without failure; both policies' layouts do. */
  lemma DrawingFullLayout(root: ConceptTree, layout: Layout, width: real, height: real, order: seq<Path>)
    requires layout == EqualLeafDepth(root) || layout == UniformEdgeLength(root)
    requires IsKeyOrder(order, layout)
    ensures KeysAreNodes(root, layout)
    ensures DrawingOf(root, layout, width, height, order).Ok?
  {
    FullLayoutsClosed(root);
    DrawingShape(root, layout, width, height, order);
  }
}
