/**
 * `assignment4/window/DrawCladogram.apply`: the same drawing as the view
 * variant, except that a child without an entry in the layout map is
 * skipped, the dots have radius 2, the font size is derived from the leaves
 * of the tree (`countLeaves`), and a label sits a quarter of its own height
 * below its dot. The height of a rendered text comes from the font engine
 * and is a parameter here.
 */
module CladogramWindow {
  import opened Trees
  import opened Geometry
  import opened Concepts
  import opened Cladogram
  import opened CladogramDrawing

  const LabelMargin: real := 80.0
  const MaxFontSize: real := 14.0
  const DotRadius: real := 2.0
  const LabelGap: real := 5.0

  function Min(a: real, b: real): real { if a <= b then a else b }

  /** `Math.min(14, height / (leafCount + 1))`. */
  function FontSize(height: real, leafCount: nat): real
  {
    Min(MaxFontSize, height / ((leafCount + 1) as real))
  }

  /** The font size never exceeds 14 and leafCount + 1 lines at that size fit the height. */
  lemma FontSizeFits(height: real, leafCount: nat)
    ensures FontSize(height, leafCount) <= MaxFontSize
    ensures FontSize(height, leafCount) * ((leafCount + 1) as real) <= height
  {
    var n := (leafCount + 1) as real;
    if MaxFontSize <= height / n {
      assert MaxFontSize * n <= height / n * n;
    }
    assert height / n * n == height;
  }

  /** The connectors for those of the first `k` children of key `q` that have a point. */
  function ChildConnectors<T>(root: Tree<T>, layout: Layout, sc: Scaler, q: Path, k: nat): seq<Shape>
    requires IsNodePath(root, q) && q in layout && k <= ChildCount(root, q)
  {
    if k == 0 then []
    else if q + [k - 1] !in layout then ChildConnectors(root, layout, sc, q, k - 1)
    else ChildConnectors(root, layout, sc, q, k - 1) + Connector(Scale(sc, layout[q]), Scale(sc, layout[q + [k - 1]]))
  }

  /** How many of the first `k` children of key `q` have a point. */
  function PresentChildren<T>(root: Tree<T>, layout: Layout, q: Path, k: nat): nat
    requires IsNodePath(root, q) && k <= ChildCount(root, q)
  {
    if k == 0 then 0
    else PresentChildren(root, layout, q, k - 1) + (if q + [k - 1] in layout then 1 else 0)
  }

  /** The number of parent-child pairs among the listed keys whose child has a point. */
  function DrawnEdgeCount<T>(root: Tree<T>, layout: Layout, order: seq<Path>): nat
    requires InOrderAreNodes(root, order)
  {
    if order == [] then 0
    else
      var q := order[|order| - 1];
      DrawnEdgeCount(root, layout, order[..|order| - 1]) + PresentChildren(root, layout, q, ChildCount(root, q))
  }

  function EdgeShapes<T>(root: Tree<T>, layout: Layout, sc: Scaler, order: seq<Path>): seq<Shape>
    requires InOrderAreNodes(root, order) && forall i :: 0 <= i < |order| ==> order[i] in layout
  {
    if order == [] then []
    else
      var q := order[|order| - 1];
      EdgeShapes(root, layout, sc, order[..|order| - 1]) + ChildConnectors(root, layout, sc, q, ChildCount(root, q))
  }

  function NodeShapes(layout: Layout, sc: Scaler, order: seq<Path>): seq<Shape>
    requires forall i :: 0 <= i < |order| ==> order[i] in layout
  {
    if order == [] then []
    else
      var p := Scale(sc, layout[order[|order| - 1]]);
      NodeShapes(layout, sc, order[..|order| - 1]) + [Circle(p.x, p.y, DotRadius)]
  }

  function LabelShapes(root: ConceptTree, layout: Layout, sc: Scaler, font: real, textHeight: string -> real, order: seq<Path>): seq<Shape>
    requires InOrderAreNodes(root, order) && forall i :: 0 <= i < |order| ==> order[i] in layout
  {
    if order == [] then []
    else
      var q := order[|order| - 1];
      var p := Scale(sc, layout[q]);
      var name := At(root, q).value.data.name;
      LabelShapes(root, layout, sc, font, textHeight, order[..|order| - 1])
        + (if ChildCount(root, q) == 0 then [Text(Offset(p.x, LabelGap), Offset(p.y, textHeight(name) / 4.0), name, Finite(font))] else [])
  }

  /** What `apply` returns for the map listed in `order`. */
  function DrawingOf(root: ConceptTree, layout: Layout, width: real, height: real, textHeight: string -> real, order: seq<Path>): Drawing
    requires IsKeyOrder(order, layout) && KeysAreNodes(root, layout)
  {
    var sc := SetupScaleFunction(ValuesInOrder(layout, order), width - LabelMargin, height);
    var font := FontSize(height, Leaves(root));
    Drawing(EdgeShapes(root, layout, sc, order), NodeShapes(layout, sc, order), LabelShapes(root, layout, sc, font, textHeight, order))
  }

  /** `apply`: the entry loop for edges, then the entry loop for dots and labels. */
  method Apply(root: ConceptTree, layout: Layout, width: real, height: real, textHeight: string -> real, order: seq<Path>)
    returns (d: Drawing)
    requires IsKeyOrder(order, layout) && KeysAreNodes(root, layout)
    ensures d == DrawingOf(root, layout, width, height, textHeight, order)
  {
    var points := ValuesInOrder(layout, order);
    var scaleFn := SetupScaleFunction(points, width - LabelMargin, height);
    var edges := DrawEdges(root, layout, scaleFn, order);
    var leafCount := Leaves(root);
    var fontSize := FontSize(height, leafCount);
    var nodes, labels := DrawNodes(root, layout, scaleFn, fontSize, textHeight, order);
    d := Drawing(edges, nodes, labels);
  }

  method DrawEdges<T>(root: Tree<T>, layout: Layout, scaleFn: Scaler, order: seq<Path>) returns (edges: seq<Shape>)
    requires InOrderAreNodes(root, order) && forall i :: 0 <= i < |order| ==> order[i] in layout
    ensures edges == EdgeShapes(root, layout, scaleFn, order)
  {
    edges := [];
    var i := 0;
    while i < |order|
      invariant 0 <= i <= |order|
      invariant edges == EdgeShapes(root, layout, scaleFn, order[..i])
    {
      assert order[..i + 1][..i] == order[..i];
      var parent: Path := order[i];
      var parentScaled := Scale(scaleFn, layout[parent]);
      var children := At(root, parent).value.children;
      ghost var before := edges;
      var k: nat := 0;
      while k < |children|
        invariant 0 <= k <= |children|
        invariant edges == before + ChildConnectors(root, layout, scaleFn, parent, k)
      {
        if parent + [k] in layout {
          var childScaled := Scale(scaleFn, layout[parent + [k]]);
          edges := edges + Connector(parentScaled, childScaled);
        }
        k := k + 1;
      }
      i := i + 1;
    }
    assert order[..|order|] == order;
  }

  method DrawNodes(root: ConceptTree, layout: Layout, scaleFn: Scaler, fontSize: real, textHeight: string -> real, order: seq<Path>)
    returns (nodes: seq<Shape>, labels: seq<Shape>)
    requires InOrderAreNodes(root, order) && forall i :: 0 <= i < |order| ==> order[i] in layout
    ensures nodes == NodeShapes(layout, scaleFn, order)
    ensures labels == LabelShapes(root, layout, scaleFn, fontSize, textHeight, order)
  {
    nodes := [];
    labels := [];
    var i := 0;
    while i < |order|
      invariant 0 <= i <= |order|
      invariant nodes == NodeShapes(layout, scaleFn, order[..i])
      invariant labels == LabelShapes(root, layout, scaleFn, fontSize, textHeight, order[..i])
    {
      assert order[..i + 1][..i] == order[..i];
      var node: Path := order[i];
      var scaled := Scale(scaleFn, layout[node]);
      nodes := nodes + [Circle(scaled.x, scaled.y, DotRadius)];
      if At(root, node).value.children == [] {
        var name := At(root, node).value.data.name;
        var labelHeight := textHeight(name);
        labels := labels + [Text(Offset(scaled.x, LabelGap), Offset(scaled.y, labelHeight / 4.0), name, Finite(fontSize))];
      }
      i := i + 1;
    }
    assert order[..|order|] == order;
  }

  // ---------------------------------------------------------------------
  // What `apply` promises

  lemma {:induction false} ChildConnectorsCount<T>(root: Tree<T>, layout: Layout, sc: Scaler, q: Path, k: nat)
    requires IsNodePath(root, q) && q in layout && k <= ChildCount(root, q)
    ensures |ChildConnectors(root, layout, sc, q, k)| == 2 * PresentChildren(root, layout, q, k)
    ensures PresentChildren(root, layout, q, k) <= k
    ensures (forall j :: 0 <= j < k ==> q + [j] in layout) ==> PresentChildren(root, layout, q, k) == k
    ensures (forall j :: 0 <= j < k ==> q + [j] !in layout) ==> ChildConnectors(root, layout, sc, q, k) == []
  {
    if k > 0 {
      ChildConnectorsCount(root, layout, sc, q, k - 1);
    }
  }

  lemma {:induction false} EdgeShapesCount<T>(root: Tree<T>, layout: Layout, sc: Scaler, order: seq<Path>)
    requires InOrderAreNodes(root, order) && forall i :: 0 <= i < |order| ==> order[i] in layout
    ensures |EdgeShapes(root, layout, sc, order)| == 2 * DrawnEdgeCount(root, layout, order)
    ensures DrawnEdgeCount(root, layout, order) <= EdgeCount(root, order)
    ensures (forall i, j :: 0 <= i < |order| && 0 <= j < ChildCount(root, order[i]) ==> order[i] + [j] in layout) ==>
      DrawnEdgeCount(root, layout, order) == EdgeCount(root, order)
  {
    if order != [] {
      var init := order[..|order| - 1];
      var q := order[|order| - 1];
      assert forall i :: 0 <= i < |init| ==> init[i] == order[i];
      EdgeShapesCount(root, layout, sc, init);
      ChildConnectorsCount(root, layout, sc, q, ChildCount(root, q));
    }
  }

  lemma {:induction false} LabelShapesCount(root: ConceptTree, layout: Layout, sc: Scaler, font: real, textHeight: string -> real, order: seq<Path>)
    requires InOrderAreNodes(root, order) && forall i :: 0 <= i < |order| ==> order[i] in layout
    ensures |LabelShapes(root, layout, sc, font, textHeight, order)| == LeafKeyCount(root, order)
    ensures |NodeShapes(layout, sc, order)| == |order|
    ensures forall s :: s in LabelShapes(root, layout, sc, font, textHeight, order) ==> s.Text? && s.fontSize == Finite(font)
  {
    if order != [] {
      LabelShapesCount(root, layout, sc, font, textHeight, order[..|order| - 1]);
    }
  }

  /**
   * `apply` never fails: it draws two segments for each parent-child pair
   * whose child has a point (all pairs when the layout holds every child),
   * one dot per key and one label per leaf key, at a font size of at most 14.
   */
  lemma DrawingShape(root: ConceptTree, layout: Layout, width: real, height: real, textHeight: string -> real, order: seq<Path>)
    requires IsKeyOrder(order, layout) && KeysAreNodes(root, layout)
    ensures var d := DrawingOf(root, layout, width, height, textHeight, order);
      |d.edges| == 2 * DrawnEdgeCount(root, layout, order) &&
      DrawnEdgeCount(root, layout, order) <= EdgeCount(root, order) &&
      (ChildrenClosed(root, layout) ==> |d.edges| == 2 * EdgeCount(root, order)) &&
      |d.nodes| == |layout| &&
      |d.labels| == LeafKeyCount(root, order) &&
      forall s :: s in d.labels ==> s.Text? && s.fontSize.Finite? && s.fontSize.value <= MaxFontSize
  {
    var sc := SetupScaleFunction(ValuesInOrder(layout, order), width - LabelMargin, height);
    var font := FontSize(height, Leaves(root));
    EdgeShapesCount(root, layout, sc, order);
    LabelShapesCount(root, layout, sc, font, textHeight, order);
    KeyOrderLength(order, layout);
    FontSizeFits(height, Leaves(root));
  }
}
