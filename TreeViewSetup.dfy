/**
 * `assignment4/window/TreeViewSetup.render`: clears the three drawing groups
 * of the window controller and shows "Nodes: N, Edges: E, Leaves: L" for the
 * layout map, where N is the number of keys, E the number of children summed
 * over the keys and L the number of keys without children.
 */
module TreeViewSetup {
  import opened Wrappers
  import opened Trees
  import opened JavaText
  import opened Sums
  import opened Cladogram
  import opened CladogramDrawing

  /** The parts of the window controller that `render` touches. */
  class Controller {
    var edgeGroup: seq<Shape>
    var nodeGroup: seq<Shape>
    var labelGroup: seq<Shape>
    var labelText: string

    constructor (text: string)
      ensures edgeGroup == [] && nodeGroup == [] && labelGroup == [] && labelText == text
    {
      edgeGroup := [];
      nodeGroup := [];
      labelGroup := [];
      labelText := text;
    }
  }

  // ---------------------------------------------------------------------
  // The status text and its reading

  const NodesPrefix: string := "Nodes: "
  const EdgesPrefix: string := ", Edges: "
  const LeavesPrefix: string := ", Leaves: "

  /** The text `render` puts in the label box. */
  function StatusText(nodes: nat, edges: nat, leaves: nat): string
  {
    Field(NodesPrefix, nodes) + Field(EdgesPrefix, edges) + Field(LeavesPrefix, leaves)
  }

  /** A caption followed by a count in decimal. */
  function Field(caption: string, n: nat): string
  {
    caption + NatToString(n)
  }

  predicate IsDigit(c: char) { '0' <= c <= '9' }

  /** The length of the run of decimal digits at the start of `s`. */
  function LeadingDigits(s: string): (k: nat)
    ensures k <= |s|
    ensures forall i :: 0 <= i < k ==> IsDigit(s[i])
    ensures k < |s| ==> !IsDigit(s[k])
  {
    if s == [] || !IsDigit(s[0]) then 0 else 1 + LeadingDigits(s[1..])
  }

  /** Reads a decimal number off the front of `s`, returning it and what follows. */
  function ReadNat(s: string): Option<(nat, string)>
  {
    var k := LeadingDigits(s);
    if k == 0 then None else Some((DigitsValue(s[..k]), s[k..]))
  }

  /** Removes `p` from the front of `s`, if `s` starts with it. */
  function ExpectPrefix(p: string, s: string): Option<string>
  {
    if |p| <= |s| && s[..|p|] == p then Some(s[|p|..]) else None
  }

  /** Reads a caption and the count after it off the front of `s`. */
  function ReadField(caption: string, s: string): Option<(nat, string)>
  {
    match ExpectPrefix(caption, s)
    case None => None
    case Some(r) => ReadNat(r)
  }

  /** Reads the three counts back from a status text. */
  function ParseStatus(s: string): Option<(nat, nat, nat)>
  {
    match ReadField(NodesPrefix, s)
    case None => None
    case Some((n, s1)) =>
      match ReadField(EdgesPrefix, s1)
      case None => None
      case Some((e, s2)) =>
        match ReadField(LeavesPrefix, s2)
        case None => None
        case Some((l, s3)) => if s3 == [] then Some((n, e, l)) else None
  }

  lemma {:induction false} LeadingDigitsOf(d: string, rest: string)
    requires forall i :: 0 <= i < |d| ==> IsDigit(d[i])
    requires rest == [] || !IsDigit(rest[0])
    ensures LeadingDigits(d + rest) == |d|
  {
    if d != [] {
      assert (d + rest)[1..] == d[1..] + rest;
      LeadingDigitsOf(d[1..], rest);
    }
  }

  /** A rendered number followed by a non-digit reads back as itself. */
  lemma ReadNatOfRendering(n: nat, rest: string)
    requires rest == [] || !IsDigit(rest[0])
    ensures ReadNat(NatToString(n) + rest) == Some((n, rest))
  {
    var d := NatToString(n);
    LeadingDigitsOf(d, rest);
    assert (d + rest)[..|d|] == d && (d + rest)[|d|..] == rest;
    NatToStringRoundTrip(n);
  }

  /** A field followed by something that is not a digit reads back as its count. */
  lemma ReadFieldOf(caption: string, n: nat, rest: string)
    requires rest == [] || !IsDigit(rest[0])
    ensures ReadField(caption, Field(caption, n) + rest) == Some((n, rest))
  {
    var t := NatToString(n) + rest;
    assert Field(caption, n) + rest == caption + t;
    assert (caption + t)[..|caption|] == caption && (caption + t)[|caption|..] == t;
    ReadNatOfRendering(n, rest);
  }

  /** The status text determines the three counts: reading it back yields them. */
  lemma ParseStatusRoundTrip(nodes: nat, edges: nat, leaves: nat)
    ensures ParseStatus(StatusText(nodes, edges, leaves)) == Some((nodes, edges, leaves))
  {
    var fl := Field(LeavesPrefix, leaves);
    var fe := Field(EdgesPrefix, edges) + fl;
    assert StatusText(nodes, edges, leaves) == Field(NodesPrefix, nodes) + fe;
    assert fe[0] == ',' && fl[0] == ',';
    ReadFieldOf(NodesPrefix, nodes, fe);
    ReadFieldOf(EdgesPrefix, edges, fl);
    ReadFieldOf(LeavesPrefix, leaves, []);
    assert Field(LeavesPrefix, leaves) + [] == fl;
  }

  /** Distinct counts give distinct status texts. */
  lemma StatusTextInjective(n1: nat, e1: nat, l1: nat, n2: nat, e2: nat, l2: nat)
    requires StatusText(n1, e1, l1) == StatusText(n2, e2, l2)
    ensures n1 == n2 && e1 == e2 && l1 == l2
  {
    ParseStatusRoundTrip(n1, e1, l1);
    ParseStatusRoundTrip(n2, e2, l2);
  }

  // ---------------------------------------------------------------------
  // The counting loops

  /** `countEdges`: the number of children summed over the keys. */
  method CountEdges<T>(root: Tree<T>, layout: Layout, order: seq<Path>) returns (edgeCount: nat)
    requires IsKeyOrder(order, layout) && KeysAreNodes(root, layout)
    ensures edgeCount == EdgeCount(root, order)
  {
    edgeCount := 0;
    var i := 0;
    while i < |order|
      invariant 0 <= i <= |order|
      invariant edgeCount == EdgeCount(root, order[..i])
    {
      assert order[..i + 1][..i] == order[..i];
      edgeCount := edgeCount + |At(root, order[i]).value.children|;
      i := i + 1;
    }
    assert order[..|order|] == order;
  }

  /** `countLeaves`: the number of keys without children. */
  method CountLeaves<T>(root: Tree<T>, layout: Layout, order: seq<Path>) returns (leafCount: nat)
    requires IsKeyOrder(order, layout) && KeysAreNodes(root, layout)
    ensures leafCount == LeafKeyCount(root, order)
  {
    leafCount := 0;
    var i := 0;
    while i < |order|
      invariant 0 <= i <= |order|
      invariant leafCount == LeafKeyCount(root, order[..i])
    {
      assert order[..i + 1][..i] == order[..i];
      if At(root, order[i]).value.children == [] {
        leafCount := leafCount + 1;
      }
      i := i + 1;
    }
    assert order[..|order|] == order;
  }

  /** `render`: empties the three groups and sets the status text. */
  method Render<T>(controller: Controller, root: Tree<T>, layout: Layout, order: seq<Path>)
    requires IsKeyOrder(order, layout) && KeysAreNodes(root, layout)
    modifies controller
    ensures controller.edgeGroup == [] && controller.nodeGroup == [] && controller.labelGroup == []
    ensures controller.labelText == StatusText(|layout|, EdgeCount(root, order), LeafKeyCount(root, order))
  {
    controller.edgeGroup := [];
    controller.nodeGroup := [];
    controller.labelGroup := [];
    var nodeCount := |layout|;
    var edgeCount := CountEdges(root, layout, order);
    var leafCount := CountLeaves(root, layout, order);
    controller.labelText := StatusText(nodeCount, edgeCount, leafCount);
  }

  // ---------------------------------------------------------------------
  // The counts do not depend on the iteration order

  /** The children count of every key. */
  function ChildCounts<T>(root: Tree<T>, layout: Layout): map<Path, nat>
    requires KeysAreNodes(root, layout)
  {
    map q | q in layout :: ChildCount(root, q)
  }

  /** The keys without children. */
  function LeafKeys<T>(root: Tree<T>, layout: Layout): set<Path>
    requires KeysAreNodes(root, layout)
  {
    set q | q in layout && ChildCount(root, q) == 0
  }

  /** The edge count is the same for every iteration order of the map. */
  lemma {:induction false} EdgeCountOrderFree<T>(root: Tree<T>, layout: Layout, order: seq<Path>)
    requires IsKeyOrder(order, layout) && KeysAreNodes(root, layout)
    ensures EdgeCount(root, order) == SumValues(ChildCounts(root, layout))
    decreases |order|
  {
    if order == [] {
      SumValuesEmpty(ChildCounts(root, layout));
    } else {
      var q := order[|order| - 1];
      KeyOrderDropLast(order, layout);
      EdgeCountOrderFree(root, layout - {q}, order[..|order| - 1]);
      SumValuesRemove(ChildCounts(root, layout), q);
      assert ChildCounts(root, layout) - {q} == ChildCounts(root, layout - {q});
    }
  }

  /** The leaf count is the same for every iteration order of the map. */
  lemma {:induction false} LeafKeyCountOrderFree<T>(root: Tree<T>, layout: Layout, order: seq<Path>)
    requires IsKeyOrder(order, layout) && KeysAreNodes(root, layout)
    ensures LeafKeyCount(root, order) == |LeafKeys(root, layout)|
    decreases |order|
  {
    if order == [] {
      assert LeafKeys(root, layout) == {};
    } else {
      var q := order[|order| - 1];
      KeyOrderDropLast(order, layout);
      LeafKeyCountOrderFree(root, layout - {q}, order[..|order| - 1]);
      if ChildCount(root, q) == 0 {
        assert LeafKeys(root, layout) == LeafKeys(root, layout - {q}) + {q};
      } else {
        assert LeafKeys(root, layout) == LeafKeys(root, layout - {q});
      }
    }
  }

  /** Whatever the iteration order, `render` shows the same text. */
  lemma RenderOrderFree<T>(root: Tree<T>, layout: Layout, order1: seq<Path>, order2: seq<Path>)
    requires IsKeyOrder(order1, layout) && IsKeyOrder(order2, layout) && KeysAreNodes(root, layout)
    ensures StatusText(|layout|, EdgeCount(root, order1), LeafKeyCount(root, order1))
         == StatusText(|layout|, EdgeCount(root, order2), LeafKeyCount(root, order2))
  {
    EdgeCountOrderFree(root, layout, order1);
    EdgeCountOrderFree(root, layout, order2);
    LeafKeyCountOrderFree(root, layout, order1);
    LeafKeyCountOrderFree(root, layout, order2);
  }
}
