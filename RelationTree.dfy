/**
 * `Assignment1/Anatomy/ANode`: `createTree` turns a list of relations into
 * nodes, one per id, linking every child below its parent, and returns a
 * node that is no relation's child, or null. The two path printers walk a
 * tree depth first, keeping the names from the root in a shared list, and
 * print the `" -> "`-joined list at every leaf (`printFilteredPaths` only
 * when the lowercased line contains every filter).
 *
 * The nodes refer to one another; `createTree` is modelled on an arena, the
 * map from id to node that it fills, with children held as ids (one node
 * per id, so an id names its node). The printers are modelled on the finite
 * tree of names such a node spans, and print into a sequence of lines.
 */
module RelationTree {
  import opened Wrappers
  import opened Trees
  import opened JavaText
  import opened RelationFile

  /** A node of the arena; `children` are ids in link order, repeats included. */
  datatype ANode = ANode(id: string, name: string, children: seq<string>)

  // ---------------------------------------------------------------------
  // createTree

  /** `computeIfAbsent(id, …)`: a new node named `name` only when `id` has none. */
  function Ensure(nodes: map<string, ANode>, id: string, name: string): (r: map<string, ANode>)
    ensures r.Keys == nodes.Keys + {id}
    ensures id !in nodes ==> r[id] == ANode(id, name, [])
    ensures forall k :: k in nodes ==> r[k] == nodes[k]
  {
    if id in nodes then nodes else nodes[id := ANode(id, name, [])]
  }

  /** One turn of the relation loop: both ends made if new, then the child appended to the parent. */
  function Link(nodes: map<string, ANode>, r: Relation): map<string, ANode>
  {
    var m := Ensure(Ensure(nodes, r.parentId, r.parentName), r.childId, r.childName);
    m[r.parentId := m[r.parentId].(children := m[r.parentId].children + [r.childId])]
  }

  /** The node map after the relations `rs`. */
  function NodeMap(rs: seq<Relation>): map<string, ANode>
  {
    if rs == [] then map[] else Link(NodeMap(rs[..|rs| - 1]), rs[|rs| - 1])
  }

  /** The `childIds` set after the relations `rs`. */
  function ChildIdSet(rs: seq<Relation>): set<string>
  {
    if rs == [] then {} else ChildIdSet(rs[..|rs| - 1]) + {rs[|rs| - 1].childId}
  }

  /** `createTree`: the nodes it makes and the id of the node it returns (`None` for null). */
  method CreateTree(relations: seq<Relation>) returns (nodes: map<string, ANode>, root: Option<string>)
    ensures nodes == NodeMap(relations)
    ensures root.None? <==> forall id :: id in nodes ==> id in ChildIdSet(relations)
    ensures root.Some? ==> root.value in nodes && root.value !in ChildIdSet(relations)
  {
    nodes := map[];
    var childIds: set<string> := {};
    for i := 0 to |relations|
      invariant nodes == NodeMap(relations[..i])
      invariant childIds == ChildIdSet(relations[..i])
    {
      assert relations[..i + 1][..i] == relations[..i];
      var r := relations[i];
      if r.parentId !in nodes {
        nodes := nodes[r.parentId := ANode(r.parentId, r.parentName, [])];
      }
      if r.childId !in nodes {
        nodes := nodes[r.childId := ANode(r.childId, r.childName, [])];
      }
      var parent := nodes[r.parentId];
      nodes := nodes[r.parentId := parent.(children := parent.children + [r.childId])];
      childIds := childIds + {r.childId};
    }
    assert relations[..|relations|] == relations;
    var rest := nodes.Keys;
    while rest != {}
      invariant rest <= nodes.Keys
      invariant forall id :: id in nodes && id !in rest ==> id in childIds
      decreases |rest|
    {
      var id :| id in rest;
      if id !in childIds {
        return nodes, Some(id);
      }
      rest := rest - {id};
    }
    return nodes, None;
  }

  /** Relation `r` names `id` as its parent or its child. */
  predicate Mentions(r: Relation, id: string)
  {
    r.parentId == id || r.childId == id
  }

  /** The name relation `r` gives `id`, the parent's when it names `id` at both ends. */
  function NameIn(r: Relation, id: string): string
  {
    if r.parentId == id then r.parentName else r.childName
  }

  /** The child ids of the relations whose parent is `id`, in relation order. */
  function ChildrenOf(rs: seq<Relation>, id: string): seq<string>
  {
    if rs == [] then []
    else ChildrenOf(rs[..|rs| - 1], id) + (if rs[|rs| - 1].parentId == id then [rs[|rs| - 1].childId] else [])
  }

  /** An id is recorded as a child iff some relation has it as its child. */
  lemma {:induction false} ChildIdSetMember(rs: seq<Relation>, id: string)
    ensures id in ChildIdSet(rs) <==> exists i :: 0 <= i < |rs| && rs[i].childId == id
  {
    if rs != [] {
      var init := rs[..|rs| - 1];
      ChildIdSetMember(init, id);
      assert forall i :: 0 <= i < |init| ==> init[i] == rs[i];
    }
  }

  /** One node per id that some relation mentions, and it carries that id. */
  lemma {:induction false} NodeMapKeys(rs: seq<Relation>, id: string)
    ensures id in NodeMap(rs) <==> exists i :: 0 <= i < |rs| && Mentions(rs[i], id)
    ensures id in NodeMap(rs) ==> NodeMap(rs)[id].id == id
  {
    if rs != [] {
      var init := rs[..|rs| - 1];
      NodeMapKeys(init, id);
      assert forall i :: 0 <= i < |init| ==> init[i] == rs[i];
    }
  }

  /** A node is named by the first relation that mentions its id: later names are ignored. */
  lemma {:induction false} NodeMapName(rs: seq<Relation>, id: string)
    requires id in NodeMap(rs)
    ensures exists i :: FirstMention(rs, i, id) && NodeMap(rs)[id].name == NameIn(rs[i], id)
  {
    var init := rs[..|rs| - 1];
    var r := rs[|rs| - 1];
    assert forall i :: 0 <= i < |init| ==> init[i] == rs[i];
    if id in NodeMap(init) {
      NodeMapName(init, id);
      var i :| FirstMention(init, i, id) && NodeMap(init)[id].name == NameIn(init[i], id);
      assert FirstMention(rs, i, id);
    } else {
      NodeMapKeys(init, id);
      assert FirstMention(rs, |rs| - 1, id);
    }
  }

  /** A node's children are the child ids of the relations below it, in order and with repeats. */
  lemma {:induction false} NodeMapChildren(rs: seq<Relation>, id: string)
    requires id in NodeMap(rs)
    ensures NodeMap(rs)[id].children == ChildrenOf(rs, id)
  {
    var init := rs[..|rs| - 1];
    if id in NodeMap(init) {
      NodeMapChildren(init, id);
    } else {
      NodeMapKeys(init, id);
      ChildrenOfUnmentioned(init, id);
    }
  }

  /** An id no relation mentions has no children. */
  lemma {:induction false} ChildrenOfUnmentioned(rs: seq<Relation>, id: string)
    requires forall i :: 0 <= i < |rs| ==> !Mentions(rs[i], id)
    ensures ChildrenOf(rs, id) == []
  {
    if rs != [] {
      var init := rs[..|rs| - 1];
      assert forall i :: 0 <= i < |init| ==> init[i] == rs[i];
      ChildrenOfUnmentioned(init, id);
    }
  }

  /** Relation `i` is the first to mention `id`. */
  predicate FirstMention(rs: seq<Relation>, i: int, id: string)
  {
    0 <= i < |rs| && Mentions(rs[i], id) && forall j :: 0 <= j < i ==> !Mentions(rs[j], id)
  }

  /** Every child id names a node of the map. */
  lemma {:induction false} NodeMapClosed(rs: seq<Relation>, id: string, k: nat)
    requires id in NodeMap(rs) && k < |NodeMap(rs)[id].children|
    ensures NodeMap(rs)[id].children[k] in NodeMap(rs)
  {
    NodeMapChildren(rs, id);
    var c := NodeMap(rs)[id].children[k];
    ChildrenOfMember(rs, id, k);
    var i :| 0 <= i < |rs| && rs[i].parentId == id && rs[i].childId == c;
    NodeMapKeys(rs, c);
  }

  /** Every entry of `ChildrenOf` comes from a relation below `id`. */
  lemma {:induction false} ChildrenOfMember(rs: seq<Relation>, id: string, k: nat)
    requires k < |ChildrenOf(rs, id)|
    ensures exists i :: 0 <= i < |rs| && rs[i].parentId == id && rs[i].childId == ChildrenOf(rs, id)[k]
  {
    var init := rs[..|rs| - 1];
    if k < |ChildrenOf(init, id)| {
      ChildrenOfMember(init, id, k);
      var i :| 0 <= i < |init| && init[i].parentId == id && init[i].childId == ChildrenOf(init, id)[k];
      assert rs[i] == init[i];
    } else {
      assert rs[|rs| - 1].parentId == id;
    }
  }

  // ---------------------------------------------------------------------
  // The path printers

  /** The name lists of the root-to-leaf paths of `t`, each after `prefix`, leaves from left to right. */
  function LeafPaths(prefix: seq<string>, t: Tree<string>): seq<seq<string>>
    decreases t, |t.children| + 1
  {
    if t.children == [] then [prefix + [t.data]] else LeafPathsBefore(prefix + [t.data], t, |t.children|)
  }

  /** The leaf paths below the first `k` children, each after `prefix`. */
  function LeafPathsBefore(prefix: seq<string>, t: Tree<string>, k: nat): seq<seq<string>>
    requires k <= |t.children|
    decreases t, k
  {
    if k == 0 then [] else LeafPathsBefore(prefix, t, k - 1) + LeafPaths(prefix, t.children[k - 1])
  }

  /** The printed form of each path. */
  function Lines(paths: seq<seq<string>>): seq<string>
  {
    if paths == [] then [] else Lines(paths[..|paths| - 1]) + [JoinWith(paths[|paths| - 1], " -> ")]
  }

  /** The lowercased line contains every filter. */
  predicate Matches(line: string, filters: seq<string>)
  {
    forall i :: 0 <= i < |filters| ==> Contains(ToLower(line), filters[i])
  }

  /** The paths whose printed form matches the filters, in order. */
  function Keep(paths: seq<seq<string>>, filters: seq<string>): seq<seq<string>>
  {
    if paths == [] then []
    else
      var p := paths[|paths| - 1];
      Keep(paths[..|paths| - 1], filters) + (if Matches(JoinWith(p, " -> "), filters) then [p] else [])
  }

  lemma {:induction false} LinesAppend(a: seq<seq<string>>, b: seq<seq<string>>)
    ensures Lines(a + b) == Lines(a) + Lines(b)
    decreases |b|
  {
    if b == [] {
      assert a + b == a;
    } else {
      assert (a + b)[..|a + b| - 1] == a + b[..|b| - 1];
      LinesAppend(a, b[..|b| - 1]);
    }
  }

  lemma {:induction false} KeepAppend(a: seq<seq<string>>, b: seq<seq<string>>, filters: seq<string>)
    ensures Keep(a + b, filters) == Keep(a, filters) + Keep(b, filters)
    decreases |b|
  {
    if b == [] {
      assert a + b == a;
    } else {
      assert (a + b)[..|a + b| - 1] == a + b[..|b| - 1];
      KeepAppend(a, b[..|b| - 1], filters);
    }
  }

  /** A path survives the filter iff it is among the paths and its line matches. */
  lemma {:induction false} KeepMember(paths: seq<seq<string>>, filters: seq<string>, p: seq<string>)
    ensures p in Keep(paths, filters) <==> p in paths && Matches(JoinWith(p, " -> "), filters)
  {
    if paths != [] {
      var init := paths[..|paths| - 1];
      KeepMember(init, filters, p);
      assert paths == init + [paths[|paths| - 1]];
    }
  }

  /** With no filter every path is printed. */
  lemma {:induction false} KeepNoFilter(paths: seq<seq<string>>)
    ensures Keep(paths, []) == paths
  {
    if paths != [] {
      KeepNoFilter(paths[..|paths| - 1]);
    }
  }

  /** One printed path per leaf. */
  lemma {:induction false} LeafPathsCount(prefix: seq<string>, t: Tree<string>)
    ensures |LeafPaths(prefix, t)| == Leaves(t)
    decreases t, |t.children| + 1
  {
    if t.children != [] {
      LeafPathsBeforeCount(prefix + [t.data], t, |t.children|);
    }
  }

  lemma {:induction false} LeafPathsBeforeCount(prefix: seq<string>, t: Tree<string>, k: nat)
    requires k <= |t.children|
    ensures |LeafPathsBefore(prefix, t, k)| == LeavesBefore(t, k)
    decreases t, k
  {
    if k > 0 {
      LeafPathsBeforeCount(prefix, t, k - 1);
      LeafPathsCount(prefix, t.children[k - 1]);
    }
  }

  /** Every printed path starts with the names already on the list, then the node's own name. */
  lemma {:induction false} LeafPathsStart(prefix: seq<string>, t: Tree<string>, p: seq<string>)
    requires p in LeafPaths(prefix, t)
    ensures |p| > |prefix| && p[..|prefix|] == prefix && p[|prefix|] == t.data
    decreases t, |t.children| + 1
  {
    if t.children != [] {
      LeafPathsBeforeStart(prefix + [t.data], t, |t.children|, p);
      assert p[..|prefix| + 1][..|prefix|] == p[..|prefix|];
    }
  }

  lemma {:induction false} LeafPathsBeforeStart(prefix: seq<string>, t: Tree<string>, k: nat, p: seq<string>)
    requires k <= |t.children| && p in LeafPathsBefore(prefix, t, k)
    ensures |p| >= |prefix| && p[..|prefix|] == prefix
    decreases t, k
  {
    if p in LeafPathsBefore(prefix, t, k - 1) {
      LeafPathsBeforeStart(prefix, t, k - 1, p);
    } else {
      LeafPathsStart(prefix, t.children[k - 1], p);
    }
  }

  /** The shared `path` list and the console, as the printers see them. */
  class PathPrinter {
    var path: seq<string>
    var printed: seq<string>

    constructor(path: seq<string>)
      ensures this.path == path && printed == []
    {
      this.path := path;
      printed := [];
    }

    /** `printAllPaths`: one line per leaf, and `path` as it was. */
    method PrintAllPaths(t: Tree<string>)
      modifies this
      ensures path == old(path)
      ensures printed == old(printed) + Lines(LeafPaths(old(path), t))
      decreases t, 1
    {
      path := path + [t.data];
      if t.children == [] {
        printed := printed + [JoinWith(path, " -> ")];
      } else {
        PrintChildren(t);
      }
      path := path[..|path| - 1];
    }

    /** The loop over the children of `t`, with the node's own name on the list. */
    method PrintChildren(t: Tree<string>)
      modifies this
      ensures path == old(path)
      ensures printed == old(printed) + Lines(LeafPathsBefore(old(path), t, |t.children|))
      decreases t, 0
    {
      ghost var start := printed;
      for i := 0 to |t.children|
        invariant path == old(path)
        invariant printed == start + Lines(LeafPathsBefore(path, t, i))
      {
        ghost var before := printed;
        PrintAllPaths(t.children[i]);
        LinesStep(path, t, i, start, before, printed);
      }
    }

    /** `printFilteredPaths`: the line of each leaf whose lowercased line contains every filter, and `path` as it was. */
    method PrintFilteredPaths(t: Tree<string>, filters: seq<string>)
      modifies this
      ensures path == old(path)
      ensures printed == old(printed) + Lines(Keep(LeafPaths(old(path), t), filters))
      decreases t, 1
    {
      path := path + [t.data];
      if t.children == [] {
        var fullPath := JoinWith(path, " -> ");
        if Matches(fullPath, filters) {
          printed := printed + [fullPath];
        }
      } else {
        PrintFilteredChildren(t, filters);
      }
      path := path[..|path| - 1];
    }

    method PrintFilteredChildren(t: Tree<string>, filters: seq<string>)
      modifies this
      ensures path == old(path)
      ensures printed == old(printed) + Lines(Keep(LeafPathsBefore(old(path), t, |t.children|), filters))
      decreases t, 0
    {
      ghost var start := printed;
      for i := 0 to |t.children|
        invariant path == old(path)
        invariant printed == start + Lines(Keep(LeafPathsBefore(path, t, i), filters))
      {
        ghost var before := printed;
        PrintFilteredPaths(t.children[i], filters);
        FilteredStep(path, t, i, filters, start, before, printed);
      }
    }
  }

  /** One child more in the printer loop. */
  lemma LinesStep(prefix: seq<string>, t: Tree<string>, i: nat, start: seq<string>, before: seq<string>, after: seq<string>)
    requires i < |t.children|
    requires before == start + Lines(LeafPathsBefore(prefix, t, i))
    requires after == before + Lines(LeafPaths(prefix, t.children[i]))
    ensures after == start + Lines(LeafPathsBefore(prefix, t, i + 1))
  {
    LinesAppend(LeafPathsBefore(prefix, t, i), LeafPaths(prefix, t.children[i]));
  }

  /** One child more in the filtered printer loop. */
  lemma FilteredStep(prefix: seq<string>, t: Tree<string>, i: nat, filters: seq<string>, start: seq<string>, before: seq<string>, after: seq<string>)
    requires i < |t.children|
    requires before == start + Lines(Keep(LeafPathsBefore(prefix, t, i), filters))
    requires after == before + Lines(Keep(LeafPaths(prefix, t.children[i]), filters))
    ensures after == start + Lines(Keep(LeafPathsBefore(prefix, t, i + 1), filters))
  {
    KeepAppend(LeafPathsBefore(prefix, t, i), LeafPaths(prefix, t.children[i]), filters);
    LinesAppend(Keep(LeafPathsBefore(prefix, t, i), filters), Keep(LeafPaths(prefix, t.children[i]), filters));
  }
}
