/**
 * `HumanAnatomyViewer/model/TreeLoader`: after the three tables are parsed,
 * the root is some named concept that has no recorded parent, and the tree
 * is built from it by `buildTree`, which recursively builds a node for
 * every id in the parent's child list. Ids that the parts table does not
 * name get "" as representation id and name and no file ids.
 *
 * The recursion follows the child lists without any check, so a cycle
 * among them never ends; in the Java program it ends with a
 * `StackOverflowError`. The model gives `buildTree` the number of nested
 * calls the stack can hold, `stack`, and fails with `StackOverflow` when
 * the recursion goes deeper.
 */
module HavTreeLoader {
  import opened Wrappers
  import opened Trees
  import opened TableParse

  /** The record of one node: concept id, representation id, name and file ids. */
  datatype Part = Part(conceptId: string, representationId: string, name: string, fileIds: seq<string>)

  /** The record `buildTree` makes for `id`, with the defaults for missing entries. */
  function PartOf(t: Tables, id: string): Part
  {
    Part(id, GetOr(t.representationIds, id, ""), GetOr(t.names, id, ""), GetOr(t.fileIdsMap, id, []))
  }

  /** `childrenMap.getOrDefault(id, List.of())`. */
  function ChildIds(t: Tables, id: string): seq<string>
  {
    GetOr(t.childrenMap, id, [])
  }

  /** `buildTree(id, …)` with room for `stack` nested calls; `None` when the stack overflows. */
  function Build(t: Tables, id: string, stack: nat): Option<Tree<Part>>
    decreases stack, 1, 0
  {
    if stack == 0 then None
    else
      match BuildAll(t, ChildIds(t, id), stack)
      case None => None
      case Some(children) => Some(Node(PartOf(t, id), children))
  }

  /** The subtrees for the child ids `ids`, each built one call deeper. */
  function BuildAll(t: Tables, ids: seq<string>, stack: nat): Option<seq<Tree<Part>>>
    requires stack > 0
    decreases stack, 0, |ids|
  {
    if ids == [] then Some([])
    else
      match BuildAll(t, ids[..|ids| - 1], stack)
      case None => None
      case Some(built) =>
        match Build(t, ids[|ids| - 1], stack - 1)
        case None => None
        case Some(c) => Some(built + [c])
  }

  /** Once a child's subtree overflows, the whole list does. */
  lemma {:induction false} BuildAllNone(t: Tables, ids: seq<string>, i: nat, stack: nat)
    requires stack > 0 && i < |ids| && BuildAll(t, ids[..i + 1], stack).None?
    ensures BuildAll(t, ids, stack).None?
    decreases |ids| - i
  {
    if i + 1 == |ids| {
      assert ids[..i + 1] == ids;
    } else {
      assert ids[..i + 2][..i + 1] == ids[..i + 1];
      BuildAllNone(t, ids, i + 1, stack);
    }
  }

  /** The subtree list has one tree per id, in order, each the subtree built for that id. */
  lemma {:induction false} BuildAllShape(t: Tables, ids: seq<string>, stack: nat)
    requires stack > 0 && BuildAll(t, ids, stack).Some?
    ensures |BuildAll(t, ids, stack).value| == |ids|
    ensures forall i :: 0 <= i < |ids| ==> Build(t, ids[i], stack - 1) == Some(BuildAll(t, ids, stack).value[i])
    decreases |ids|
  {
    if ids != [] {
      BuildAllShape(t, ids[..|ids| - 1], stack);
    }
  }

  /**
   * A built node carries `id` with its table entries or the defaults, and
   * its children are the subtrees built for its child ids, in list order.
   */
  lemma BuildShape(t: Tables, id: string, stack: nat)
    requires Build(t, id, stack).Some?
    ensures var n := Build(t, id, stack).value;
      && n.data == PartOf(t, id)
      && n.data.conceptId == id
      && (id !in t.names ==> n.data.name == "" && (id !in t.representationIds ==> n.data.representationId == ""))
      && |n.children| == |ChildIds(t, id)|
      && forall i :: 0 <= i < |n.children| ==>
           n.children[i].data.conceptId == ChildIds(t, id)[i] &&
           Build(t, ChildIds(t, id)[i], stack - 1) == Some(n.children[i])
  {
    BuildAllShape(t, ChildIds(t, id), stack);
    var n := Build(t, id, stack).value;
    forall i | 0 <= i < |n.children|
      ensures n.children[i].data.conceptId == ChildIds(t, id)[i]
    {
      var c := ChildIds(t, id)[i];
      assert Build(t, c, stack - 1) == Some(n.children[i]);
      assert Build(t, c, stack - 1).value.data == PartOf(t, c);
    }
  }

  /** `rank` strictly decreases from every parent to each of its children: the child lists have no cycle. */
  predicate Ranked(t: Tables, rank: map<string, nat>)
  {
    forall p, i :: p in t.childrenMap && 0 <= i < |t.childrenMap[p]| ==>
      GetOr(rank, t.childrenMap[p][i], 0) < GetOr(rank, p, 0)
  }

  /** Without a cycle, a stack deeper than the rank of `id` builds the whole tree. */
  lemma {:induction false} BuildSucceeds(t: Tables, id: string, stack: nat, rank: map<string, nat>)
    requires Ranked(t, rank) && GetOr(rank, id, 0) < stack
    ensures Build(t, id, stack).Some?
    decreases stack, 1, 0
  {
    BuildAllSucceeds(t, id, |ChildIds(t, id)|, stack, rank);
    assert ChildIds(t, id)[..|ChildIds(t, id)|] == ChildIds(t, id);
  }

  lemma {:induction false} BuildAllSucceeds(t: Tables, id: string, k: nat, stack: nat, rank: map<string, nat>)
    requires Ranked(t, rank) && GetOr(rank, id, 0) < stack && k <= |ChildIds(t, id)|
    ensures BuildAll(t, ChildIds(t, id)[..k], stack).Some?
    decreases stack, 0, k
  {
    if k > 0 {
      var ids := ChildIds(t, id);
      assert ids[..k][..k - 1] == ids[..k - 1];
      BuildAllSucceeds(t, id, k - 1, stack, rank);
      assert id in t.childrenMap && GetOr(rank, ids[k - 1], 0) < GetOr(rank, id, 0);
      BuildSucceeds(t, ids[k - 1], stack - 1, rank);
    }
  }

  /** When some child's subtree overflows, so does the parent's. */
  lemma BuildAllMember(t: Tables, ids: seq<string>, i: nat, stack: nat)
    requires stack > 0 && i < |ids| && Build(t, ids[i], stack - 1).None?
    ensures BuildAll(t, ids, stack).None?
  {
    var prefix := ids[..i + 1];
    assert prefix[..i] == ids[..i] && prefix[i] == ids[i];
    BuildAllNone(t, ids, i, stack);
  }

  /** `x` has a child id in `cycle`. */
  predicate HasChildIn(t: Tables, cycle: set<string>, x: string)
  {
    exists i :: 0 <= i < |ChildIds(t, x)| && ChildIds(t, x)[i] in cycle
  }

  /**
   * A cycle overflows the stack: if every id of a set has a child id in the
   * same set, building from any of them never finishes.
   */
  lemma {:induction false} CycleOverflows(t: Tables, cycle: set<string>, id: string, stack: nat)
    requires id in cycle
    requires forall x :: x in cycle ==> HasChildIn(t, cycle, x)
    ensures Build(t, id, stack).None?
    decreases stack
  {
    if stack > 0 {
      var i :| 0 <= i < |ChildIds(t, id)| && ChildIds(t, id)[i] in cycle;
      CycleOverflows(t, cycle, ChildIds(t, id)[i], stack - 1);
      BuildAllMember(t, ChildIds(t, id), i, stack);
    }
  }

  /** `buildTree`: the loop over the child ids, each built by a nested call. */
  method BuildTree(t: Tables, id: string, stack: nat) returns (r: Option<Tree<Part>>)
    ensures r == Build(t, id, stack)
    decreases stack
  {
    if stack == 0 {
      return None;
    }
    var ids := ChildIds(t, id);
    var children: seq<Tree<Part>> := [];
    for i := 0 to |ids|
      invariant BuildAll(t, ids[..i], stack) == Some(children)
    {
      var child := BuildTree(t, ids[i], stack - 1);
      assert ids[..i + 1][..i] == ids[..i];
      if child.None? {
        BuildAllNone(t, ids, i, stack);
        return None;
      }
      children := children + [child.value];
    }
    assert ids[..|ids|] == ids;
    return Some(Node(PartOf(t, id), children));
  }

  /** Ids `findFirst` may return: named and without a recorded parent. */
  predicate IsRootCandidate(t: Tables, id: string)
  {
    id in t.names && id !in t.parentMap
  }

  /**
   * Without a cycle, and with a stack deeper than the rank of every named
   * concept, every root candidate builds, so `Load` succeeds.
   */
  lemma AcyclicCandidatesBuild(t: Tables, stack: nat, rank: map<string, nat>)
    requires Ranked(t, rank)
    requires forall id :: id in t.names ==> GetOr(rank, id, 0) < stack
    ensures forall id :: IsRootCandidate(t, id) ==> Build(t, id, stack).Some?
  {
    forall id | IsRootCandidate(t, id)
      ensures Build(t, id, stack).Some?
    {
      BuildSucceeds(t, id, stack, rank);
    }
  }

  /**
   * `load`: the tables, then a root, then its tree. Which candidate the
   * `HashMap` key set yields first is not fixed here: the root is any
   * candidate.
   */
  method Load(
    partsFile: string, parts: Option<seq<string>>,
    elementsFile: string, elements: Option<seq<string>>,
    relationsFile: string, relations: Option<seq<string>>,
    stack: nat)
    returns (r: Result<Tree<Part>, LoadError>)
    ensures var tr := TablesResult(partsFile, parts, elementsFile, elements, relationsFile, relations);
      && (tr.Err? ==> r == Err(tr.error))
      && (tr.Ok? ==> (r == Err(NoRootNode) <==> forall id :: id in tr.value.names ==> id in tr.value.parentMap))
      && (r.Ok? ==> tr.Ok? && IsRootCandidate(tr.value, r.value.data.conceptId) &&
                    Build(tr.value, r.value.data.conceptId, stack) == Some(r.value))
      && (r.Err? && r.error == StackOverflow ==>
            tr.Ok? && exists id :: IsRootCandidate(tr.value, id) && Build(tr.value, id, stack).None?)
      && (tr.Ok? && (exists id :: IsRootCandidate(tr.value, id)) ==> r.Ok? || r == Err(StackOverflow))
      && ((tr.Ok? && (exists id :: IsRootCandidate(tr.value, id)) &&
           (forall id :: IsRootCandidate(tr.value, id) ==> Build(tr.value, id, stack).Some?)) ==> r.Ok?)
  {
    var tables := LoadTables(partsFile, parts, elementsFile, elements, relationsFile, relations);
    if tables.Err? {
      return Err(tables.error);
    }
    var t := tables.value;
    if forall id :: id in t.names ==> id in t.parentMap {
      return Err(NoRootNode);
    }
    var rootId :| rootId in t.names && rootId !in t.parentMap;
    var tree := BuildTree(t, rootId, stack);
    if tree.None? {
      return Err(StackOverflow);
    }
    BuildShape(t, rootId, stack);
    return Ok(tree.value);
  }
}
