/**
 * `assignment02/anatomy/TreeLoader`: after the three tables are parsed
 * (as in `TableParse`), one node is allocated per named concept, then each
 * parent's child list is filled with those of its recorded child ids that
 * have a node, and the root is some named concept without a recorded
 * parent.
 *
 * The nodes point to one another; here they live in an arena, a map from
 * concept id to record, and a record's children are the ids of its child
 * nodes.
 */
module A02TreeLoader {
  import opened Wrappers
  import opened TableParse
  import opened Sums

  /** One allocated node: its fields, with the ids of its linked children in link order. */
  datatype Record = Record(
    conceptId: string, representationId: string, name: string,
    children: seq<string>, fileIds: seq<string>)

  /** The arena and the id of the node `load` returns. */
  datatype Graph = Graph(root: string, nodes: map<string, Record>)

  /** The node step 4 allocates for a named id: no children yet. */
  function NewRecord(t: Tables, id: string): Record
    requires id in t.names
  {
    Record(id, GetOr(t.representationIds, id, ""), t.names[id], [], GetOr(t.fileIdsMap, id, []))
  }

  /** The ids of `ids` that have a node, in order, repeats kept. */
  function Known(ids: seq<string>, nodes: set<string>): (r: seq<string>)
    ensures |r| <= |ids|
    ensures forall i :: 0 <= i < |r| ==> r[i] in nodes
  {
    if ids == [] then []
    else Known(ids[..|ids| - 1], nodes) + (if ids[|ids| - 1] in nodes then [ids[|ids| - 1]] else [])
  }

  /** Every id that has a node survives the filter. */
  lemma {:induction false} KnownKeeps(ids: seq<string>, nodes: set<string>)
    ensures forall x :: x in ids && x in nodes ==> x in Known(ids, nodes)
    ensures forall x :: x in Known(ids, nodes) ==> x in ids
  {
    if ids != [] {
      KnownKeeps(ids[..|ids| - 1], nodes);
      assert forall x :: x in ids ==> x in ids[..|ids| - 1] || x == ids[|ids| - 1];
    }
  }

  /** Every node after step 5: the child list holds the known child ids of the concept. */
  function Linked(t: Tables): map<string, Record>
  {
    map id | id in t.names :: NewRecord(t, id).(children := Known(GetOr(t.childrenMap, id, []), t.names.Keys))
  }

  /** Step 4: one node per key of `names`. */
  method CreateNodes(t: Tables) returns (nodes: map<string, Record>)
    ensures nodes == map id | id in t.names :: NewRecord(t, id)
  {
    nodes := map[];
    var keys := t.names.Keys;
    while keys != {}
      invariant keys <= t.names.Keys
      invariant nodes == map id | id in t.names && id !in keys :: NewRecord(t, id)
      decreases |keys|
    {
      var conceptId :| conceptId in keys;
      nodes := nodes[conceptId := NewRecord(t, conceptId)];
      keys := keys - {conceptId};
    }
  }

  /** The inner loop of step 5: the children of one parent. */
  method LinkOne(ids: seq<string>, nodes: map<string, Record>) returns (children: seq<string>)
    ensures children == Known(ids, nodes.Keys)
  {
    children := [];
    for i := 0 to |ids|
      invariant children == Known(ids[..i], nodes.Keys)
    {
      assert ids[..i + 1][..i] == ids[..i];
      var childId := ids[i];
      if childId in nodes {
        children := children + [childId];
      }
    }
    assert ids[..|ids|] == ids;
  }

  /** The arena once every parent outside `pending` has been linked. */
  function Stage(t: Tables, pending: set<string>): map<string, Record>
  {
    map id | id in t.names ::
      NewRecord(t, id).(children := if id in pending then [] else Known(GetOr(t.childrenMap, id, []), t.names.Keys))
  }

  /** Linking parent `p` turns one stage into the next. */
  lemma StageStep(t: Tables, pending: set<string>, p: string)
    requires p in pending && p in t.childrenMap
    ensures p in t.names ==>
      Stage(t, pending - {p}) == Stage(t, pending)[p := Stage(t, pending)[p].(children := Known(t.childrenMap[p], t.names.Keys))]
    ensures p !in t.names ==> Stage(t, pending - {p}) == Stage(t, pending)
  {
  }

  /** Every stage has one node per named concept. */
  lemma StageKeys(t: Tables, pending: set<string>)
    ensures Stage(t, pending).Keys == t.names.Keys
  {
    forall id | id in t.names
      ensures id in Stage(t, pending)
    {
    }
  }

  /** Before any linking every node is as allocated; after all of it the arena is `Linked`. */
  lemma StageEnds(t: Tables)
    ensures Stage(t, t.childrenMap.Keys) == map id | id in t.names :: NewRecord(t, id)
    ensures Stage(t, {}) == Linked(t)
  {
  }

  /**
   * Step 5: for each parent of `childrenMap` that has a node, its known child
   * ids. Parents are taken in any order: each fills only its own list.
   */
  method LinkChildren(t: Tables, created: map<string, Record>) returns (nodes: map<string, Record>)
    requires created == map id | id in t.names :: NewRecord(t, id)
    ensures nodes == Linked(t)
  {
    nodes := created;
    var parents := t.childrenMap.Keys;
    StageEnds(t);
    while parents != {}
      invariant parents <= t.childrenMap.Keys
      invariant nodes == Stage(t, parents)
      decreases |parents|
    {
      var parentId :| parentId in parents;
      StageStep(t, parents, parentId);
      StageKeys(t, parents);
      if parentId in nodes {
        var children := LinkOne(t.childrenMap[parentId], nodes);
        assert children == Known(t.childrenMap[parentId], t.names.Keys);
        nodes := nodes[parentId := nodes[parentId].(children := children)];
      }
      parents := parents - {parentId};
    }
  }

  /**
   * `load`: the tables, the nodes, the links, then a root among the named
   * concepts without a recorded parent (any of them: the `HashMap` key set
   * decides which in the Java program).
   */
  method Load(
    partsFile: string, parts: Option<seq<string>>,
    elementsFile: string, elements: Option<seq<string>>,
    relationsFile: string, relations: Option<seq<string>>)
    returns (r: Result<Graph, LoadError>)
    ensures var tr := TablesResult(partsFile, parts, elementsFile, elements, relationsFile, relations);
      && (tr.Err? ==> r == Err(tr.error))
      && (tr.Ok? ==> (r.Err? <==> forall id :: id in tr.value.names ==> id in tr.value.parentMap))
      && (r.Err? && tr.Ok? ==> r.error == NoRootNode)
      && (r.Ok? ==> tr.Ok? && r.value.nodes == Linked(tr.value) &&
                    r.value.root in tr.value.names && r.value.root !in tr.value.parentMap)
  {
    var tables := LoadTables(partsFile, parts, elementsFile, elements, relationsFile, relations);
    if tables.Err? {
      return Err(tables.error);
    }
    var t := tables.value;
    var created := CreateNodes(t);
    var nodes := LinkChildren(t, created);
    if forall id :: id in t.names ==> id in t.parentMap {
      return Err(NoRootNode);
    }
    var rootId :| rootId in t.names && rootId !in t.parentMap;
    return Ok(Graph(rootId, nodes));
  }

  // ---------------------------------------------------------------------
  // What the links are

  /** Exactly one node per named concept, with its table entries; children are nodes of the arena. */
  lemma LinkedNodes(t: Tables, id: string)
    ensures id in Linked(t) <==> id in t.names
    ensures id in Linked(t) ==>
      var n := Linked(t)[id];
      && n.conceptId == id && n.name == t.names[id]
      && n.representationId == GetOr(t.representationIds, id, "")
      && n.fileIds == GetOr(t.fileIdsMap, id, [])
      && (forall c :: c in n.children ==> c in Linked(t))
      && (forall c :: c in n.children <==> c in GetOr(t.childrenMap, id, []) && c in t.names)
  {
    if id in t.names {
      KnownKeeps(GetOr(t.childrenMap, id, []), t.names.Keys);
    }
  }

  /** The number of links each node gets. */
  function LinkCounts(rows: seq<seq<string>>, names: set<string>): map<string, nat>
  {
    map p | p in names :: |Known(Collect(rows, 4, 0, 2, p), names)|
  }

  /** The relation rows of at least four fields whose parent and child are both named. */
  function KnownRows(rows: seq<seq<string>>, names: set<string>): nat
  {
    if rows == [] then 0
    else
      var row := rows[|rows| - 1];
      KnownRows(rows[..|rows| - 1], names) + (if |row| >= 4 && row[0] in names && row[2] in names then 1 else 0)
  }

  lemma KnownSnoc(ids: seq<string>, c: string, names: set<string>)
    ensures Known(ids + [c], names) == Known(ids, names) + (if c in names then [c] else [])
  {
    assert (ids + [c])[..|ids|] == ids;
  }

  /** One more row lengthens the collected children of its own parent only. */
  lemma CollectSnoc(rows: seq<seq<string>>, row: seq<string>, p: string)
    ensures Collect(rows + [row], 4, 0, 2, p) ==
      Collect(rows, 4, 0, 2, p) + (if |row| >= 4 && row[0] == p then [row[2]] else [])
  {
    assert (rows + [row])[..|rows|] == rows;
  }

  /** One more row changes the link count of its parent only, by one when both ends are named. */
  lemma LinkCountsSnoc(rows: seq<seq<string>>, row: seq<string>, names: set<string>)
    ensures var m := LinkCounts(rows, names);
      if |row| >= 4 && row[0] in names then
        LinkCounts(rows + [row], names) == m[row[0] := m[row[0]] + (if row[2] in names then 1 else 0)]
      else LinkCounts(rows + [row], names) == m
  {
    var m := LinkCounts(rows, names);
    var m' := LinkCounts(rows + [row], names);
    forall p | p in names
      ensures m'[p] == m[p] + (if |row| >= 4 && row[0] == p && row[2] in names then 1 else 0)
    {
      CollectSnoc(rows, row, p);
      var c := Collect(rows, 4, 0, 2, p);
      if |row| >= 4 && row[0] == p {
        KnownSnoc(c, row[2], names);
      } else {
        assert c + [] == c;
      }
    }
  }

  /**
   * The links in the arena, summed over all nodes, are exactly the relation
   * rows whose parent and child are both named concepts.
   */
  lemma {:induction false} TotalLinks(rows: seq<seq<string>>, names: set<string>)
    ensures SumValues(LinkCounts(rows, names)) == KnownRows(rows, names)
    decreases |rows|
  {
    if rows == [] {
      forall p | p in names
        ensures LinkCounts(rows, names)[p] == 0
      {
        assert Collect(rows, 4, 0, 2, p) == [];
      }
      ZeroSum(LinkCounts(rows, names));
    } else {
      var init := rows[..|rows| - 1];
      var row := rows[|rows| - 1];
      assert init + [row] == rows;
      TotalLinks(init, names);
      LinkCountsSnoc(init, row, names);
      var m := LinkCounts(init, names);
      if |row| >= 4 && row[0] in names {
        SumValuesUpdate(m, row[0], m[row[0]] + (if row[2] in names then 1 else 0));
      }
    }
  }

  lemma {:induction false} ZeroSum(m: map<string, nat>)
    requires forall k :: k in m ==> m[k] == 0
    ensures SumValues(m) == 0
    decreases |m|
  {
    if m.Keys != {} {
      var k :| k in m;
      SumValuesRemove(m, k);
      ZeroSum(m - {k});
    }
  }

  /** The number of children of every node of the arena. */
  function ChildCounts(nodes: map<string, Record>): map<string, nat>
  {
    map id | id in nodes :: |nodes[id].children|
  }

  /** The link count of each node of the arena is its number of children. */
  lemma LinkedCounts(t: Tables, rows: seq<seq<string>>)
    requires t.childrenMap == Group(rows, 4, 0, 2)
    ensures ChildCounts(Linked(t)) == LinkCounts(rows, t.names.Keys)
  {
    forall p | p in t.names
      ensures GetOr(t.childrenMap, p, []) == Collect(rows, 4, 0, 2, p)
    {
      GroupCollects(rows, 4, 0, 2, p);
    }
  }

  /**
   * The total number of child links of a loaded arena is the number of
   * relation rows whose parent and child are both named concepts.
   */
  lemma LoadedLinks(parts: seq<string>, elements: seq<string>, relations: seq<string>)
    ensures var t := TablesOf(parts, elements, relations);
      SumValues(ChildCounts(Linked(t))) == KnownRows(TokenRows(relations), t.names.Keys)
  {
    var t := TablesOf(parts, elements, relations);
    LinkedCounts(t, TokenRows(relations));
    TotalLinks(TokenRows(relations), t.names.Keys);
  }
}
