/**
 * `assignment4/model/TreeLoader`: three streams of tab-separated lines, each
 * with one header line skipped. Every parts row makes a node and registers
 * it under its concept id, its representation id and its name; an elements
 * row adds a file id to the node found under its first field; a relations
 * row links the nodes found under its parent and child fields when both
 * exist. The result is a node whose concept id no link names as a child, or
 * null.
 *
 * Lines are split at tabs without trimming and without a check on the
 * number of fields: a row with fewer than three fields raises an index
 * error, here `MissingColumn`.
 *
 * The nodes point to one another; here they live in an arena, the list of
 * nodes in parts-row order, and the key map and the child lists hold arena
 * indices.
 */
module A4TreeLoader {
  import opened Wrappers
  import opened JavaText

  /** A node of the arena; `children` are arena indices in link order. */
  datatype Node = Node(conceptId: string, representationId: string, name: string, children: seq<nat>, fileIds: set<string>)

  datatype Table = Parts | Elements | Relations

  /** `tokens[1]` or `tokens[2]` past the end of a row of `table`; `row` counts data rows from 0. */
  datatype LoadError = MissingColumn(table: Table, row: nat)

  /** The arena, and the index of the node `load` returns (`None` for null). */
  datatype Loaded = Loaded(nodes: seq<Node>, root: Option<nat>)

  /** The lines `readLine` returns after the header. */
  function AfterHeader(lines: seq<string>): seq<string>
  {
    if lines == [] then [] else lines[1..]
  }

  /** `line.split("\\t")` for every row. */
  function TokenRows(rows: seq<string>): (r: seq<seq<string>>)
    ensures |r| == |rows|
  {
    if rows == [] then [] else TokenRows(rows[..|rows| - 1]) + [Split(rows[|rows| - 1], '\t')]
  }

  lemma TokenRowsPrefix(rows: seq<string>, i: nat)
    requires i < |rows|
    ensures TokenRows(rows[..i + 1]) == TokenRows(rows[..i]) + [Split(rows[i], '\t')]
  {
    assert rows[..i + 1][..i] == rows[..i];
  }

  /** Every key map of the arena points into the arena. */
  predicate KeysInArena(nodes: seq<Node>, keys: map<string, nat>)
  {
    forall k :: k in keys ==> keys[k] < |nodes|
  }

  // ---------------------------------------------------------------------
  // Parts: one node per row, three keys per node

  /** The node a parts row makes. */
  function NewNode(row: seq<string>): Node
    requires |row| >= 3
  {
    Node(row[0], row[1], row[2], [], {})
  }

  /** The nodes and the key map after the parts rows, or the first row that is too short. */
  function PartsOf(rows: seq<seq<string>>): Result<(seq<Node>, map<string, nat>), LoadError>
  {
    if rows == [] then Ok(([], map[]))
    else
      match PartsOf(rows[..|rows| - 1])
      case Err(e) => Err(e)
      case Ok((nodes, keys)) =>
        var row := rows[|rows| - 1];
        var j := |rows| - 1;
        if |row| < 3 then Err(MissingColumn(Parts, j))
        else Ok((nodes + [NewNode(row)], keys[row[0] := j][row[1] := j][row[2] := j]))
  }

  /** Row `j` carries `k` as its concept id, representation id or name. */
  predicate Names(rows: seq<seq<string>>, j: int, k: string)
  {
    0 <= j < |rows| && |rows[j]| >= 3 && (rows[j][0] == k || rows[j][1] == k || rows[j][2] == k)
  }

  /** The first row with fewer than three fields, if any. */
  function FirstShort(rows: seq<seq<string>>): (r: Option<nat>)
    ensures r.None? <==> forall j :: 0 <= j < |rows| ==> |rows[j]| >= 3
    ensures r.Some? ==> r.value < |rows| && |rows[r.value]| < 3 && forall j :: 0 <= j < r.value ==> |rows[j]| >= 3
  {
    if rows == [] then None
    else
      var f := FirstShort(rows[..|rows| - 1]);
      assert forall j :: 0 <= j < |rows| - 1 ==> rows[..|rows| - 1][j] == rows[j];
      if f.Some? then f else if |rows[|rows| - 1]| < 3 then Some(|rows| - 1) else None
  }

  /** The parts phase fails exactly at the first row with fewer than three fields, and otherwise makes one node per row, with that row's fields. */
  lemma {:induction false} PartsShape(rows: seq<seq<string>>)
    ensures PartsOf(rows).Err? <==> FirstShort(rows).Some?
    ensures PartsOf(rows).Err? ==> PartsOf(rows).error == MissingColumn(Parts, FirstShort(rows).value)
    ensures PartsOf(rows).Ok? ==> var (nodes, keys) := PartsOf(rows).value;
      && |nodes| == |rows|
      && (forall j :: 0 <= j < |rows| ==> nodes[j] == NewNode(rows[j]))
      && KeysInArena(nodes, keys)
  {
    if rows != [] {
      var init := rows[..|rows| - 1];
      PartsShape(init);
      assert forall j :: 0 <= j < |init| ==> init[j] == rows[j];
    }
  }

  /** A key resolves iff some row names it, and then to the last row that does: later rows win. */
  lemma {:induction false} PartsKeys(rows: seq<seq<string>>, k: string)
    requires PartsOf(rows).Ok?
    ensures var keys := PartsOf(rows).value.1;
      && (k in keys <==> exists j :: Names(rows, j, k))
      && (k in keys ==> Names(rows, keys[k], k) && forall j :: keys[k] < j < |rows| ==> !Names(rows, j, k))
  {
    if rows != [] {
      var init := rows[..|rows| - 1];
      var last := |rows| - 1;
      PartsKeys(init, k);
      assert forall j :: 0 <= j < |init| ==> (Names(init, j, k) <==> Names(rows, j, k));
      if !Names(rows, last, k) {
        assert forall j :: Names(rows, j, k) ==> Names(init, j, k);
      } else {
        assert PartsOf(rows).value.1[k] == last;
      }
    }
  }

  method LoadParts(rows: seq<string>) returns (r: Result<(seq<Node>, map<string, nat>), LoadError>)
    ensures r == PartsOf(TokenRows(rows))
  {
    var nodes: seq<Node> := [];
    var keys: map<string, nat> := map[];
    for i := 0 to |rows|
      invariant PartsOf(TokenRows(rows[..i])) == Ok((nodes, keys))
    {
      var tokens := Split(rows[i], '\t');
      TokenRowsPrefix(rows, i);
      PartsSnoc(TokenRows(rows[..i]), tokens);
      if |tokens| < 3 {
        PartsPrefixErr(rows, i + 1);
        return Err(MissingColumn(Parts, i));
      }
      var node := NewNode(tokens);
      nodes := nodes + [node];
      keys := keys[tokens[0] := i];
      keys := keys[tokens[1] := i];
      keys := keys[tokens[2] := i];
    }
    assert rows[..|rows|] == rows;
    return Ok((nodes, keys));
  }

  lemma PartsSnoc(rows: seq<seq<string>>, row: seq<string>)
    ensures PartsOf(rows + [row]) ==
      match PartsOf(rows)
      case Err(e) => Err(e)
      case Ok((nodes, keys)) =>
        if |row| < 3 then Err(MissingColumn(Parts, |rows|))
        else Ok((nodes + [NewNode(row)], keys[row[0] := |rows|][row[1] := |rows|][row[2] := |rows|]))
  {
    assert (rows + [row])[..|rows|] == rows;
  }

  /** A failure in the first `k` lines is the failure of all of them. */
  lemma PartsPrefixErr(rows: seq<string>, k: nat)
    requires k <= |rows| && PartsOf(TokenRows(rows[..k])).Err?
    ensures PartsOf(TokenRows(rows)) == PartsOf(TokenRows(rows[..k]))
  {
    TokenRowsTake(rows, k);
    PartsShape(TokenRows(rows[..k]));
    PartsShape(TokenRows(rows));
    FirstShortPrefix(TokenRows(rows), k);
  }

  /** A short row among the first `k` is the first short row of all. */
  lemma {:induction false} FirstShortPrefix(rows: seq<seq<string>>, k: nat)
    requires k <= |rows| && FirstShort(rows[..k]).Some?
    ensures FirstShort(rows) == FirstShort(rows[..k])
    decreases |rows|
  {
    if k == |rows| {
      assert rows[..k] == rows;
    } else {
      var init := rows[..|rows| - 1];
      assert init[..k] == rows[..k];
      FirstShortPrefix(init, k);
    }
  }

  /** The tokens of a prefix of the lines are a prefix of the tokens. */
  lemma {:induction false} TokenRowsTake(rows: seq<string>, k: nat)
    requires k <= |rows|
    ensures TokenRows(rows[..k]) == TokenRows(rows)[..k]
    decreases |rows|
  {
    if k < |rows| {
      var init := rows[..|rows| - 1];
      TokenRowsTake(init, k);
      assert init[..k] == rows[..k];
    } else {
      assert rows[..k] == rows;
    }
  }

  // ---------------------------------------------------------------------
  // Elements: file ids

  /** The nodes after the elements rows: each long enough row adds its file id to the node of its key. */
  function ElementsOf(rows: seq<seq<string>>, nodes: seq<Node>, keys: map<string, nat>): Result<seq<Node>, LoadError>
  {
    if rows == [] then Ok(nodes)
    else
      match ElementsOf(rows[..|rows| - 1], nodes, keys)
      case Err(e) => Err(e)
      case Ok(current) =>
        var row := rows[|rows| - 1];
        if |row| < 3 then Err(MissingColumn(Elements, |rows| - 1))
        else if row[0] in keys && keys[row[0]] < |current| then
          var n := keys[row[0]];
          Ok(current[n := current[n].(fileIds := current[n].fileIds + {row[2]})])
        else Ok(current)
  }

  /** The file ids the elements rows give the node at index `n`. */
  function FileIdsOf(rows: seq<seq<string>>, keys: map<string, nat>, n: nat): set<string>
  {
    if rows == [] then {}
    else
      var row := rows[|rows| - 1];
      FileIdsOf(rows[..|rows| - 1], keys, n) + (if |row| >= 3 && row[0] in keys && keys[row[0]] == n then {row[2]} else {})
  }

  /**
   * The elements phase fails exactly at the first short row; otherwise each
   * node gains the file ids of the rows whose key resolves to it, and keeps
   * everything else.
   */
  lemma {:induction false} ElementsFacts(rows: seq<seq<string>>, nodes: seq<Node>, keys: map<string, nat>)
    requires KeysInArena(nodes, keys)
    ensures ElementsOf(rows, nodes, keys).Err? <==> FirstShort(rows).Some?
    ensures ElementsOf(rows, nodes, keys).Err? ==> ElementsOf(rows, nodes, keys).error == MissingColumn(Elements, FirstShort(rows).value)
    ensures ElementsOf(rows, nodes, keys).Ok? ==> var r := ElementsOf(rows, nodes, keys).value;
      |r| == |nodes| && forall n :: 0 <= n < |nodes| ==> r[n] == nodes[n].(fileIds := nodes[n].fileIds + FileIdsOf(rows, keys, n))
  {
    if rows != [] {
      var init := rows[..|rows| - 1];
      ElementsFacts(init, nodes, keys);
      assert forall j :: 0 <= j < |init| ==> init[j] == rows[j];
      if ElementsOf(rows, nodes, keys).Ok? {
        var r := ElementsOf(rows, nodes, keys).value;
        forall n | 0 <= n < |nodes|
          ensures r[n] == nodes[n].(fileIds := nodes[n].fileIds + FileIdsOf(rows, keys, n))
        {
          var before := ElementsOf(init, nodes, keys).value;
          assert before[n] == nodes[n].(fileIds := nodes[n].fileIds + FileIdsOf(init, keys, n));
        }
      }
    }
  }

  lemma ElementsSnoc(rows: seq<seq<string>>, row: seq<string>, nodes: seq<Node>, keys: map<string, nat>)
    ensures ElementsOf(rows + [row], nodes, keys) ==
      match ElementsOf(rows, nodes, keys)
      case Err(e) => Err(e)
      case Ok(current) =>
        if |row| < 3 then Err(MissingColumn(Elements, |rows|))
        else if row[0] in keys && keys[row[0]] < |current| then
          var n := keys[row[0]];
          Ok(current[n := current[n].(fileIds := current[n].fileIds + {row[2]})])
        else Ok(current)
  {
    assert (rows + [row])[..|rows|] == rows;
  }

  /** A failure in the first `k` lines is the failure of all of them. */
  lemma ElementsPrefixErr(rows: seq<string>, k: nat, nodes: seq<Node>, keys: map<string, nat>)
    requires KeysInArena(nodes, keys)
    requires k <= |rows| && ElementsOf(TokenRows(rows[..k]), nodes, keys).Err?
    ensures ElementsOf(TokenRows(rows), nodes, keys) == ElementsOf(TokenRows(rows[..k]), nodes, keys)
  {
    TokenRowsTake(rows, k);
    ElementsFacts(TokenRows(rows[..k]), nodes, keys);
    ElementsFacts(TokenRows(rows), nodes, keys);
    FirstShortPrefix(TokenRows(rows), k);
  }

  method LoadElements(rows: seq<string>, nodes: seq<Node>, keys: map<string, nat>) returns (r: Result<seq<Node>, LoadError>)
    requires KeysInArena(nodes, keys)
    ensures r == ElementsOf(TokenRows(rows), nodes, keys)
  {
    var current := nodes;
    for i := 0 to |rows|
      invariant ElementsOf(TokenRows(rows[..i]), nodes, keys) == Ok(current)
      invariant |current| == |nodes|
    {
      var tokens := Split(rows[i], '\t');
      TokenRowsPrefix(rows, i);
      ElementsSnoc(TokenRows(rows[..i]), tokens, nodes, keys);
      if |tokens| < 3 {
        ElementsPrefixErr(rows, i + 1, nodes, keys);
        return Err(MissingColumn(Elements, i));
      }
      var conceptId := tokens[0];
      var fileId := tokens[2];
      if conceptId in keys {
        var n := keys[conceptId];
        current := current[n := current[n].(fileIds := current[n].fileIds + {fileId})];
      }
    }
    assert rows[..|rows|] == rows;
    return Ok(current);
  }

  // ---------------------------------------------------------------------
  // Relations: links between known nodes

  /** Both ends of relation row `row` resolve to nodes. */
  predicate Linkable(row: seq<string>, keys: map<string, nat>)
  {
    |row| >= 3 && row[0] in keys && row[2] in keys
  }

  /** The nodes and the recorded child ids after the relations rows. */
  function RelationsOf(rows: seq<seq<string>>, nodes: seq<Node>, keys: map<string, nat>): Result<(seq<Node>, set<string>), LoadError>
  {
    if rows == [] then Ok((nodes, {}))
    else
      match RelationsOf(rows[..|rows| - 1], nodes, keys)
      case Err(e) => Err(e)
      case Ok((current, childIds)) =>
        var row := rows[|rows| - 1];
        if |row| < 3 then Err(MissingColumn(Relations, |rows| - 1))
        else if Linkable(row, keys) && keys[row[0]] < |current| then
          var p := keys[row[0]];
          Ok((current[p := current[p].(children := current[p].children + [keys[row[2]]])], childIds + {row[2]}))
        else Ok((current, childIds))
  }

  /** The indices the relation rows link below the node at index `n`, in row order. */
  function ChildrenOf(rows: seq<seq<string>>, keys: map<string, nat>, n: nat): seq<nat>
  {
    if rows == [] then []
    else
      var row := rows[|rows| - 1];
      ChildrenOf(rows[..|rows| - 1], keys, n) + (if Linkable(row, keys) && keys[row[0]] == n then [keys[row[2]]] else [])
  }

  /**
   * The relations phase fails exactly at the first short row; otherwise each
   * node gains, in row order, the children the rows link below it, and a
   * child id is recorded iff some row links it.
   */
  lemma {:induction false} RelationsFacts(rows: seq<seq<string>>, nodes: seq<Node>, keys: map<string, nat>)
    requires KeysInArena(nodes, keys)
    ensures RelationsOf(rows, nodes, keys).Err? <==> FirstShort(rows).Some?
    ensures RelationsOf(rows, nodes, keys).Err? ==> RelationsOf(rows, nodes, keys).error == MissingColumn(Relations, FirstShort(rows).value)
    ensures RelationsOf(rows, nodes, keys).Ok? ==> var (r, childIds) := RelationsOf(rows, nodes, keys).value;
      && |r| == |nodes|
      && (forall n :: 0 <= n < |nodes| ==> r[n] == nodes[n].(children := nodes[n].children + ChildrenOf(rows, keys, n)))
      && (forall x :: x in childIds <==> exists j :: 0 <= j < |rows| && Linkable(rows[j], keys) && rows[j][2] == x)
  {
    if rows != [] {
      var init := rows[..|rows| - 1];
      RelationsFacts(init, nodes, keys);
      assert forall j :: 0 <= j < |init| ==> init[j] == rows[j];
      if RelationsOf(rows, nodes, keys).Ok? {
        var (r, childIds) := RelationsOf(rows, nodes, keys).value;
        var (before, ids) := RelationsOf(init, nodes, keys).value;
        forall n | 0 <= n < |nodes|
          ensures r[n] == nodes[n].(children := nodes[n].children + ChildrenOf(rows, keys, n))
        {
          assert before[n] == nodes[n].(children := nodes[n].children + ChildrenOf(init, keys, n));
        }
      }
    }
  }

  lemma RelationsSnoc(rows: seq<seq<string>>, row: seq<string>, nodes: seq<Node>, keys: map<string, nat>)
    ensures RelationsOf(rows + [row], nodes, keys) ==
      match RelationsOf(rows, nodes, keys)
      case Err(e) => Err(e)
      case Ok((current, childIds)) =>
        if |row| < 3 then Err(MissingColumn(Relations, |rows|))
        else if Linkable(row, keys) && keys[row[0]] < |current| then
          var p := keys[row[0]];
          Ok((current[p := current[p].(children := current[p].children + [keys[row[2]]])], childIds + {row[2]}))
        else Ok((current, childIds))
  {
    assert (rows + [row])[..|rows|] == rows;
  }

  lemma RelationsPrefixErr(rows: seq<string>, k: nat, nodes: seq<Node>, keys: map<string, nat>)
    requires KeysInArena(nodes, keys)
    requires k <= |rows| && RelationsOf(TokenRows(rows[..k]), nodes, keys).Err?
    ensures RelationsOf(TokenRows(rows), nodes, keys) == RelationsOf(TokenRows(rows[..k]), nodes, keys)
  {
    TokenRowsTake(rows, k);
    RelationsFacts(TokenRows(rows[..k]), nodes, keys);
    RelationsFacts(TokenRows(rows), nodes, keys);
    FirstShortPrefix(TokenRows(rows), k);
  }

  method LoadRelations(rows: seq<string>, nodes: seq<Node>, keys: map<string, nat>) returns (r: Result<(seq<Node>, set<string>), LoadError>)
    requires KeysInArena(nodes, keys)
    ensures r == RelationsOf(TokenRows(rows), nodes, keys)
  {
    var current := nodes;
    var childIds: set<string> := {};
    for i := 0 to |rows|
      invariant RelationsOf(TokenRows(rows[..i]), nodes, keys) == Ok((current, childIds))
      invariant |current| == |nodes|
    {
      var tokens := Split(rows[i], '\t');
      TokenRowsPrefix(rows, i);
      RelationsSnoc(TokenRows(rows[..i]), tokens, nodes, keys);
      if |tokens| < 3 {
        RelationsPrefixErr(rows, i + 1, nodes, keys);
        return Err(MissingColumn(Relations, i));
      }
      var parentId := tokens[0];
      var childId := tokens[2];
      if parentId in keys && childId in keys {
        var p := keys[parentId];
        current := current[p := current[p].(children := current[p].children + [keys[childId]])];
        childIds := childIds + {childId};
      }
    }
    assert rows[..|rows|] == rows;
    return Ok((current, childIds));
  }

  // ---------------------------------------------------------------------
  // The root

  /** A key whose node's concept id no link names as a child. */
  predicate RootKey(nodes: seq<Node>, keys: map<string, nat>, childIds: set<string>, k: string)
  {
    k in keys && keys[k] < |nodes| && nodes[keys[k]].conceptId !in childIds
  }

  /**
   * The loop over `nodes.values()` with its `break`: the first node whose
   * concept id is not a recorded child id. The order of the values is the
   * `HashMap`'s and is not fixed here.
   */
  method FindRoot(nodes: seq<Node>, keys: map<string, nat>, childIds: set<string>) returns (root: Option<nat>)
    requires KeysInArena(nodes, keys)
    ensures root.None? <==> forall k :: k in keys ==> nodes[keys[k]].conceptId in childIds
    ensures root.Some? ==>
      root.value < |nodes| && nodes[root.value].conceptId !in childIds && exists k :: k in keys && keys[k] == root.value
  {
    var rest := keys.Keys;
    while rest != {}
      invariant rest <= keys.Keys
      invariant forall k :: k in keys && k !in rest ==> nodes[keys[k]].conceptId in childIds
      decreases |rest|
    {
      var k :| k in rest;
      var node := nodes[keys[k]];
      if node.conceptId !in childIds {
        return Some(keys[k]);
      }
      rest := rest - {k};
    }
    return None;
  }

  /** The whole of `load` as the maps and lists it builds: the first phase that fails, or the arena. */
  function LoadedArena(parts: seq<string>, elements: seq<string>, relations: seq<string>): Result<(seq<Node>, map<string, nat>, set<string>), LoadError>
  {
    match PartsOf(TokenRows(AfterHeader(parts)))
    case Err(e) => Err(e)
    case Ok((nodes, keys)) =>
      match ElementsOf(TokenRows(AfterHeader(elements)), nodes, keys)
      case Err(e) => Err(e)
      case Ok(withFiles) =>
        match RelationsOf(TokenRows(AfterHeader(relations)), withFiles, keys)
        case Err(e) => Err(e)
        case Ok((linked, childIds)) => Ok((linked, keys, childIds))
  }

  /** `load`: the three phases, then the root search. */
  method Load(parts: seq<string>, elements: seq<string>, relations: seq<string>) returns (r: Result<Loaded, LoadError>)
    ensures var a := LoadedArena(parts, elements, relations);
      && (a.Err? <==> r.Err?)
      && (a.Err? ==> r.error == a.error)
      && (a.Ok? ==> var (nodes, keys, childIds) := a.value;
            && r.value.nodes == nodes
            && KeysInArena(nodes, keys)
            && (r.value.root.None? <==> forall k :: k in keys ==> !RootKey(nodes, keys, childIds, k))
            && (r.value.root.Some? ==> exists k :: RootKey(nodes, keys, childIds, k) && keys[k] == r.value.root.value))
  {
    var p := LoadParts(AfterHeader(parts));
    if p.Err? {
      return Err(p.error);
    }
    var (nodes, keys) := p.value;
    PartsShape(TokenRows(AfterHeader(parts)));
    var e := LoadElements(AfterHeader(elements), nodes, keys);
    if e.Err? {
      return Err(e.error);
    }
    var withFiles := e.value;
    ElementsFacts(TokenRows(AfterHeader(elements)), nodes, keys);
    var rel := LoadRelations(AfterHeader(relations), withFiles, keys);
    if rel.Err? {
      return Err(rel.error);
    }
    var (linked, childIds) := rel.value;
    RelationsFacts(TokenRows(AfterHeader(relations)), withFiles, keys);
    var root := FindRoot(linked, keys, childIds);
    return Ok(Loaded(linked, root));
  }
}
