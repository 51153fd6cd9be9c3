/**
 * The three tab-separated tables the anatomy loaders of
 * `HumanAnatomyViewer/model/TreeLoader` and `assignment02/anatomy/TreeLoader`
 * read, parsed exactly alike by both: the header line is dropped, every
 * other line is trimmed and split at tabs, rows with too few fields are
 * ignored, and the fields of the remaining rows go into five maps.
 *
 * A read table is its list of lines; a resource that cannot be opened is
 * `None`.
 */
module TableParse {
  import opened Wrappers
  import opened JavaText

  /** Why a loader gives no tree. */
  datatype LoadError =
    | ResourceNotFound(resource: string)  // the file cannot be opened
    | EmptyTable(resource: string)        // `subList(1, 0)` on a file without lines
    | NoRootNode                          // every named concept has a parent
    | StackOverflow                       // the recursion ran deeper than the stack allows

  /** The data lines of a table: all lines after the header. */
  function DataLines(resource: string, lines: seq<string>): (r: Result<seq<string>, LoadError>)
    ensures lines == [] <==> r == Err(EmptyTable(resource))
    ensures lines != [] ==> r == Ok(lines[1..]) && |r.value| == |lines| - 1
  {
    if lines == [] then Err(EmptyTable(resource)) else Ok(lines[1..])
  }

  /** `line.trim().split("\\t")`. */
  function Tokens(line: string): seq<string>
  {
    Split(Trim(line), '\t')
  }

  /** The tokens of every row. */
  function TokenRows(rows: seq<string>): (r: seq<seq<string>>)
    ensures |r| == |rows|
  {
    if rows == [] then [] else TokenRows(rows[..|rows| - 1]) + [Tokens(rows[|rows| - 1])]
  }

  lemma TokenRowsPrefix(rows: seq<string>, i: nat)
    requires i < |rows|
    ensures TokenRows(rows[..i + 1]) == TokenRows(rows[..i]) + [Tokens(rows[i])]
  {
    assert rows[..i + 1][..i] == rows[..i];
  }

  // ---------------------------------------------------------------------
  // Maps filled row by row

  /** Row `j` has at least `min` fields and `k` in field `key`. */
  predicate KeyedAt(rows: seq<seq<string>>, j: int, min: nat, key: nat, k: string)
  {
    0 <= j < |rows| && |rows[j]| >= min && key < |rows[j]| && rows[j][key] == k
  }

  /**
   * `m.put(row[key], row[val])` for every row with at least `min` fields,
   * in row order, starting from an empty map.
   */
  function Put(rows: seq<seq<string>>, min: nat, key: nat, val: nat): map<string, string>
    requires key < min && val < min
  {
    if rows == [] then map[]
    else
      var m := Put(rows[..|rows| - 1], min, key, val);
      var row := rows[|rows| - 1];
      if |row| >= min then m[row[key] := row[val]] else m
  }

  /**
   * A key is in the map iff some long enough row carries it, and its value
   * comes from the last such row: later rows overwrite earlier ones.
   */
  lemma {:induction false} PutLastWins(rows: seq<seq<string>>, min: nat, key: nat, val: nat, k: string)
    requires key < min && val < min
    ensures k in Put(rows, min, key, val) <==> exists j :: KeyedAt(rows, j, min, key, k)
    ensures k in Put(rows, min, key, val) ==>
      exists j :: KeyedAt(rows, j, min, key, k) && Put(rows, min, key, val)[k] == rows[j][val] &&
        forall j' :: j < j' < |rows| ==> !KeyedAt(rows, j', min, key, k)
  {
    if rows != [] {
      var init := rows[..|rows| - 1];
      var row := rows[|rows| - 1];
      PutLastWins(init, min, key, val, k);
      assert forall j :: KeyedAt(init, j, min, key, k) ==> KeyedAt(rows, j, min, key, k);
      assert forall j :: 0 <= j < |init| && KeyedAt(rows, j, min, key, k) ==> KeyedAt(init, j, min, key, k);
      if |row| >= min && row[key] == k {
        assert KeyedAt(rows, |rows| - 1, min, key, k);
      } else if k in Put(rows, min, key, val) {
        var j :| KeyedAt(init, j, min, key, k) && Put(init, min, key, val)[k] == init[j][val] &&
          forall j' :: j < j' < |init| ==> !KeyedAt(init, j', min, key, k);
        assert KeyedAt(rows, j, min, key, k);
      }
    }
  }

  /** The `val` fields of the long enough rows whose `key` field is `k`, in row order. */
  function Collect(rows: seq<seq<string>>, min: nat, key: nat, val: nat, k: string): seq<string>
    requires key < min && val < min
  {
    if rows == [] then []
    else
      var row := rows[|rows| - 1];
      Collect(rows[..|rows| - 1], min, key, val, k) + (if |row| >= min && row[key] == k then [row[val]] else [])
  }

  /** `Collect` lists one value per matching row. */
  lemma {:induction false} CollectLength(rows: seq<seq<string>>, min: nat, key: nat, val: nat, k: string)
    requires key < min && val < min
    ensures Collect(rows, min, key, val, k) == [] <==> forall j :: !KeyedAt(rows, j, min, key, k)
  {
    if rows != [] {
      var init := rows[..|rows| - 1];
      CollectLength(init, min, key, val, k);
      assert forall j :: 0 <= j < |init| ==> (KeyedAt(init, j, min, key, k) <==> KeyedAt(rows, j, min, key, k));
      if !KeyedAt(rows, |rows| - 1, min, key, k) {
        assert forall j :: KeyedAt(rows, j, min, key, k) ==> KeyedAt(init, j, min, key, k);
      }
    }
  }

  /**
   * `m.computeIfAbsent(row[key], k -> new ArrayList<>()).add(row[val])` for
   * every row with at least `min` fields, in row order.
   */
  function Group(rows: seq<seq<string>>, min: nat, key: nat, val: nat): map<string, seq<string>>
    requires key < min && val < min
  {
    if rows == [] then map[]
    else
      var m := Group(rows[..|rows| - 1], min, key, val);
      var row := rows[|rows| - 1];
      if |row| >= min then m[row[key] := (if row[key] in m then m[row[key]] else []) + [row[val]]] else m
  }

  /**
   * The list under a key holds the values of all rows with that key, in row
   * order and with repeats, and a key is present iff some row carries it.
   */
  lemma {:induction false} GroupCollects(rows: seq<seq<string>>, min: nat, key: nat, val: nat, k: string)
    requires key < min && val < min
    ensures k in Group(rows, min, key, val) <==> Collect(rows, min, key, val, k) != []
    ensures k in Group(rows, min, key, val) ==> Group(rows, min, key, val)[k] == Collect(rows, min, key, val, k)
  {
    if rows != [] {
      GroupCollects(rows[..|rows| - 1], min, key, val, k);
    }
  }

  /** The value of `k` in `m`, or `d` (`getOrDefault`). */
  function GetOr<V>(m: map<string, V>, k: string, d: V): V
  {
    if k in m then m[k] else d
  }

  /** The list under `k`, or none. */
  function GroupOf(rows: seq<seq<string>>, min: nat, key: nat, val: nat, k: string): (r: seq<string>)
    requires key < min && val < min
    ensures r == Collect(rows, min, key, val, k)
  {
    GroupCollects(rows, min, key, val, k);
    GetOr(Group(rows, min, key, val), k, [])
  }

  /** One more row through `Put`. */
  lemma PutSnoc(rows: seq<seq<string>>, t: seq<string>, min: nat, key: nat, val: nat)
    requires key < min && val < min
    ensures var m := Put(rows, min, key, val);
      Put(rows + [t], min, key, val) == if |t| >= min then m[t[key] := t[val]] else m
  {
    assert (rows + [t])[..|rows|] == rows;
  }

  /** One more row through `Group`. */
  lemma GroupSnoc(rows: seq<seq<string>>, t: seq<string>, min: nat, key: nat, val: nat)
    requires key < min && val < min
    ensures var m := Group(rows, min, key, val);
      Group(rows + [t], min, key, val) ==
        if |t| >= min then m[t[key] := (if t[key] in m then m[t[key]] else []) + [t[val]]] else m
  {
    assert (rows + [t])[..|rows|] == rows;
  }

  // ---------------------------------------------------------------------
  // The five maps

  /** The maps `load` fills from the three tables. */
  datatype Tables = Tables(
    representationIds: map<string, string>,
    names: map<string, string>,
    fileIdsMap: map<string, seq<string>>,
    childrenMap: map<string, seq<string>>,
    parentMap: map<string, string>)

  /** The maps the three tables' data rows give. */
  function TablesOf(parts: seq<string>, elements: seq<string>, relations: seq<string>): Tables
  {
    var p := TokenRows(parts);
    var e := TokenRows(elements);
    var r := TokenRows(relations);
    Tables(Put(p, 3, 0, 1), Put(p, 3, 0, 2), Group(e, 3, 0, 2), Group(r, 4, 0, 2), Put(r, 4, 2, 0))
  }

  /** Step 1: conceptId to representationId and to name, for rows of at least three fields. */
  method LoadParts(rows: seq<string>) returns (representationIds: map<string, string>, names: map<string, string>)
    ensures representationIds == Put(TokenRows(rows), 3, 0, 1)
    ensures names == Put(TokenRows(rows), 3, 0, 2)
  {
    representationIds := map[];
    names := map[];
    for i := 0 to |rows|
      invariant representationIds == Put(TokenRows(rows[..i]), 3, 0, 1)
      invariant names == Put(TokenRows(rows[..i]), 3, 0, 2)
    {
      var tokens := Tokens(rows[i]);
      TokenRowsPrefix(rows, i);
      PutSnoc(TokenRows(rows[..i]), tokens, 3, 0, 1);
      PutSnoc(TokenRows(rows[..i]), tokens, 3, 0, 2);
      if |tokens| >= 3 {
        representationIds := representationIds[tokens[0] := tokens[1]];
        names := names[tokens[0] := tokens[2]];
      }
    }
    assert rows[..|rows|] == rows;
  }

  /** Step 2: conceptId to the list of its file ids, for rows of at least three fields. */
  method LoadElements(rows: seq<string>) returns (fileIdsMap: map<string, seq<string>>)
    ensures fileIdsMap == Group(TokenRows(rows), 3, 0, 2)
  {
    fileIdsMap := map[];
    for i := 0 to |rows|
      invariant fileIdsMap == Group(TokenRows(rows[..i]), 3, 0, 2)
    {
      var tokens := Tokens(rows[i]);
      TokenRowsPrefix(rows, i);
      GroupSnoc(TokenRows(rows[..i]), tokens, 3, 0, 2);
      if |tokens| >= 3 {
        var list := if tokens[0] in fileIdsMap then fileIdsMap[tokens[0]] else [];
        fileIdsMap := fileIdsMap[tokens[0] := list + [tokens[2]]];
      }
    }
    assert rows[..|rows|] == rows;
  }

  /** Step 3: parentId to its child ids, and childId to its parent, for rows of at least four fields. */
  method LoadRelations(rows: seq<string>) returns (childrenMap: map<string, seq<string>>, parentMap: map<string, string>)
    ensures childrenMap == Group(TokenRows(rows), 4, 0, 2)
    ensures parentMap == Put(TokenRows(rows), 4, 2, 0)
  {
    childrenMap := map[];
    parentMap := map[];
    for i := 0 to |rows|
      invariant childrenMap == Group(TokenRows(rows[..i]), 4, 0, 2)
      invariant parentMap == Put(TokenRows(rows[..i]), 4, 2, 0)
    {
      var tokens := Tokens(rows[i]);
      TokenRowsPrefix(rows, i);
      GroupSnoc(TokenRows(rows[..i]), tokens, 4, 0, 2);
      PutSnoc(TokenRows(rows[..i]), tokens, 4, 2, 0);
      if |tokens| >= 4 {
        var parentId := tokens[0];
        var childId := tokens[2];
        var list := if parentId in childrenMap then childrenMap[parentId] else [];
        childrenMap := childrenMap[parentId := list + [childId]];
        parentMap := parentMap[childId := parentId];
      }
    }
    assert rows[..|rows|] == rows;
  }

  /**
   * Steps 1 to 3 of both loaders: each table is read, its header dropped and
   * its rows parsed, before the next table is read; the first table that
   * cannot be opened or has no lines ends the load.
   */
  method LoadTables(
    partsFile: string, parts: Option<seq<string>>,
    elementsFile: string, elements: Option<seq<string>>,
    relationsFile: string, relations: Option<seq<string>>)
    returns (r: Result<Tables, LoadError>)
    ensures r == TablesResult(partsFile, parts, elementsFile, elements, relationsFile, relations)
  {
    if parts.None? {
      return Err(ResourceNotFound(partsFile));
    }
    var partRows := DataLines(partsFile, parts.value);
    if partRows.Err? {
      return Err(partRows.error);
    }
    var representationIds, names := LoadParts(partRows.value);
    if elements.None? {
      return Err(ResourceNotFound(elementsFile));
    }
    var elementRows := DataLines(elementsFile, elements.value);
    if elementRows.Err? {
      return Err(elementRows.error);
    }
    var fileIdsMap := LoadElements(elementRows.value);
    if relations.None? {
      return Err(ResourceNotFound(relationsFile));
    }
    var relationRows := DataLines(relationsFile, relations.value);
    if relationRows.Err? {
      return Err(relationRows.error);
    }
    var childrenMap, parentMap := LoadRelations(relationRows.value);
    return Ok(Tables(representationIds, names, fileIdsMap, childrenMap, parentMap));
  }

  /** What reading the three resources gives: the first failure in table order, or the five maps. */
  function TablesResult(
    partsFile: string, parts: Option<seq<string>>,
    elementsFile: string, elements: Option<seq<string>>,
    relationsFile: string, relations: Option<seq<string>>): Result<Tables, LoadError>
  {
    if parts.None? then Err(ResourceNotFound(partsFile))
    else if parts.value == [] then Err(EmptyTable(partsFile))
    else if elements.None? then Err(ResourceNotFound(elementsFile))
    else if elements.value == [] then Err(EmptyTable(elementsFile))
    else if relations.None? then Err(ResourceNotFound(relationsFile))
    else if relations.value == [] then Err(EmptyTable(relationsFile))
    else Ok(TablesOf(parts.value[1..], elements.value[1..], relations.value[1..]))
  }

  /** The tables are read iff every resource opens and has a line; the header never counts. */
  lemma TablesResultOk(
    partsFile: string, parts: Option<seq<string>>,
    elementsFile: string, elements: Option<seq<string>>,
    relationsFile: string, relations: Option<seq<string>>)
    ensures TablesResult(partsFile, parts, elementsFile, elements, relationsFile, relations).Ok? <==>
      parts.Some? && parts.value != [] && elements.Some? && elements.value != [] &&
      relations.Some? && relations.value != []
    ensures parts.None? ==> TablesResult(partsFile, parts, elementsFile, elements, relationsFile, relations) == Err(ResourceNotFound(partsFile))
  {
  }
}
