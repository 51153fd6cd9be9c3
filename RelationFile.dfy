/**
 * `assignment1/anatomy/Relation.loadFromFile`: every non-blank line that
 * splits at tabs into exactly four pieces is one relation, fields in the
 * order parent id, parent name, child id, child name. There is no header
 * line and no trimming. When the file cannot be read the list is empty.
 */
module RelationFile {
  import opened Wrappers
  import opened JavaText

  datatype Relation = Relation(parentId: string, parentName: string, childId: string, childName: string)

  /** The relation line `line` stands for, if any. */
  function RelationOf(line: string): Option<Relation>
  {
    if IsBlank(line) then None
    else
      var parts := Split(line, '\t');
      if |parts| == 4 then Some(Relation(parts[0], parts[1], parts[2], parts[3])) else None
  }

  /** What `parse` makes of each line, in line order, the lines it rejects left out. */
  function Kept<T>(lines: seq<string>, parse: string -> Option<T>): seq<T>
  {
    if lines == [] then []
    else
      var last := parse(lines[|lines| - 1]);
      Kept(lines[..|lines| - 1], parse) + (if last.Some? then [last.value] else [])
  }

  /** The relations of `lines`, in line order. */
  function Relations(lines: seq<string>): seq<Relation>
  {
    Kept(lines, RelationOf)
  }

  /** `loadFromFile`: `lines` is `None` when `readAllLines` throws. */
  method LoadFromFile(lines: Option<seq<string>>) returns (relations: seq<Relation>)
    ensures lines.None? ==> relations == []
    ensures lines.Some? ==> relations == Relations(lines.value)
  {
    relations := [];
    if lines.None? {
      return;
    }
    var all := lines.value;
    for i := 0 to |all|
      invariant relations == Relations(all[..i])
    {
      assert all[..i + 1][..i] == all[..i];
      var line := all[i];
      if IsBlank(line) {
        continue;
      }
      var parts := Split(line, '\t');
      if |parts| == 4 {
        relations := relations + [Relation(parts[0], parts[1], parts[2], parts[3])];
      }
    }
    assert all[..|all|] == all;
  }

  /** What is kept of consecutive blocks of lines comes out in block order. */
  lemma {:induction false} KeptAppend<T>(a: seq<string>, b: seq<string>, parse: string -> Option<T>)
    ensures Kept(a + b, parse) == Kept(a, parse) + Kept(b, parse)
    decreases |b|
  {
    if b == [] {
      assert a + b == a;
    } else {
      var init := b[..|b| - 1];
      assert (a + b)[..|a + b| - 1] == a + init;
      KeptAppend(a, init, parse);
    }
  }

  /** Relations of consecutive blocks of lines come out in block order. */
  lemma RelationsAppend(a: seq<string>, b: seq<string>)
    ensures Relations(a + b) == Relations(a) + Relations(b)
  {
    KeptAppend(a, b, RelationOf);
  }

  /** At most one value per line. */
  lemma {:induction false} KeptBound<T>(lines: seq<string>, parse: string -> Option<T>)
    ensures |Kept(lines, parse)| <= |lines|
  {
    if lines != [] {
      KeptBound(lines[..|lines| - 1], parse);
    }
  }

  /** At most one relation per line. */
  lemma RelationsBound(lines: seq<string>)
    ensures |Relations(lines)| <= |lines|
  {
    KeptBound(lines, RelationOf);
  }

  /** A value is kept iff some line parses to it. */
  lemma {:induction false} KeptMember<T>(lines: seq<string>, parse: string -> Option<T>, x: T)
    ensures x in Kept(lines, parse) <==> exists i :: 0 <= i < |lines| && parse(lines[i]) == Some(x)
  {
    if lines != [] {
      var init := lines[..|lines| - 1];
      KeptMember(init, parse, x);
      assert forall i :: 0 <= i < |init| ==> init[i] == lines[i];
      if parse(lines[|lines| - 1]) == Some(x) {
        assert x in Kept(lines, parse);
      }
    }
  }

  /** A relation is listed iff some line stands for it. */
  lemma RelationsMember(lines: seq<string>, r: Relation)
    ensures r in Relations(lines) <==> exists i :: 0 <= i < |lines| && RelationOf(lines[i]) == Some(r)
  {
    KeptMember(lines, RelationOf, r);
  }

  /** The line a relation is written as: its four fields joined by tabs. */
  function Line(r: Relation): string
  {
    r.parentId + "\t" + r.parentName + "\t" + r.childId + "\t" + r.childName
  }

  /** A line of four tab-free fields splits into exactly those fields. */
  lemma FieldsOfLine(r: Relation)
    requires '\t' !in r.parentId && '\t' !in r.parentName && '\t' !in r.childId && '\t' !in r.childName
    ensures Fields(Line(r), '\t') == [r.parentId, r.parentName, r.childId, r.childName]
  {
    var tail2 := r.childId + "\t" + r.childName;
    var tail1 := r.parentName + "\t" + tail2;
    FieldsWithoutSep(r.childName, '\t');
    FieldsAfter(r.childId, '\t', r.childName);
    FieldsAfter(r.parentName, '\t', tail2);
    FieldsAfter(r.parentId, '\t', tail1);
    assert r.parentId + "\t" + tail1 == Line(r);
  }

  /**
   * Parsing inverts writing: four tab-free fields, the last ending in a
   * character that is not white space, come back from their line.
   */
  lemma LineRoundTrip(r: Relation)
    requires '\t' !in r.parentId && '\t' !in r.parentName && '\t' !in r.childId && '\t' !in r.childName
    requires r.childName != [] && !IsJavaWhitespace(r.childName[|r.childName| - 1])
    ensures RelationOf(Line(r)) == Some(r)
  {
    var line := Line(r);
    FieldsOfLine(r);
    assert line[|line| - 1] == r.childName[|r.childName| - 1];
    assert !IsBlank(line);
    assert line[|r.parentId|] == '\t';
    assert Split(line, '\t') == DropTrailingEmpty([r.parentId, r.parentName, r.childId, r.childName]);
  }
}
