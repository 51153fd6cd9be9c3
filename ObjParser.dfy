/**
 * `assignment5/model/ObjParser.load`: reads Wavefront OBJ lines into the
 * four lists of a triangle mesh. `v` and `vn` lines add three numbers,
 * `vt` lines add two with the second flipped (`1 - v`), and `f` lines add
 * the corners of their polygon, fan-triangulated, each corner as its
 * vertex index, its normal index when the file has normals, and its
 * texture index, all made 0-based. Every face corner of the file must
 * agree on whether it has a normal index. Other lines are ignored. When no
 * texture coordinate was read, one `(0, 0)` pair is supplied.
 *
 * Each line arrives as the tokens `trim().split("\\s+")` gives. Parsing a
 * number is a parameter (`Float.parseFloat`, `Integer.parseInt`), whose
 * `NumberFormatException` is left out; the floats are reals.
 */
module ObjParser {
  import opened Wrappers
  import opened JavaText

  /** Why `load` stops, and at which line (counting from 0). */
  datatype ErrorKind = IndexOutOfBounds | MixedNormals
  datatype ObjError = ObjError(kind: ErrorKind, line: nat)

  /** `hasNormals`: -1 before the first face corner, then 0 or 1. */
  datatype NormalsSeen = Unknown | Without | With

  /** One face corner, 0-based: vertex, texture (0 when absent), and normal if given. */
  datatype Corner = Corner(v: int, t: int, n: Option<int>)

  /** The lists `load` fills, and `hasNormals`. */
  datatype ObjState = ObjState(vertices: seq<real>, normals: seq<real>, texCoords: seq<real>, faces: seq<int>, hasNormals: NormalsSeen)

  /** What the mesh receives. */
  datatype Mesh = Mesh(points: seq<real>, texCoords: seq<real>, faces: seq<int>, normals: seq<real>, pointNormalTexCoord: bool)

  // ---------------------------------------------------------------------
  // Faces

  /** The corner of token `tok` (`v`, `v/t`, `v//n` or `v/t/n`); a token splitting into nothing has no index 0. */
  function CornerOf(tok: string, parseInt: string -> int): Option<Corner>
  {
    var parts := Split(tok, '/');
    if |parts| == 0 then None
    else
      Some(Corner(
        parseInt(parts[0]) - 1,
        if |parts| >= 2 && parts[1] != "" then parseInt(parts[1]) - 1 else 0,
        if |parts| == 3 && parts[2] != "" then Some(parseInt(parts[2]) - 1) else None))
  }

  /** `a/b` splits into `a` and `b`. */
  lemma SplitTwo(a: string, b: string)
    requires b != "" && '/' !in a && '/' !in b
    ensures Split(a + "/" + b, '/') == [a, b]
  {
    FieldsWithoutSep(b, '/');
    FieldsAfter(a, '/', b);
    assert a + "/" + b == a + ['/'] + b;
  }

  /** `a//c` splits into `a`, an empty piece and `c`. */
  lemma SplitEmptyMiddle(a: string, c: string)
    requires c != "" && '/' !in a && '/' !in c
    ensures Split(a + "//" + c, '/') == [a, "", c]
  {
    FieldsWithoutSep(c, '/');
    FieldsAfter([], '/', c);
    assert [] + ['/'] + c == ['/'] + c;
    FieldsAfter(a, '/', ['/'] + c);
    assert a + "//" + c == a + ['/'] + (['/'] + c);
  }

  /** `a/b/c` splits into `a`, `b` and `c`. */
  lemma SplitThree(a: string, b: string, c: string)
    requires c != "" && '/' !in a && '/' !in b && '/' !in c
    ensures Split(a + "/" + b + "/" + c, '/') == [a, b, c]
  {
    FieldsWithoutSep(c, '/');
    FieldsAfter(b, '/', c);
    assert b + "/" + c == b + ['/'] + c;
    FieldsAfter(a, '/', b + "/" + c);
    assert a + "/" + b + "/" + c == a + ['/'] + (b + "/" + c);
  }

  /** `a/b/` splits into `a` and `b`: the empty piece at the end is dropped. */
  lemma SplitTrailing(a: string, b: string)
    requires b != "" && '/' !in a && '/' !in b
    ensures Split(a + "/" + b + "/", '/') == [a, b]
  {
    FieldsWithoutSep([], '/');
    FieldsAfter(b, '/', []);
    assert b + ['/'] + [] == b + "/";
    FieldsAfter(a, '/', b + "/");
    assert a + "/" + b + "/" == a + ['/'] + (b + "/");
    var s := a + "/" + b + "/";
    assert Fields(s, '/') == [a, b, ""];
    assert s[|a|] == '/';
    assert [a, b, ""][..2] == [a, b];
    assert DropTrailingEmpty([a, b, ""]) == DropTrailingEmpty([a, b]) == [a, b];
  }

  /**
   * The four corner forms, for non-empty numbers `a`, `b`, `c` without a
   * slash: every given index loses one, a missing texture index is 0, and a
   * trailing slash gives no normal, since `split` drops trailing empty pieces.
   */
  lemma CornerForms(a: string, b: string, c: string, parseInt: string -> int)
    requires a != "" && b != "" && c != ""
    requires '/' !in a && '/' !in b && '/' !in c
    ensures CornerOf(a, parseInt) == Some(Corner(parseInt(a) - 1, 0, None))
    ensures CornerOf(a + "/" + b, parseInt) == Some(Corner(parseInt(a) - 1, parseInt(b) - 1, None))
    ensures CornerOf(a + "//" + c, parseInt) == Some(Corner(parseInt(a) - 1, 0, Some(parseInt(c) - 1)))
    ensures CornerOf(a + "/" + b + "/" + c, parseInt) == Some(Corner(parseInt(a) - 1, parseInt(b) - 1, Some(parseInt(c) - 1)))
    ensures CornerOf(a + "/" + b + "/", parseInt) == Some(Corner(parseInt(a) - 1, parseInt(b) - 1, None))
  {
    SplitTwo(a, b);
    SplitEmptyMiddle(a, c);
    SplitThree(a, b, c);
    SplitTrailing(a, b);
  }

  /** The normals flag after corner `c`, or `None` when `c` disagrees with the earlier corners. */
  function NextSeen(h: NormalsSeen, c: Corner): Option<NormalsSeen>
  {
    if c.n.Some? then (if h == Without then None else Some(With))
    else (if h == With then None else Some(Without))
  }

  /** The corners of the face tokens `toks` and the flag after them, or the first failure. */
  function ScanCorners(h: NormalsSeen, toks: seq<string>, parseInt: string -> int): Result<(seq<Corner>, NormalsSeen), ErrorKind>
  {
    if toks == [] then Ok(([], h))
    else
      match ScanCorners(h, toks[..|toks| - 1], parseInt)
      case Err(e) => Err(e)
      case Ok((cs, h1)) =>
        match CornerOf(toks[|toks| - 1], parseInt)
        case None => Err(IndexOutOfBounds)
        case Some(c) =>
          match NextSeen(h1, c)
          case None => Err(MixedNormals)
          case Some(h2) => Ok((cs + [c], h2))
  }

  function NormalOr0(c: Corner): int
  {
    if c.n.Some? then c.n.value else 0
  }

  /** The face indices of one corner: vertex, normal when the file has normals, texture. */
  function CornerIndices(c: Corner, withNormals: bool): seq<int>
  {
    [c.v] + (if withNormals then [NormalOr0(c)] else []) + [c.t]
  }

  /** Triangle `(0, i, i + 1)` of the fan. */
  function Triangle(cs: seq<Corner>, i: nat, withNormals: bool): seq<int>
    requires 1 <= i < |cs| - 1
  {
    CornerIndices(cs[0], withNormals) + CornerIndices(cs[i], withNormals) + CornerIndices(cs[i + 1], withNormals)
  }

  /** The first `k` triangles of the fan. */
  function Fan(cs: seq<Corner>, k: nat, withNormals: bool): seq<int>
    requires k <= |cs| - 2
  {
    if k == 0 then [] else Fan(cs, k - 1, withNormals) + Triangle(cs, k, withNormals)
  }

  lemma FanSnoc(cs: seq<Corner>, k: nat, withNormals: bool)
    requires 1 <= k <= |cs| - 2
    ensures Fan(cs, k, withNormals) == Fan(cs, k - 1, withNormals) + Triangle(cs, k, withNormals)
  {
  }

  /** The face indices of a polygon: its fan when it has three corners or more, nothing otherwise. */
  function FaceIndices(cs: seq<Corner>, withNormals: bool): seq<int>
  {
    if |cs| < 3 then [] else Fan(cs, |cs| - 2, withNormals)
  }

  /** The slots per triangle. */
  function Width(withNormals: bool): nat
  {
    if withNormals then 9 else 6
  }

  /** A polygon with `n >= 3` corners gives `n - 2` triangles of 6 or 9 slots, and fewer corners give none. */
  lemma {:induction false} FanLength(cs: seq<Corner>, k: nat, withNormals: bool)
    requires k <= |cs| - 2
    ensures |Fan(cs, k, withNormals)| == k * Width(withNormals)
  {
    if k > 0 {
      FanLength(cs, k - 1, withNormals);
    }
  }

  /** A shorter fan is a prefix of a longer one. */
  lemma {:induction false} FanPrefix(cs: seq<Corner>, i: nat, k: nat, withNormals: bool)
    requires i <= k <= |cs| - 2
    ensures |Fan(cs, i, withNormals)| <= |Fan(cs, k, withNormals)|
    ensures Fan(cs, k, withNormals)[..|Fan(cs, i, withNormals)|] == Fan(cs, i, withNormals)
  {
    if i < k {
      FanPrefix(cs, i, k - 1, withNormals);
      FanSnoc(cs, k, withNormals);
      var f := Fan(cs, k - 1, withNormals);
      var n := |Fan(cs, i, withNormals)|;
      assert (f + Triangle(cs, k, withNormals))[..n] == f[..n];
    }
  }

  /** Triangle `i` of the fan occupies its own slots, and joins corner 0 with corners `i` and `i + 1`. */
  lemma FanTriangle(cs: seq<Corner>, k: nat, i: nat, withNormals: bool)
    requires 1 <= i <= k <= |cs| - 2
    ensures |Fan(cs, k, withNormals)| == k * Width(withNormals)
    ensures Fan(cs, k, withNormals)[(i - 1) * Width(withNormals)..i * Width(withNormals)] == Triangle(cs, i, withNormals)
  {
    FanLength(cs, k, withNormals);
    FanLength(cs, i, withNormals);
    FanLength(cs, i - 1, withNormals);
    FanPrefix(cs, i, k, withNormals);
    FanSnoc(cs, i, withNormals);
    var lo := |Fan(cs, i - 1, withNormals)|;
    var hi := |Fan(cs, i, withNormals)|;
    var whole := Fan(cs, k, withNormals);
    assert whole[lo..hi] == whole[..hi][lo..];
    assert (Fan(cs, i - 1, withNormals) + Triangle(cs, i, withNormals))[lo..] == Triangle(cs, i, withNormals);
  }

  lemma FaceLength(cs: seq<Corner>, withNormals: bool)
    ensures |FaceIndices(cs, withNormals)| == (if |cs| >= 3 then (|cs| - 2) * Width(withNormals) else 0)
  {
    if |cs| >= 3 {
      FanLength(cs, |cs| - 2, withNormals);
    }
  }

  /**
   * Scanning a face keeps the flag consistent: all its corners agree on
   * having a normal, the flag records which, and a flag already set stays.
   */
  lemma {:induction false} ScanConsistent(h: NormalsSeen, toks: seq<string>, parseInt: string -> int)
    requires ScanCorners(h, toks, parseInt).Ok?
    ensures var (cs, h2) := ScanCorners(h, toks, parseInt).value;
      && |cs| == |toks|
      && (cs == [] ==> h2 == h)
      && (h != Unknown ==> h2 == h)
      && (cs != [] ==> h2 != Unknown && forall i :: 0 <= i < |cs| ==> (cs[i].n.Some? <==> h2 == With))
  {
    if toks != [] {
      ScanConsistent(h, toks[..|toks| - 1], parseInt);
    }
  }

  /** Two corners of a face that disagree on having a normal make the scan fail. */
  lemma {:induction false} ScanMixedFails(h: NormalsSeen, toks: seq<string>, parseInt: string -> int, i: nat, j: nat)
    requires i < |toks| && j < |toks|
    requires CornerOf(toks[i], parseInt).Some? && CornerOf(toks[j], parseInt).Some?
    requires CornerOf(toks[i], parseInt).value.n.Some? != CornerOf(toks[j], parseInt).value.n.Some?
    ensures ScanCorners(h, toks, parseInt).Err?
  {
    if ScanCorners(h, toks, parseInt).Ok? {
      ScanConsistent(h, toks, parseInt);
      ScanCornersAre(h, toks, parseInt, i);
      ScanCornersAre(h, toks, parseInt, j);
    }
  }

  /** The corners a successful scan returns are those of the tokens. */
  lemma {:induction false} ScanCornersAre(h: NormalsSeen, toks: seq<string>, parseInt: string -> int, i: nat)
    requires i < |toks| && ScanCorners(h, toks, parseInt).Ok?
    ensures |ScanCorners(h, toks, parseInt).value.0| == |toks|
    ensures Some(ScanCorners(h, toks, parseInt).value.0[i]) == CornerOf(toks[i], parseInt)
  {
    ScanConsistent(h, toks, parseInt);
    var init := toks[..|toks| - 1];
    if i < |init| {
      ScanCornersAre(h, init, parseInt, i);
      ScanConsistent(h, init, parseInt);
    }
  }

  /** The face indices of `f` tokens `toks` and the flag after them. */
  function FaceResult(toks: seq<string>, h: NormalsSeen, parseInt: string -> int): Result<(seq<int>, NormalsSeen), ErrorKind>
  {
    match ScanCorners(h, toks, parseInt)
    case Err(e) => Err(e)
    case Ok((cs, h2)) => Ok((FaceIndices(cs, h2 == With), h2))
  }

  /** The corner arrays hold the corners `cs`. */
  ghost predicate HoldCorners(vIndices: array<int>, tIndices: array<int>, nIndices: array<int>, cs: seq<Corner>)
    reads vIndices, tIndices, nIndices
  {
    && |cs| <= vIndices.Length && |cs| <= tIndices.Length && |cs| <= nIndices.Length
    && (forall k :: 0 <= k < |cs| ==> vIndices[k] == cs[k].v)
    && (forall k :: 0 <= k < |cs| ==> tIndices[k] == cs[k].t)
    && (forall k :: 0 <= k < |cs| ==> nIndices[k] == NormalOr0(cs[k]))
  }

  lemma ScanSnoc(h: NormalsSeen, toks: seq<string>, i: nat, parseInt: string -> int)
    requires i < |toks|
    ensures ScanCorners(h, toks[..i + 1], parseInt) ==
      match ScanCorners(h, toks[..i], parseInt)
      case Err(e) => Err(e)
      case Ok((cs, h1)) =>
        match CornerOf(toks[i], parseInt)
        case None => Err(IndexOutOfBounds)
        case Some(c) =>
          match NextSeen(h1, c)
          case None => Err(MixedNormals)
          case Some(h2) => Ok((cs + [c], h2))
  {
    assert toks[..i + 1][..i] == toks[..i];
  }

  /** The body of the first loop of the `f` case: one corner, 0-based, and the flag after it. */
  method ReadCorner(tok: string, h: NormalsSeen, parseInt: string -> int) returns (r: Result<(Corner, NormalsSeen), ErrorKind>)
    ensures CornerOf(tok, parseInt).None? ==> r == Err(IndexOutOfBounds)
    ensures CornerOf(tok, parseInt).Some? ==> var c := CornerOf(tok, parseInt).value;
      r == if NextSeen(h, c).None? then Err(MixedNormals) else Ok((c, NextSeen(h, c).value))
  {
    var parts := Split(tok, '/');
    if |parts| == 0 {
      return Err(IndexOutOfBounds);
    }
    var v := parseInt(parts[0]) - 1;
    var t := if |parts| >= 2 && parts[1] != "" then parseInt(parts[1]) - 1 else 0;
    if |parts| == 3 && parts[2] != "" {
      if h == Without {
        return Err(MixedNormals);
      }
      return Ok((Corner(v, t, Some(parseInt(parts[2]) - 1)), With));
    }
    if h == With {
      return Err(MixedNormals);
    }
    return Ok((Corner(v, t, None), Without));
  }

  /** The first loop of the `f` case: fills the corner arrays, checking each corner's normal against the flag. */
  method ReadCorners(toks: seq<string>, hasNormals: NormalsSeen, parseInt: string -> int, vIndices: array<int>, tIndices: array<int>, nIndices: array<int>)
    returns (r: Result<NormalsSeen, ErrorKind>, ghost cs: seq<Corner>)
    requires vIndices.Length == tIndices.Length == nIndices.Length == |toks|
    requires vIndices != tIndices && tIndices != nIndices && vIndices != nIndices
    modifies vIndices, tIndices, nIndices
    ensures r.Err? ==> ScanCorners(hasNormals, toks, parseInt) == Err(r.error)
    ensures r.Ok? ==> ScanCorners(hasNormals, toks, parseInt) == Ok((cs, r.value)) && |cs| == |toks|
    ensures r.Ok? ==> HoldCorners(vIndices, tIndices, nIndices, cs)
  {
    var h := hasNormals;
    cs := [];
    for i := 0 to |toks|
      invariant ScanCorners(hasNormals, toks[..i], parseInt) == Ok((cs, h))
      invariant |cs| == i
      invariant HoldCorners(vIndices, tIndices, nIndices, cs)
    {
      ScanSnoc(hasNormals, toks, i, parseInt);
      var corner := ReadCorner(toks[i], h, parseInt);
      if corner.Err? {
        ScanErrStays(hasNormals, toks, parseInt, i + 1);
        return Err(corner.error), cs;
      }
      var c := corner.value.0;
      h := corner.value.1;
      ghost var before := cs;
      cs := cs + [c];
      StoreCorner(vIndices, tIndices, nIndices, before, i, c);
    }
    assert toks[..|toks|] == toks;
    return Ok(h), cs;
  }

  /** Stores corner `c` at index `i` of the corner arrays. */
  method StoreCorner(vIndices: array<int>, tIndices: array<int>, nIndices: array<int>, ghost cs: seq<Corner>, i: nat, c: Corner)
    requires i == |cs| && i < vIndices.Length && i < tIndices.Length && i < nIndices.Length
    requires vIndices != tIndices && tIndices != nIndices && vIndices != nIndices
    requires HoldCorners(vIndices, tIndices, nIndices, cs)
    modifies vIndices, tIndices, nIndices
    ensures HoldCorners(vIndices, tIndices, nIndices, cs + [c])
  {
    vIndices[i] := c.v;
    tIndices[i] := c.t;
    nIndices[i] := NormalOr0(c);
  }

  /** One corner's entries: `v`, then `n` when the file has normals, then `t`. */
  method AddCorner(faces: seq<int>, v: int, n: int, t: int, withNormals: bool) returns (r: seq<int>)
    ensures r == faces + [v] + (if withNormals then [n] else []) + [t]
  {
    r := faces + [v];
    if withNormals {
      r := r + [n];
    }
    r := r + [t];
  }

  /** Adds triangle `(0, i, i + 1)` from the corner arrays. */
  method AddTriangle(faces: seq<int>, vIndices: array<int>, tIndices: array<int>, nIndices: array<int>, ghost cs: seq<Corner>, i: nat, w: bool)
    returns (r: seq<int>)
    requires 1 <= i < |cs| - 1 && HoldCorners(vIndices, tIndices, nIndices, cs)
    ensures r == faces + Triangle(cs, i, w)
  {
    r := AddCorner(faces, vIndices[0], nIndices[0], tIndices[0], w);
    r := AddCorner(r, vIndices[i], nIndices[i], tIndices[i], w);
    r := AddCorner(r, vIndices[i + 1], nIndices[i + 1], tIndices[i + 1], w);
  }

  /** The second part of the `f` case: one triangle for three corners, a fan for more, nothing for fewer. */
  method EmitFaces(vIndices: array<int>, tIndices: array<int>, nIndices: array<int>, ghost cs: seq<Corner>, w: bool) returns (faces: seq<int>)
    requires |cs| == vIndices.Length && HoldCorners(vIndices, tIndices, nIndices, cs)
    ensures faces == FaceIndices(cs, w)
  {
    var n := vIndices.Length;
    faces := [];
    if n == 3 {
      faces := AddTriangle(faces, vIndices, tIndices, nIndices, cs, 1, w);
      FanSnoc(cs, 1, w);
    } else if n > 3 {
      for i := 1 to n - 1
        invariant faces == Fan(cs, i - 1, w)
      {
        faces := AddTriangle(faces, vIndices, tIndices, nIndices, cs, i, w);
        FanSnoc(cs, i, w);
      }
    }
  }

  /** The `f` case: the corner arrays, the normals check per corner, then the triangles. */
  method ReadFace(tokens: seq<string>, hasNormals: NormalsSeen, parseInt: string -> int) returns (r: Result<(seq<int>, NormalsSeen), ErrorKind>)
    requires |tokens| >= 1
    ensures r == FaceResult(tokens[1..], hasNormals, parseInt)
  {
    var n := |tokens| - 1;
    var vIndices := new int[n];
    var tIndices := new int[n];
    var nIndices := new int[n];
    var scan, cs := ReadCorners(tokens[1..], hasNormals, parseInt, vIndices, tIndices, nIndices);
    if scan.Err? {
      return Err(scan.error);
    }
    var faces := EmitFaces(vIndices, tIndices, nIndices, cs, scan.value == With);
    return Ok((faces, scan.value));
  }

  /** A failure on the first `k` tokens is the failure of the whole face. */
  lemma {:induction false} ScanErrStays(h: NormalsSeen, toks: seq<string>, parseInt: string -> int, k: nat)
    requires k <= |toks| && ScanCorners(h, toks[..k], parseInt).Err?
    ensures ScanCorners(h, toks, parseInt) == ScanCorners(h, toks[..k], parseInt)
    decreases |toks|
  {
    if k == |toks| {
      assert toks[..k] == toks;
    } else {
      var init := toks[..|toks| - 1];
      assert init[..k] == toks[..k];
      ScanErrStays(h, init, parseInt, k);
    }
  }

  // ---------------------------------------------------------------------
  // Lines

  /** One line of the `switch`. */
  function LineStep(st: ObjState, tokens: seq<string>, parseFloat: string -> real, parseInt: string -> int): Result<ObjState, ErrorKind>
  {
    if tokens == [] then Ok(st)
    else if tokens[0] == "v" then
      if |tokens| < 4 then Err(IndexOutOfBounds)
      else Ok(st.(vertices := st.vertices + [parseFloat(tokens[1]), parseFloat(tokens[2]), parseFloat(tokens[3])]))
    else if tokens[0] == "vn" then
      if |tokens| < 4 then Err(IndexOutOfBounds)
      else Ok(st.(normals := st.normals + [parseFloat(tokens[1]), parseFloat(tokens[2]), parseFloat(tokens[3])]))
    else if tokens[0] == "vt" then
      if |tokens| < 3 then Err(IndexOutOfBounds)
      else Ok(st.(texCoords := st.texCoords + [parseFloat(tokens[1]), 1.0 - parseFloat(tokens[2])]))
    else if tokens[0] == "f" then
      match FaceResult(tokens[1..], st.hasNormals, parseInt)
      case Err(e) => Err(e)
      case Ok((indices, h)) => Ok(st.(faces := st.faces + indices, hasNormals := h))
    else Ok(st)
  }

  /** The lists after the lines `lines`, or the first failure and its line. */
  function Run(lines: seq<seq<string>>, parseFloat: string -> real, parseInt: string -> int): Result<ObjState, ObjError>
  {
    if lines == [] then Ok(ObjState([], [], [], [], Unknown))
    else
      match Run(lines[..|lines| - 1], parseFloat, parseInt)
      case Err(e) => Err(e)
      case Ok(st) =>
        match LineStep(st, lines[|lines| - 1], parseFloat, parseInt)
        case Err(k) => Err(ObjError(k, |lines| - 1))
        case Ok(next) => Ok(next)
  }

  /** The mesh of the lists: the default texture pair when none was read, and the normals format when normals were read. */
  function MeshOf(st: ObjState): Mesh
  {
    Mesh(st.vertices, if st.texCoords == [] then [0.0, 0.0] else st.texCoords, st.faces, st.normals, st.normals != [])
  }

  function LoadResult(lines: seq<seq<string>>, parseFloat: string -> real, parseInt: string -> int): Result<Mesh, ObjError>
  {
    match Run(lines, parseFloat, parseInt)
    case Err(e) => Err(e)
    case Ok(st) => Ok(MeshOf(st))
  }

  lemma RunSnoc(lines: seq<seq<string>>, i: nat, parseFloat: string -> real, parseInt: string -> int)
    requires i < |lines|
    ensures Run(lines[..i + 1], parseFloat, parseInt) ==
      match Run(lines[..i], parseFloat, parseInt)
      case Err(e) => Err(e)
      case Ok(st) =>
        match LineStep(st, lines[i], parseFloat, parseInt)
        case Err(k) => Err(ObjError(k, i))
        case Ok(next) => Ok(next)
  {
    assert lines[..i + 1][..i] == lines[..i];
  }

  /** A failure on the first `k` lines is the failure of the whole file. */
  lemma {:induction false} RunErrStays(lines: seq<seq<string>>, k: nat, parseFloat: string -> real, parseInt: string -> int)
    requires k <= |lines| && Run(lines[..k], parseFloat, parseInt).Err?
    ensures Run(lines, parseFloat, parseInt) == Run(lines[..k], parseFloat, parseInt)
    decreases |lines|
  {
    if k == |lines| {
      assert lines[..k] == lines;
    } else {
      var init := lines[..|lines| - 1];
      assert init[..k] == lines[..k];
      RunErrStays(init, k, parseFloat, parseInt);
    }
  }

  /** A `vt` line adds its first number as it is and flips the second: the stored value and the file's add up to 1. */
  lemma TexCoordFlipped(st: ObjState, t: seq<string>, parseFloat: string -> real, parseInt: string -> int)
    requires StartsWith(t, "vt") && |t| >= 3
    ensures LineStep(st, t, parseFloat, parseInt).Ok?
    ensures var tc := LineStep(st, t, parseFloat, parseInt).value.texCoords;
      && |tc| == |st.texCoords| + 2 && tc[..|st.texCoords|] == st.texCoords
      && tc[|tc| - 2] == parseFloat(t[1]) && tc[|tc| - 1] + parseFloat(t[2]) == 1.0
  {
  }

  /** A `v` or `vn` line with fewer than three numbers, or a `vt` line with fewer than two, stops the read at that line. */
  lemma ShortLineFails(lines: seq<seq<string>>, i: nat, parseFloat: string -> real, parseInt: string -> int)
    requires i < |lines| && Run(lines[..i], parseFloat, parseInt).Ok?
    requires ((StartsWith(lines[i], "v") || StartsWith(lines[i], "vn")) && |lines[i]| < 4) ||
             (StartsWith(lines[i], "vt") && |lines[i]| < 3)
    ensures Run(lines, parseFloat, parseInt) == Err(ObjError(IndexOutOfBounds, i))
  {
    RunSnoc(lines, i, parseFloat, parseInt);
    RunErrStays(lines, i + 1, parseFloat, parseInt);
  }

  /** `load`: the loop over the lines, then the default texture pair. */
  method Load(lines: seq<seq<string>>, parseFloat: string -> real, parseInt: string -> int) returns (r: Result<Mesh, ObjError>)
    ensures r == LoadResult(lines, parseFloat, parseInt)
  {
    var vertices: seq<real> := [];
    var normals: seq<real> := [];
    var texCoords: seq<real> := [];
    var faces: seq<int> := [];
    var hasNormals := Unknown;
    var i := 0;
    while i < |lines|
      invariant 0 <= i <= |lines|
      invariant Run(lines[..i], parseFloat, parseInt) == Ok(ObjState(vertices, normals, texCoords, faces, hasNormals))
    {
      var tokens := lines[i];
      RunSnoc(lines, i, parseFloat, parseInt);
      if |tokens| == 0 {
        i := i + 1;
        continue;
      }
      if tokens[0] == "v" {
        if |tokens| < 4 {
          RunErrStays(lines, i + 1, parseFloat, parseInt);
          return Err(ObjError(IndexOutOfBounds, i));
        }
        vertices := vertices + [parseFloat(tokens[1]), parseFloat(tokens[2]), parseFloat(tokens[3])];
      } else if tokens[0] == "vn" {
        if |tokens| < 4 {
          RunErrStays(lines, i + 1, parseFloat, parseInt);
          return Err(ObjError(IndexOutOfBounds, i));
        }
        normals := normals + [parseFloat(tokens[1]), parseFloat(tokens[2]), parseFloat(tokens[3])];
      } else if tokens[0] == "vt" {
        if |tokens| < 3 {
          RunErrStays(lines, i + 1, parseFloat, parseInt);
          return Err(ObjError(IndexOutOfBounds, i));
        }
        texCoords := texCoords + [parseFloat(tokens[1]), 1.0 - parseFloat(tokens[2])];
      } else if tokens[0] == "f" {
        var face := ReadFace(tokens, hasNormals, parseInt);
        if face.Err? {
          RunErrStays(lines, i + 1, parseFloat, parseInt);
          return Err(ObjError(face.error, i));
        }
        faces := faces + face.value.0;
        hasNormals := face.value.1;
      }
      i := i + 1;
    }
    assert lines[..|lines|] == lines;
    if texCoords == [] {
      texCoords := [0.0, 0.0];
    }
    return Ok(Mesh(vertices, texCoords, faces, normals, normals != []));
  }

  // ---------------------------------------------------------------------
  // Properties of a whole file

  /** Line `t` starts with `key`. */
  predicate StartsWith(t: seq<string>, key: string)
  {
    t != [] && t[0] == key
  }

  /** The triangles line `t` asks for: `n - 2` for a face of `n >= 3` corners. */
  function LineTriangles(t: seq<string>): nat
  {
    if StartsWith(t, "f") && |t| - 1 >= 3 then |t| - 3 else 0
  }

  /** The number of lines that start with `key`. */
  function CountKey(lines: seq<seq<string>>, key: string): nat
  {
    if lines == [] then 0
    else CountKey(lines[..|lines| - 1], key) + (if StartsWith(lines[|lines| - 1], key) then 1 else 0)
  }

  /** The triangles the face lines ask for. */
  function TriangleCount(lines: seq<seq<string>>): nat
  {
    if lines == [] then 0 else TriangleCount(lines[..|lines| - 1]) + LineTriangles(lines[|lines| - 1])
  }

  /**
   * One line adds three numbers to the vertices or to the normals, two to
   * the texture coordinates, or 6 or 9 face slots per triangle, and leaves
   * the other lists alone; a flag already set stays, and a triangle sets it.
   */
  lemma LineCounts(st: ObjState, t: seq<string>, parseFloat: string -> real, parseInt: string -> int)
    requires LineStep(st, t, parseFloat, parseInt).Ok?
    ensures var next := LineStep(st, t, parseFloat, parseInt).value;
      && |next.vertices| == |st.vertices| + (if StartsWith(t, "v") then 3 else 0)
      && |next.normals| == |st.normals| + (if StartsWith(t, "vn") then 3 else 0)
      && |next.texCoords| == |st.texCoords| + (if StartsWith(t, "vt") then 2 else 0)
      && |next.faces| == |st.faces| + LineTriangles(t) * Width(next.hasNormals == With)
      && (st.hasNormals != Unknown ==> next.hasNormals == st.hasNormals)
      && (LineTriangles(t) > 0 ==> next.hasNormals != Unknown)
  {
    if StartsWith(t, "f") {
      var toks := t[1..];
      ScanConsistent(st.hasNormals, toks, parseInt);
      var (cs, h2) := ScanCorners(st.hasNormals, toks, parseInt).value;
      FaceLength(cs, h2 == With);
    }
  }

  lemma Distribute(a: nat, b: nat, w: nat)
    ensures a * w + b * w == (a + b) * w
  {
  }

  /** A successful read of `lines` is a successful read of all but the last, then a successful last step. */
  lemma RunOkStep(lines: seq<seq<string>>, parseFloat: string -> real, parseInt: string -> int)
    requires lines != [] && Run(lines, parseFloat, parseInt).Ok?
    ensures Run(lines[..|lines| - 1], parseFloat, parseInt).Ok?
    ensures LineStep(Run(lines[..|lines| - 1], parseFloat, parseInt).value, lines[|lines| - 1], parseFloat, parseInt).Ok?
    ensures Run(lines, parseFloat, parseInt).value == LineStep(Run(lines[..|lines| - 1], parseFloat, parseInt).value, lines[|lines| - 1], parseFloat, parseInt).value
  {
  }

  /**
   * After a successful read: three numbers per `v` and per `vn` line, two
   * per `vt` line, and 6 or 9 face slots per triangle, 9 exactly when the
   * faces have normals; before any face corner there is no triangle.
   */
  lemma {:induction false} RunCounts(lines: seq<seq<string>>, parseFloat: string -> real, parseInt: string -> int)
    requires Run(lines, parseFloat, parseInt).Ok?
    ensures var st := Run(lines, parseFloat, parseInt).value;
      && |st.vertices| == 3 * CountKey(lines, "v")
      && |st.normals| == 3 * CountKey(lines, "vn")
      && |st.texCoords| == 2 * CountKey(lines, "vt")
      && |st.faces| == TriangleCount(lines) * Width(st.hasNormals == With)
      && (st.hasNormals == Unknown ==> TriangleCount(lines) == 0)
  {
    if lines != [] {
      var init := lines[..|lines| - 1];
      var t := lines[|lines| - 1];
      RunOkStep(lines, parseFloat, parseInt);
      RunCounts(init, parseFloat, parseInt);
      var st := Run(init, parseFloat, parseInt).value;
      LineCounts(st, t, parseFloat, parseInt);
      var next := LineStep(st, t, parseFloat, parseInt).value;
      var w := Width(next.hasNormals == With);
      assert |next.faces| == |st.faces| + LineTriangles(t) * w;
      if st.hasNormals == Unknown {
        assert |st.faces| == 0;
      } else {
        assert |st.faces| == TriangleCount(init) * w;
      }
      Distribute(TriangleCount(init), LineTriangles(t), w);
    }
  }

  /** The texture list of the mesh is never empty: `(0, 0)` when the file has no `vt` line. */
  lemma MeshTexCoords(lines: seq<seq<string>>, parseFloat: string -> real, parseInt: string -> int)
    requires Run(lines, parseFloat, parseInt).Ok?
    ensures var m := MeshOf(Run(lines, parseFloat, parseInt).value);
      && |m.texCoords| >= 2
      && (CountKey(lines, "vt") == 0 ==> m.texCoords == [0.0, 0.0])
  {
    RunCounts(lines, parseFloat, parseInt);
  }
}
