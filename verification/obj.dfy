/**
 * The Wavefront OBJ parser of core/obj.go over the lines of a file: vertex,
 * texture-coordinate, normal and face lines, with face indices resolved from
 * 1-based (or negative, counted back from the elements parsed so far) to
 * 0-based. Reading the file is left to the caller; `strconv.ParseFloat`
 * (with its error discarded) is a parameter.
 */
module Obj {
  import opened Wrappers
  import opened GoStrings
  import opened Geometry

  datatype TextureCoord = TextureCoord(u: real, v: real)

  /** A face: the resolved 0-based index lists, one entry per non-empty slot. */
  datatype Face = Face(vertexIndices: seq<int>, textureIndices: seq<int>, normalIndices: seq<int>)

  datatype OBJData = OBJData(
    vertices: seq<Point3D>,
    textureCoords: seq<TextureCoord>,
    normals: seq<Point3D>,
    faces: seq<Face>)

  const EmptyOBJ := OBJData([], [], [], [])

  /** What a line is to the parser. */
  datatype LineKind = Skipped | VertexLine | TextureLine | NormalLine | FaceLine | Other

  /** A line that trims to something that is not a comment has at least one field. */
  lemma TrimmedLineHasFields(line: string)
    requires TrimSpace(line) != []
    ensures Fields(TrimSpace(line)) != []
  {
    TrimSpaceEnds(line);
    FieldsEmptyIff(TrimSpace(line));
  }

  /** The fields of a line the parser looks at (none for a skipped line). */
  function LineFields(line: string): (fs: seq<string>)
    ensures fs == [] <==> TrimSpace(line) == [] || HasPrefix(TrimSpace(line), "#")
  {
    var t := TrimSpace(line);
    if |t| == 0 || HasPrefix(t, "#") then []
    else
      TrimmedLineHasFields(line);
      Fields(t)
  }

  /** Empty (after trimming) and comment lines are skipped; otherwise the first field decides. */
  function Classify(line: string): LineKind {
    var fs := LineFields(line);
    if fs == [] then Skipped
    else if fs[0] == "v" then VertexLine
    else if fs[0] == "vt" then TextureLine
    else if fs[0] == "vn" then NormalLine
    else if fs[0] == "f" then FaceLine
    else Other
  }

  /** A "v" or "vn" line with fewer than three values or a "vt" line with fewer than two: Go indexes past the fields and panics. */
  predicate IsShort(line: string) {
    var k, n := Classify(line), |LineFields(line)|;
    ((k == VertexLine || k == NormalLine) && n < 4) || (k == TextureLine && n < 3)
  }

  // ----- face indices -----

  /** A 1-based index k as a 0-based one; a negative k counts back from the `count` elements so far. */
  function ResolveIndex(k: int, count: int): int {
    (if k < 0 then count + k + 1 else k) - 1
  }

  /** Positive references 1..count and negative ones -count..-1 both land inside the list; 0 gives -1. */
  lemma ResolveIndexInRange(k: int, count: int)
    ensures 1 <= k <= count ==> ResolveIndex(k, count) == k - 1 && 0 <= ResolveIndex(k, count) < count
    ensures -count <= k <= -1 ==> ResolveIndex(k, count) == count + k && 0 <= ResolveIndex(k, count) < count
    ensures k == -1 ==> ResolveIndex(k, count) == count - 1
    ensures k == 0 ==> ResolveIndex(k, count) == -1
  {
  }

  /** The number in slot `slot` of the pieces of a part, or None when the slot is missing or empty. Unparseable numbers read as 0. */
  function PieceValue(pieces: seq<string>, slot: nat): Option<int> {
    if |pieces| > slot && pieces[slot] != "" then Some(Atoi(pieces[slot]).0) else None
  }

  /** The number in slot `slot` of a "v/vt/vn" part. */
  function SlotValue(part: string, slot: nat): Option<int> {
    PieceValue(Split(part, '/'), slot)
  }

  /** What the pieces of one part add to the index list of a slot: the resolved index, or nothing for an empty slot. */
  function PieceEntry(pieces: seq<string>, slot: nat, count: int): (e: seq<int>)
    ensures |e| <= 1
  {
    match PieceValue(pieces, slot)
    case None => []
    case Some(k) => [ResolveIndex(k, count)]
  }

  function SlotEntry(part: string, slot: nat, count: int): (e: seq<int>)
    ensures |e| <= 1
  {
    PieceEntry(Split(part, '/'), slot, count)
  }

  /** The index list a face gets from slot `slot` of its parts, resolved against `count` elements. */
  function SlotEntries(parts: seq<string>, slot: nat, count: int): (es: seq<int>)
    ensures |es| <= |parts|
  {
    if parts == [] then []
    else SlotEntries(parts[..|parts| - 1], slot, count) + SlotEntry(parts[|parts| - 1], slot, count)
  }

  /** The face of an "f" line with these parts, given the numbers of vertices, texture coordinates and normals parsed so far. */
  function FaceOf(parts: seq<string>, nv: int, nt: int, nn: int): Face {
    Face(SlotEntries(parts, 0, nv), SlotEntries(parts, 1, nt), SlotEntries(parts, 2, nn))
  }

  /** The slot holds a reference into a list of `count` elements: 1..count or -count..-1. */
  predicate RefersWithin(part: string, slot: nat, count: int) {
    match SlotValue(part, slot)
    case None => true
    case Some(k) => (1 <= k <= count) || (-count <= k <= -1)
  }

  /** Valid references resolve to valid 0-based indices. */
  lemma {:induction false} SlotEntriesInRange(parts: seq<string>, slot: nat, count: int)
    requires forall i :: 0 <= i < |parts| ==> RefersWithin(parts[i], slot, count)
    ensures forall j :: 0 <= j < |SlotEntries(parts, slot, count)| ==> 0 <= SlotEntries(parts, slot, count)[j] < count
  {
    if parts != [] {
      var init := parts[..|parts| - 1];
      SlotEntriesInRange(init, slot, count);
      match SlotValue(parts[|parts| - 1], slot)
      case None =>
      case Some(k) => ResolveIndexInRange(k, count);
    }
  }

  /** A face gets exactly one entry per part when every part fills the slot. */
  lemma {:induction false} SlotEntriesFull(parts: seq<string>, slot: nat, count: int)
    requires forall i :: 0 <= i < |parts| ==> SlotValue(parts[i], slot).Some?
    ensures |SlotEntries(parts, slot, count)| == |parts|
  {
    if parts != [] {
      SlotEntriesFull(parts[..|parts| - 1], slot, count);
    }
  }

  /** A string without the separator splits into itself. */
  lemma SplitNoSeparator(s: string, sep: char)
    requires sep !in s
    ensures Split(s, sep) == [s]
  {
    assert IndexOf(s, sep) == |s|;
  }

  /** A separator-free piece followed by the separator is split off first. */
  lemma SplitCons(x: string, rest: string, sep: char)
    requires sep !in x
    ensures Split(x + [sep] + rest, sep) == [x] + Split(rest, sep)
  {
    var s := x + [sep] + rest;
    assert s[..|x|] == x && s[|x|] == sep && s[|x| + 1..] == rest;
    SplitAtFirst(s, sep, |x|);
  }

  /** Three separator-free pieces joined by two separators split back into those pieces. */
  lemma SplitThree(x: string, y: string, z: string, sep: char)
    requires sep !in x && sep !in y && sep !in z
    ensures Split(x + [sep] + y + [sep] + z, sep) == [x, y, z]
  {
    assert x + [sep] + y + [sep] + z == x + [sep] + (y + [sep] + z);
    SplitCons(x, y + [sep] + z, sep);
    SplitCons(y, z, sep);
    SplitNoSeparator(z, sep);
  }

  lemma SplitExample()
    ensures Split("1//3", '/') == ["1", "", "3"]
  {
    SplitThree("1", "", "3", '/');
    assert "1" + ['/'] + "" + ['/'] + "3" == "1//3";
  }

  lemma AtoiExample()
    ensures Atoi("1").0 == 1 && Atoi("3").0 == 3
  {
    assert DigitsValue("1") == 1;
    assert DigitsValue("3") == 3;
  }

  /** "1//3": the empty texture slot adds no texture index. */
  lemma EmptySlotExample(nv: int, nt: int, nn: int)
    ensures FaceOf(["1//3"], nv, nt, nn) == Face([0], [], [2])
  {
    SplitExample();
    AtoiExample();
    assert ["1//3"][..0] == [];
    assert SlotEntry("1//3", 0, nv) == [0];
    assert SlotEntry("1//3", 1, nt) == [];
    assert SlotEntry("1//3", 2, nn) == [2];
  }

  /** An index that does not parse reads as 0 and resolves to -1. */
  lemma UnparseableIndex(nv: int, nt: int, nn: int)
    ensures FaceOf(["x"], nv, nt, nn) == Face([-1], [], [])
  {
    SplitNoSeparator("x", '/');
    AtoiRejects("x");
    assert ["x"][..0] == [];
  }

  /** The face loop of `ParseOBJFile`: each part fills the three index lists in turn. */
  method ParseFace(parts: seq<string>, nv: int, nt: int, nn: int) returns (face: Face)
    ensures face == FaceOf(parts, nv, nt, nn)
  {
    face := Face([], [], []);
    for i := 0 to |parts|
      invariant face == FaceOf(parts[..i], nv, nt, nn)
    {
      assert parts[..i + 1][..i] == parts[..i];
      var indices := Split(parts[i], '/');
      var vertexEntry := ResolveSlot(indices, 0, nv);
      var textureEntry := ResolveSlot(indices, 1, nt);
      var normalEntry := ResolveSlot(indices, 2, nn);
      face := Face(face.vertexIndices + vertexEntry, face.textureIndices + textureEntry, face.normalIndices + normalEntry);
    }
    assert parts[..|parts|] == parts;
  }

  /** One slot of a face part: the resolved index when the slot is filled, nothing otherwise. */
  method ResolveSlot(indices: seq<string>, slot: nat, count: int) returns (entry: seq<int>)
    ensures entry == PieceEntry(indices, slot, count)
  {
    entry := [];
    if |indices| > slot && indices[slot] != "" {
      var idx := Atoi(indices[slot]).0;
      if idx < 0 {
        idx := count + idx + 1;
      }
      entry := [idx - 1];
    }
  }

  // ----- lines -----

  /** One line of the scanner loop applied to what has been parsed so far; a short line panics. */
  function ParseLine(line: string, d: OBJData, parseFloat: string -> real): (r: Result<OBJData>)
    ensures r.Failure? <==> IsShort(line)
  {
    var fs := LineFields(line);
    match Classify(line)
    case Skipped => Success(d)
    case Other => Success(d)
    case VertexLine =>
      if |fs| < 4 then Failure("index out of range")
      else Success(d.(vertices := d.vertices + [Point3D(parseFloat(fs[1]), parseFloat(fs[2]), parseFloat(fs[3]))]))
    case TextureLine =>
      if |fs| < 3 then Failure("index out of range")
      else Success(d.(textureCoords := d.textureCoords + [TextureCoord(parseFloat(fs[1]), parseFloat(fs[2]))]))
    case NormalLine =>
      if |fs| < 4 then Failure("index out of range")
      else Success(d.(normals := d.normals + [Point3D(parseFloat(fs[1]), parseFloat(fs[2]), parseFloat(fs[3]))]))
    case FaceLine =>
      Success(d.(faces := d.faces + [FaceOf(fs[1..], |d.vertices|, |d.textureCoords|, |d.normals|)]))
  }

  /** e extends d by one element in the list the line's kind names, and in no other. */
  predicate GrowsBy(d: OBJData, e: OBJData, kind: LineKind) {
    && |e.vertices| == |d.vertices| + (if kind == VertexLine then 1 else 0)
    && e.vertices[..|d.vertices|] == d.vertices
    && |e.textureCoords| == |d.textureCoords| + (if kind == TextureLine then 1 else 0)
    && e.textureCoords[..|d.textureCoords|] == d.textureCoords
    && |e.normals| == |d.normals| + (if kind == NormalLine then 1 else 0)
    && e.normals[..|d.normals|] == d.normals
    && |e.faces| == |d.faces| + (if kind == FaceLine then 1 else 0)
    && e.faces[..|d.faces|] == d.faces
  }

  /** Skipped and unknown lines change nothing; a "v", "vt", "vn" or "f" line appends exactly one element to its own list. */
  lemma ParseLineGrows(line: string, d: OBJData, parseFloat: string -> real)
    requires ParseLine(line, d, parseFloat).Success?
    ensures GrowsBy(d, ParseLine(line, d, parseFloat).value, Classify(line))
    ensures Classify(line) == Skipped || Classify(line) == Other ==> ParseLine(line, d, parseFloat).value == d
  {
  }

  /** The scanner loop over the first n lines: stops at the first short line. */
  function ParseLines(lines: seq<string>, parseFloat: string -> real, n: nat): Result<OBJData>
    requires n <= |lines|
  {
    if n == 0 then Success(EmptyOBJ)
    else
      match ParseLines(lines, parseFloat, n - 1)
      case Failure(e) => Failure(e)
      case Success(d) => ParseLine(lines[n - 1], d, parseFloat)
  }

  /** The loop over one more line parses that line into what the earlier lines gave. */
  lemma ParseLinesStep(lines: seq<string>, parseFloat: string -> real, i: nat, d: OBJData)
    requires i < |lines| && ParseLines(lines, parseFloat, i) == Success(d)
    ensures ParseLines(lines, parseFloat, i + 1) == ParseLine(lines[i], d, parseFloat)
  {
  }

  /** After a short line the parse stays failed with the same panic. */
  lemma {:induction false} FailureSticks(lines: seq<string>, parseFloat: string -> real, k: nat, n: nat)
    requires k <= n <= |lines| && ParseLines(lines, parseFloat, k).Failure?
    ensures ParseLines(lines, parseFloat, n) == ParseLines(lines, parseFloat, k)
    decreases n
  {
    if n > k {
      FailureSticks(lines, parseFloat, k, n - 1);
    }
  }

  /** The number of the first n lines of a kind. */
  function CountKind(lines: seq<string>, kind: LineKind, n: nat): nat
    requires n <= |lines|
  {
    if n == 0 then 0
    else CountKind(lines, kind, n - 1) + (if Classify(lines[n - 1]) == kind then 1 else 0)
  }

  /** One of the first n lines is short. */
  predicate AnyShort(lines: seq<string>, n: nat)
    requires n <= |lines|
  {
    n > 0 && (AnyShort(lines, n - 1) || IsShort(lines[n - 1]))
  }

  lemma {:induction false} AnyShortExists(lines: seq<string>, n: nat)
    requires n <= |lines|
    ensures AnyShort(lines, n) <==> exists k :: 0 <= k < n && IsShort(lines[k])
  {
    if n > 0 {
      AnyShortExists(lines, n - 1);
      if AnyShort(lines, n - 1) {
        var k :| 0 <= k < n - 1 && IsShort(lines[k]);
        assert 0 <= k < n && IsShort(lines[k]);
      }
    }
  }

  /** Parsing fails exactly when one of the lines is short. */
  lemma {:induction false} ParseLinesFails(lines: seq<string>, parseFloat: string -> real, n: nat)
    requires n <= |lines|
    ensures ParseLines(lines, parseFloat, n).Failure? <==> exists k :: 0 <= k < n && IsShort(lines[k])
  {
    FailsIffAnyShort(lines, parseFloat, n);
    AnyShortExists(lines, n);
  }

  lemma {:induction false} FailsIffAnyShort(lines: seq<string>, parseFloat: string -> real, n: nat)
    requires n <= |lines|
    ensures ParseLines(lines, parseFloat, n).Failure? <==> AnyShort(lines, n)
  {
    if n > 0 {
      FailsIffAnyShort(lines, parseFloat, n - 1);
    }
  }

  /** Each list holds one element per line of its kind. */
  lemma {:induction false} ParseLinesCounts(lines: seq<string>, parseFloat: string -> real, n: nat)
    requires n <= |lines| && ParseLines(lines, parseFloat, n).Success?
    ensures var d := ParseLines(lines, parseFloat, n).value;
      && |d.vertices| == CountKind(lines, VertexLine, n)
      && |d.textureCoords| == CountKind(lines, TextureLine, n)
      && |d.normals| == CountKind(lines, NormalLine, n)
      && |d.faces| == CountKind(lines, FaceLine, n)
  {
    if n > 0 {
      ParseLinesCounts(lines, parseFloat, n - 1);
      ParseLineGrows(lines[n - 1], ParseLines(lines, parseFloat, n - 1).value, parseFloat);
    }
  }

  /**
   * The face of the line at index k resolves its indices against the
   * elements of the lines before it only.
   */
  lemma FaceUsesEarlierLines(lines: seq<string>, parseFloat: string -> real, k: nat)
    requires k < |lines| && Classify(lines[k]) == FaceLine
    requires ParseLines(lines, parseFloat, k + 1).Success?
    ensures var faces := ParseLines(lines, parseFloat, k + 1).value.faces;
      && faces != []
      && faces[|faces| - 1] == FaceOf(LineFields(lines[k])[1..],
           CountKind(lines, VertexLine, k), CountKind(lines, TextureLine, k), CountKind(lines, NormalLine, k))
  {
    ParseLinesCounts(lines, parseFloat, k);
  }

  /** The body of the scanner loop of `ParseOBJFile` for one line. */
  method ParseOneLine(rawLine: string, objData: OBJData, parseFloat: string -> real) returns (r: Result<OBJData>)
    ensures r == ParseLine(rawLine, objData, parseFloat)
  {
    var line := TrimSpace(rawLine);
    if |line| == 0 || HasPrefix(line, "#") {
      return Success(objData);
    }
    var fields := Fields(line);
    TrimmedLineHasFields(rawLine);
    if fields[0] == "v" {
      if |fields| < 4 {
        return Failure("index out of range");
      }
      r := Success(objData.(vertices := objData.vertices + [Point3D(parseFloat(fields[1]), parseFloat(fields[2]), parseFloat(fields[3]))]));
    } else if fields[0] == "vt" {
      if |fields| < 3 {
        return Failure("index out of range");
      }
      r := Success(objData.(textureCoords := objData.textureCoords + [TextureCoord(parseFloat(fields[1]), parseFloat(fields[2]))]));
    } else if fields[0] == "vn" {
      if |fields| < 4 {
        return Failure("index out of range");
      }
      r := Success(objData.(normals := objData.normals + [Point3D(parseFloat(fields[1]), parseFloat(fields[2]), parseFloat(fields[3]))]));
    } else if fields[0] == "f" {
      var face := ParseFace(fields[1..], |objData.vertices|, |objData.textureCoords|, |objData.normals|);
      r := Success(objData.(faces := objData.faces + [face]));
    } else {
      r := Success(objData);
    }
  }

  /** `ParseOBJFile` over the lines of a file: the result of the scanner loop, or the panic of a short line. */
  method ParseOBJ(lines: seq<string>, parseFloat: string -> real) returns (r: Result<OBJData>)
    ensures r == ParseLines(lines, parseFloat, |lines|)
  {
    var objData := EmptyOBJ;
    for i := 0 to |lines|
      invariant ParseLines(lines, parseFloat, i) == Success(objData)
    {
      var next := ParseOneLine(lines[i], objData, parseFloat);
      ParseLinesStep(lines, parseFloat, i, objData);
      if next.Failure? {
        FailureSticks(lines, parseFloat, i + 1, |lines|);
        return next;
      }
      objData := next.value;
    }
    return Success(objData);
  }
}
