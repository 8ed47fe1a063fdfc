/** The OBJ subset reader: skip lines up to the first vertex record, read
    vertex records until the first face record, then read face records to
    the end of the file. The file is a sequence of lines, each a leading
    character followed by numeric words; a numeric word is given with both
    values the stream extracts from it, as a float and as a uint32. */
module ObjFile {
  import opened Vk

  datatype Num = Num(asFloat: real, asIndex: u32)

  datatype Line = Line(lead: char, nums: seq<Num>)

  /** The outcome of loading. CannotOpen is fatal in the engine. The other
      errors stand for streams the engine does not handle: with no vertex or
      no face record its reading loops never end, and a record without
      exactly three numbers puts the stream in a failed state. */
  datatype ObjResult =
    | Loaded(vertices: seq<real>, indices: seq<u32>)
    | CannotOpen
    | NoVertexRecord
    | NoFaceRecord
    | Malformed

  /** The first line at or after `from` whose leading character is `ch`. */
  function FirstLead(ls: seq<Line>, ch: char, from: nat): (r: Option<nat>)
    ensures r.Some? ==> from <= r.value < |ls| && ls[r.value].lead == ch
                        && forall j :: from <= j < r.value ==> ls[j].lead != ch
    ensures r.None? ==> forall j :: from <= j < |ls| ==> ls[j].lead != ch
    decreases |ls| - from
  {
    if from >= |ls| then None
    else if ls[from].lead == ch then Some(from)
    else FirstLead(ls, ch, from + 1)
  }

  /** Every record line carries exactly three numbers. */
  predicate AllTriples(ls: seq<Line>)
  {
    forall k :: 0 <= k < |ls| ==> |ls[k].nums| == 3
  }

  function Zeros(n: nat): (z: seq<real>)
    ensures |z| == n && forall i :: 0 <= i < n ==> z[i] == 0.0
  {
    seq(n, _ => 0.0)
  }

  /** One vertex: x, the flipped y, z, then zero padding up to the stride. */
  function VertexFloats(l: Line, floatsPerVertex: nat): seq<real>
    requires |l.nums| == 3 && floatsPerVertex >= 3
  {
    [l.nums[0].asFloat, -l.nums[1].asFloat, l.nums[2].asFloat] + Zeros(floatsPerVertex - 3)
  }

  /** A 1-based index made 0-based, wrapping as uint32 does. */
  function ZeroBased(n: u32): (r: u32)
    ensures n > 0 ==> r == n - 1
    ensures n == 0 ==> r == UINT32_MAX
  {
    U32(n - 1)
  }

  function FaceIndices(l: Line): seq<u32>
    requires |l.nums| == 3
  {
    [ZeroBased(l.nums[0].asIndex), ZeroBased(l.nums[1].asIndex), ZeroBased(l.nums[2].asIndex)]
  }

  function VerticesOf(ls: seq<Line>, floatsPerVertex: nat): seq<real>
    requires AllTriples(ls) && floatsPerVertex >= 3
  {
    if ls == [] then [] else VerticesOf(ls[..|ls| - 1], floatsPerVertex) + VertexFloats(ls[|ls| - 1], floatsPerVertex)
  }

  function FacesOf(ls: seq<Line>): seq<u32>
    requires AllTriples(ls)
  {
    if ls == [] then [] else FacesOf(ls[..|ls| - 1]) + FaceIndices(ls[|ls| - 1])
  }

  /** What loading an opened file yields, with the face loop stopping as
      soon as a record cannot be extracted. */
  function Parse(ls: seq<Line>, floatsPerVertex: nat): ObjResult
    requires floatsPerVertex >= 3
  {
    match FirstLead(ls, 'v', 0)
    case None => NoVertexRecord
    case Some(h) =>
      if !AllTriples(ls[h..]) then Malformed
      else match FirstLead(ls, 'f', h + 1)
        case None => NoFaceRecord
        case Some(f) => Loaded(VerticesOf(ls[h..f], floatsPerVertex), FacesOf(ls[f..]))
  }

  /** The loader as written: its face loop tests for end of file before
      extracting, so when the last record is followed by a line break the
      final extraction fails, leaves the three indices as they were, and
      they are appended once more. */
  function ParseAsWritten(ls: seq<Line>, trailingNewline: bool, floatsPerVertex: nat): (r: ObjResult)
    requires floatsPerVertex >= 3
    ensures !Parse(ls, floatsPerVertex).Loaded? ==> r == Parse(ls, floatsPerVertex)
  {
    match FirstLead(ls, 'v', 0)
    case None => NoVertexRecord
    case Some(h) =>
      if !AllTriples(ls[h..]) then Malformed
      else match FirstLead(ls, 'f', h + 1)
        case None => NoFaceRecord
        case Some(f) =>
          assert |ls[|ls| - 1].nums| == 3 by { assert ls[|ls| - 1] == ls[h..][|ls| - 1 - h]; }
          Loaded(VerticesOf(ls[h..f], floatsPerVertex),
                 FacesOf(ls[f..]) + (if trailingNewline then FaceIndices(ls[|ls| - 1]) else []))
  }

  // ---------------------------------------------------------------------
  // Shape of a loaded mesh

  lemma {:induction false} VerticesOfLength(ls: seq<Line>, floatsPerVertex: nat)
    requires AllTriples(ls) && floatsPerVertex >= 3
    ensures |VerticesOf(ls, floatsPerVertex)| == floatsPerVertex * |ls|
  {
    if ls != [] {
      var p := ls[..|ls| - 1];
      assert AllTriples(p) by {
        forall k | 0 <= k < |p| ensures |p[k].nums| == 3 { assert p[k] == ls[k]; }
      }
      VerticesOfLength(p, floatsPerVertex);
      assert floatsPerVertex * |ls| == floatsPerVertex * |p| + floatsPerVertex;
    }
  }

  lemma {:induction false} FacesOfShape(ls: seq<Line>)
    requires AllTriples(ls)
    ensures |FacesOf(ls)| == 3 * |ls|
    ensures forall k, i :: 0 <= k < |ls| && 0 <= i < 3 ==> FacesOf(ls)[3 * k + i] == FaceIndices(ls[k])[i]
  {
    if ls != [] {
      var p := ls[..|ls| - 1];
      assert AllTriples(p) by {
        forall k | 0 <= k < |p| ensures |p[k].nums| == 3 { assert p[k] == ls[k]; }
      }
      FacesOfShape(p);
      forall k, i | 0 <= k < |ls| && 0 <= i < 3
        ensures FacesOf(ls)[3 * k + i] == FaceIndices(ls[k])[i]
      {
        if k < |p| {
          assert p[k] == ls[k];
        }
      }
    }
  }

  lemma AllTriplesSplit(ls: seq<Line>, h: nat, f: nat)
    requires h <= f <= |ls|
    ensures AllTriples(ls[h..]) <==> AllTriples(ls[h..f]) && AllTriples(ls[f..])
  {
    if AllTriples(ls[h..f]) && AllTriples(ls[f..]) {
      forall k | 0 <= k < |ls| - h ensures |ls[h..][k].nums| == 3 {
        if k < f - h {
          assert ls[h..][k] == ls[h..f][k];
        } else {
          assert ls[h..][k] == ls[f..][k - (f - h)];
        }
      }
    }
    if AllTriples(ls[h..]) {
      assert forall k :: 0 <= k < f - h ==> ls[h..f][k] == ls[h..][k];
      assert forall k :: 0 <= k < |ls| - f ==> ls[f..][k] == ls[h..][k + (f - h)];
    }
  }

  /** Where a loaded file's vertex and face records start, and what it
      yields from them. */
  lemma LoadedParts(ls: seq<Line>, floatsPerVertex: nat) returns (h: nat, f: nat)
    requires floatsPerVertex >= 3
    requires Parse(ls, floatsPerVertex).Loaded?
    ensures FirstLead(ls, 'v', 0) == Some(h) && FirstLead(ls, 'f', h + 1) == Some(f)
    ensures h < f <= |ls|
    ensures AllTriples(ls[h..f]) && AllTriples(ls[f..])
    ensures Parse(ls, floatsPerVertex) == Loaded(VerticesOf(ls[h..f], floatsPerVertex), FacesOf(ls[f..]))
  {
    h := FirstLead(ls, 'v', 0).value;
    f := FirstLead(ls, 'f', h + 1).value;
    AllTriplesSplit(ls, h, f);
  }

  /** A loaded mesh holds `floatsPerVertex` floats per vertex record and three
      indices per face record, so its index count is a multiple of three; the
      face record on line j yields indices 3(j - f) to 3(j - f) + 2, each its
      number minus one. */
  lemma LoadedShape(ls: seq<Line>, floatsPerVertex: nat)
    requires floatsPerVertex >= 3
    requires Parse(ls, floatsPerVertex).Loaded?
    ensures var h := FirstLead(ls, 'v', 0).value;
            var f := FirstLead(ls, 'f', h + 1).value;
            var r := Parse(ls, floatsPerVertex);
            && |r.vertices| == floatsPerVertex * (f - h)
            && |r.indices| == 3 * (|ls| - f)
            && |r.indices| % 3 == 0
            && (forall j, i :: f <= j < |ls| && 0 <= i < 3 ==>
                  r.indices[3 * (j - f) + i] == FaceIndices(ls[j])[i])
  {
    var h, f := LoadedParts(ls, floatsPerVertex);
    var tail := ls[f..];
    VerticesOfLength(ls[h..f], floatsPerVertex);
    FacesOfShape(tail);
    var indices := FacesOf(tail);
    forall j, i | f <= j < |ls| && 0 <= i < 3
      ensures indices[3 * (j - f) + i] == FaceIndices(ls[j])[i]
    {
      assert tail[j - f] == ls[j];
    }
  }

  /** The as-written loader agrees with Parse on a file whose last record is
      not followed by a line break, and otherwise repeats the last face. */
  lemma AsWrittenRepeatsLastFace(ls: seq<Line>, trailingNewline: bool, floatsPerVertex: nat)
    requires floatsPerVertex >= 3
    requires Parse(ls, floatsPerVertex).Loaded?
    ensures var r := Parse(ls, floatsPerVertex);
            var w := ParseAsWritten(ls, trailingNewline, floatsPerVertex);
            && w.Loaded? && w.vertices == r.vertices
            && |r.indices| >= 3
            && w.indices == r.indices + (if trailingNewline then r.indices[|r.indices| - 3..] else [])
  {
    var h := FirstLead(ls, 'v', 0).value;
    var f := FirstLead(ls, 'f', h + 1).value;
    var tail := ls[f..];
    assert AllTriples(tail) by {
      forall k | 0 <= k < |tail| ensures |tail[k].nums| == 3 { assert tail[k] == ls[h..][f - h + k]; }
    }
    assert tail[|tail| - 1] == ls[|ls| - 1];
    var faces := FacesOf(tail);
    assert faces == FacesOf(tail[..|tail| - 1]) + FaceIndices(ls[|ls| - 1]);
    assert faces[|faces| - 3..] == FaceIndices(ls[|ls| - 1]);
  }

  /** A one-triangle file ending in a line break: the as-written loader
      yields the triangle twice. */
  lemma TrailingNewlineDuplicatesFace()
    ensures var ls := [Line('v', [Num(0.0, 0), Num(0.0, 0), Num(0.0, 0)]),
                       Line('v', [Num(1.0, 1), Num(0.0, 0), Num(0.0, 0)]),
                       Line('v', [Num(0.0, 0), Num(1.0, 1), Num(0.0, 0)]),
                       Line('f', [Num(1.0, 1), Num(2.0, 2), Num(3.0, 3)])];
            && Parse(ls, 3).Loaded? && Parse(ls, 3).indices == [0, 1, 2]
            && ParseAsWritten(ls, true, 3).Loaded? && ParseAsWritten(ls, true, 3).indices == [0, 1, 2, 0, 1, 2]
  {
    var ls := [Line('v', [Num(0.0, 0), Num(0.0, 0), Num(0.0, 0)]),
               Line('v', [Num(1.0, 1), Num(0.0, 0), Num(0.0, 0)]),
               Line('v', [Num(0.0, 0), Num(1.0, 1), Num(0.0, 0)]),
               Line('f', [Num(1.0, 1), Num(2.0, 2), Num(3.0, 3)])];
    assert FirstLead(ls, 'v', 0) == Some(0);
    assert FirstLead(ls, 'f', 1) == Some(3);
    assert AllTriples(ls[0..]);
    assert ls[3..] == [ls[3]] && [ls[3]][..0] == [];
    assert FacesOf(ls[3..]) == [0, 1, 2];
  }

  // ---------------------------------------------------------------------
  // The loader

  /** The loader with its face loop corrected: the loops follow the
      engine's, but reading faces stops as soon as a record cannot be
      extracted instead of testing for end of file first, so no face is
      appended twice. `ParseAsWritten` is the loader as written. `isOpen`
      says whether the file could be opened. */
  method LoadOBJFile(isOpen: bool, ls: seq<Line>, floatsPerVertex: nat) returns (r: ObjResult)
    requires floatsPerVertex >= 3
    ensures r == if isOpen then Parse(ls, floatsPerVertex) else CannotOpen
  {
    if !isOpen {
      return CannotOpen;
    }
    var h := SkipToVertex(ls);
    if h == |ls| {
      return NoVertexRecord;
    }
    var vertices, f, ok := ReadVertices(ls, h, floatsPerVertex);
    if !ok {
      return Malformed;
    }
    if f == |ls| {
      assert ls[h..f] == ls[h..];
      return NoFaceRecord;
    }
    var indices, facesOk := ReadFaces(ls, f);
    AllTriplesSplit(ls, h, f);
    if !facesOk {
      return Malformed;
    }
    r := Loaded(vertices, indices);
  }

  /** Skips whole lines until one starts with 'v'; |ls| when none does. */
  method SkipToVertex(ls: seq<Line>) returns (pos: nat)
    ensures pos <= |ls|
    ensures FirstLead(ls, 'v', 0) == if pos < |ls| then Some(pos) else None
  {
    pos := 0;
    while pos < |ls| && ls[pos].lead != 'v'
      invariant 0 <= pos <= |ls|
      invariant forall j :: 0 <= j < pos ==> ls[j].lead != 'v'
    {
      pos := pos + 1;
    }
  }

  /** Vertex records from line h, the first included, until a line starts
      with 'f' (returned as `pos`, |ls| when none does). `ok` is false when a
      record lacks three numbers. */
  method ReadVertices(ls: seq<Line>, h: nat, floatsPerVertex: nat) returns (vertices: seq<real>, pos: nat, ok: bool)
    requires h < |ls| && floatsPerVertex >= 3
    ensures !ok ==> !AllTriples(ls[h..])
    ensures ok ==> && h < pos <= |ls|
                   && FirstLead(ls, 'f', h + 1) == (if pos < |ls| then Some(pos) else None)
                   && AllTriples(ls[h..pos])
                   && vertices == VerticesOf(ls[h..pos], floatsPerVertex)
  {
    vertices := [];
    pos := h;
    while pos < |ls| && (pos == h || ls[pos].lead != 'f')
      invariant h <= pos <= |ls|
      invariant forall j :: h < j < pos ==> ls[j].lead != 'f'
      invariant AllTriples(ls[h..pos])
      invariant vertices == VerticesOf(ls[h..pos], floatsPerVertex)
    {
      if |ls[pos].nums| != 3 {
        assert ls[h..][pos - h] == ls[pos];
        return vertices, pos, false;
      }
      assert ls[h..pos + 1][..pos - h] == ls[h..pos];
      vertices := PushVertex(vertices, ls[pos], floatsPerVertex);
      pos := pos + 1;
    }
    ok := true;
  }

  /** Face records from line f to the end of the file. `ok` is false when a
      record lacks three numbers. */
  method ReadFaces(ls: seq<Line>, f: nat) returns (indices: seq<u32>, ok: bool)
    requires f <= |ls|
    ensures ok <==> AllTriples(ls[f..])
    ensures ok ==> indices == FacesOf(ls[f..])
  {
    indices := [];
    var pos := f;
    while pos < |ls|
      invariant f <= pos <= |ls|
      invariant AllTriples(ls[f..pos])
      invariant indices == FacesOf(ls[f..pos])
    {
      if |ls[pos].nums| != 3 {
        assert ls[f..][pos - f] == ls[pos];
        return indices, false;
      }
      assert ls[f..pos + 1][..pos - f] == ls[f..pos];
      var l := ls[pos];
      indices := indices + [ZeroBased(l.nums[0].asIndex), ZeroBased(l.nums[1].asIndex), ZeroBased(l.nums[2].asIndex)];
      pos := pos + 1;
    }
    assert ls[f..pos] == ls[f..];
    ok := true;
  }

  /** Appends one vertex: x, -y, z, then zeros up to the stride. */
  method PushVertex(vertices: seq<real>, l: Line, floatsPerVertex: nat) returns (vs: seq<real>)
    requires |l.nums| == 3 && floatsPerVertex >= 3
    ensures vs == vertices + VertexFloats(l, floatsPerVertex)
  {
    vs := vertices + [l.nums[0].asFloat, -l.nums[1].asFloat, l.nums[2].asFloat];
    var i := 0;
    while i < floatsPerVertex - 3
      invariant 0 <= i <= floatsPerVertex - 3
      invariant vs == vertices + [l.nums[0].asFloat, -l.nums[1].asFloat, l.nums[2].asFloat] + Zeros(i)
    {
      vs := vs + [0.0];
      i := i + 1;
    }
  }

  // ---------------------------------------------------------------------
  // Writing a mesh as OBJ text and reading it back

  datatype Position = Position(x: real, y: real, z: real)

  datatype Face = Face(a: u32, b: u32, c: u32)

  predicate WritableFace(t: Face)
  {
    t.a < UINT32_MAX && t.b < UINT32_MAX && t.c < UINT32_MAX
  }

  function VertexLine(p: Position): Line
  {
    Line('v', [Num(p.x, 0), Num(p.y, 0), Num(p.z, 0)])
  }

  /** A face line holds the 1-based indices. */
  function FaceLine(t: Face): Line
    requires WritableFace(t)
  {
    Line('f', [Num((t.a + 1) as real, t.a + 1), Num((t.b + 1) as real, t.b + 1), Num((t.c + 1) as real, t.c + 1)])
  }

  function Emit(ps: seq<Position>, ts: seq<Face>): seq<Line>
    requires forall i :: 0 <= i < |ts| ==> WritableFace(ts[i])
  {
    seq(|ps|, i requires 0 <= i < |ps| => VertexLine(ps[i]))
    + seq(|ts|, i requires 0 <= i < |ts| => FaceLine(ts[i]))
  }

  function FlattenVertices(ps: seq<Position>, floatsPerVertex: nat): seq<real>
    requires floatsPerVertex >= 3
  {
    if ps == [] then []
    else var p := ps[|ps| - 1];
         FlattenVertices(ps[..|ps| - 1], floatsPerVertex) + [p.x, -p.y, p.z] + Zeros(floatsPerVertex - 3)
  }

  function FlattenFaces(ts: seq<Face>): seq<u32>
  {
    if ts == [] then [] else FlattenFaces(ts[..|ts| - 1]) + [ts[|ts| - 1].a, ts[|ts| - 1].b, ts[|ts| - 1].c]
  }

  lemma {:induction false} VerticesOfEmitted(ps: seq<Position>, floatsPerVertex: nat)
    requires floatsPerVertex >= 3
    ensures var ls := seq(|ps|, i requires 0 <= i < |ps| => VertexLine(ps[i]));
            AllTriples(ls) && VerticesOf(ls, floatsPerVertex) == FlattenVertices(ps, floatsPerVertex)
  {
    var ls := seq(|ps|, i requires 0 <= i < |ps| => VertexLine(ps[i]));
    if ps != [] {
      var p := ps[..|ps| - 1];
      VerticesOfEmitted(p, floatsPerVertex);
      assert ls[..|ls| - 1] == seq(|p|, i requires 0 <= i < |p| => VertexLine(p[i]));
    }
  }

  lemma {:induction false} FacesOfEmitted(ts: seq<Face>)
    requires forall i :: 0 <= i < |ts| ==> WritableFace(ts[i])
    ensures var ls := seq(|ts|, i requires 0 <= i < |ts| => FaceLine(ts[i]));
            AllTriples(ls) && FacesOf(ls) == FlattenFaces(ts)
  {
    var ls := seq(|ts|, i requires 0 <= i < |ts| => FaceLine(ts[i]));
    if ts != [] {
      var p := ts[..|ts| - 1];
      FacesOfEmitted(p);
      assert ls[..|ls| - 1] == seq(|p|, i requires 0 <= i < |p| => FaceLine(p[i]));
    }
  }

  /** Reading back a written mesh with at least one vertex and one face gives
      its positions with y flipped and padded, and its faces' indices. */
  lemma ParseEmitRoundTrip(ps: seq<Position>, ts: seq<Face>, floatsPerVertex: nat)
    requires floatsPerVertex >= 3
    requires ps != [] && ts != []
    requires forall i :: 0 <= i < |ts| ==> WritableFace(ts[i])
    ensures Parse(Emit(ps, ts), floatsPerVertex) == Loaded(FlattenVertices(ps, floatsPerVertex), FlattenFaces(ts))
  {
    var vls := seq(|ps|, i requires 0 <= i < |ps| => VertexLine(ps[i]));
    var fls := seq(|ts|, i requires 0 <= i < |ts| => FaceLine(ts[i]));
    var ls := Emit(ps, ts);
    assert ls == vls + fls;
    VerticesOfEmitted(ps, floatsPerVertex);
    FacesOfEmitted(ts);
    assert FirstLead(ls, 'v', 0) == Some(0);
    assert ls[|ps|].lead == 'f';
    assert forall j :: 1 <= j < |ps| ==> ls[j].lead != 'f';
    assert FirstLead(ls, 'f', 1) == Some(|ps|);
    assert ls[0..] == ls;
    assert ls[0..|ps|] == vls;
    assert ls[|ps|..] == fls;
  }

  /** A written mesh without faces is a stream the loader never finishes. */
  lemma NoFacesNoMesh(ps: seq<Position>, floatsPerVertex: nat)
    requires floatsPerVertex >= 3 && ps != []
    ensures Parse(Emit(ps, []), floatsPerVertex) == NoFaceRecord
  {
    var ls := Emit(ps, []);
    assert FirstLead(ls, 'v', 0) == Some(0);
    assert ls[0..] == ls;
  }
}
