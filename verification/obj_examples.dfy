/** Worked files: what the loader makes of a few concrete OBJ texts, and the
    two inputs on which the loader as written goes out of bounds. */
module ObjExamples {
  import opened CScan
  import opened Mesh
  import opened Triangulation
  import opened ObjLine
  import opened ObjSpec
  import opened ObjParser
  import opened ObjRefinement
  import opened ObjParserAsWritten

  /** A face record listing `xs`, one blank between each two. */
  function FaceText(xs: seq<int>): (line: string)
    ensures HasPrefix(line, "f ")
  {
    "f " + Spaced(xs) + "\n"
  }

  /** A face record of one to 32 integers scans to exactly those integers. */
  lemma DecodeFace<F>(xs: seq<int>, scan: FloatScanner<F>)
    requires 1 <= |xs| <= MAX_CONVERSIONS
    ensures Decode(FaceText(xs), scan) == FaceLine(ScanResult(|xs|, xs))
  {
    var line := FaceText(xs);
    FaceTextRest(xs);
    DecodeFaceRecord(line, scan);
    NewlineDelimits();
    ScanSpaced(xs, "\n");
  }

  lemma FaceTextRest(xs: seq<int>)
    ensures FaceText(xs)[2..] == Spaced(xs) + "\n"
  {
  }

  /** The line break ends a `%d` list. */
  lemma NewlineDelimits()
    ensures Delimits("\n")
  {
    assert SkipSpace("\n") == [];
  }

  /** `k` copies of `x`. */
  function Repeat<T>(x: T, k: nat): (r: seq<T>)
    ensures |r| == k
    ensures forall i :: 0 <= i < k ==> r[i] == x
  {
    seq(k, _ => x)
  }

  lemma DecodeRepeat<F>(line: string, k: nat, scan: FloatScanner<F>)
    ensures DecodeAll(Repeat(line, k), scan) == Repeat(Decode(line, scan), k)
  {
  }

  /** `k` copies of one triangle record: `k` triangles and no vertex. */
  lemma {:induction false} RepeatedTriangle<F>(r: Record<F>, k: nat)
    requires r.FaceLine? && |r.face.values| == 3
    ensures FaceTriangles(Repeat(r, k)) == k
    ensures VertexRecords(Repeat(r, k)) == []
  {
    if k > 0 {
      assert Repeat(r, k)[1..] == Repeat(r, k - 1);
      RepeatedTriangle(r, k - 1);
    }
  }

  /** The outcome of a file of `k` copies of "f 1 2 3". */
  lemma {:induction false} TriangleFile<F>(k: nat, scan: FloatScanner<F>)
    ensures var records := DecodeAll(Repeat(FaceText([1, 2, 3]), k), scan);
      && FacesWellFormed(records)
      && VertexRecords(records) == []
      && |FaceIndices(records)| == 3 * k
      && NoBlankFaces(records)
  {
    var record: Record<F> := FaceLine(ScanResult(3, [1, 2, 3]));
    DecodeFace([1, 2, 3], scan);
    DecodeRepeat(FaceText([1, 2, 3]), k, scan);
    var records := Repeat(record, k);
    RepeatedTriangle(record, k);
    FaceIndicesAreTriangles(records);
  }

  /** 21845 triangles fill 65535 entries, the most a file can hold; both
      loaders accept it. */
  lemma FullIndexArray<F>(scan: FloatScanner<F>, heapVertices: seq<Vertex<F>>, heapIndices: seq<Index>, stale: seq<int>)
    requires |heapVertices| == VERTEX_CAPACITY && |heapIndices| == INDEX_CAPACITY && |stale| == MAX_CONVERSIONS
    ensures var lines := Repeat(FaceText([1, 2, 3]), 21845);
      && ParseObjFile(lines, scan, heapVertices, heapIndices).Ok?
      && ParseObjFile(lines, scan, heapVertices, heapIndices).value.indexCount == 65535
      && ParseObjFileAsWritten(lines, scan, heapVertices, heapIndices, stale) == ParseObjFile(lines, scan, heapVertices, heapIndices)
  {
    var lines := Repeat(FaceText([1, 2, 3]), 21845);
    TriangleFileFits(lines, scan, heapVertices, heapIndices);
    TriangleFile(21845, scan);
    ParseObjFileAsWrittenAgrees(lines, scan, heapVertices, heapIndices, stale);
  }

  lemma TriangleFileFits<F>(lines: seq<string>, scan: FloatScanner<F>, heapVertices: seq<Vertex<F>>, heapIndices: seq<Index>)
    requires |heapVertices| == VERTEX_CAPACITY && |heapIndices| == INDEX_CAPACITY
    requires lines == Repeat(FaceText([1, 2, 3]), 21845)
    ensures ParseObjFile(lines, scan, heapVertices, heapIndices).Ok?
    ensures ParseObjFile(lines, scan, heapVertices, heapIndices).value.indexCount == 65535
  {
    TriangleFile(21845, scan);
    ParseObjFileSucceeds(lines, scan, heapVertices, heapIndices);
    ParseObjFileMesh(lines, scan, heapVertices, heapIndices);
  }

  /** One triangle more: the corrected loader reports "Too many indices",
      the loader as written stores into `indices[65536]`. */
  lemma OneTriangleTooMany<F>(scan: FloatScanner<F>, heapVertices: seq<Vertex<F>>, heapIndices: seq<Index>, stale: seq<int>)
    requires |heapVertices| == VERTEX_CAPACITY && |heapIndices| == INDEX_CAPACITY && |stale| == MAX_CONVERSIONS
    ensures var lines := Repeat(FaceText([1, 2, 3]), 21846);
      && ParseObjFile(lines, scan, heapVertices, heapIndices) == Panic(TooManyIndices)
      && ParseObjFileAsWritten(lines, scan, heapVertices, heapIndices, stale) == Undefined(IndexWriteOutOfBounds(65536))
  {
    var lines := Repeat(FaceText([1, 2, 3]), 21846);
    TriangleFilePanics(lines, scan, heapVertices, heapIndices);
    TriangleFile(21846, scan);
    ParseObjFileAsWrittenAgrees(lines, scan, heapVertices, heapIndices, stale);
  }

  lemma TriangleFilePanics<F>(lines: seq<string>, scan: FloatScanner<F>, heapVertices: seq<Vertex<F>>, heapIndices: seq<Index>)
    requires |heapVertices| == VERTEX_CAPACITY && |heapIndices| == INDEX_CAPACITY
    requires lines == Repeat(FaceText([1, 2, 3]), 21846)
    ensures ParseObjFile(lines, scan, heapVertices, heapIndices) == Panic(TooManyIndices)
  {
    TriangleFile(21846, scan);
    ParseObjFileRefinesSpec(lines, scan, heapVertices, heapIndices);
    OnlyIndicesOverflow(DecodeAll(lines, scan));
  }

  /** Well-formed faces whose entries overflow the index array, and no
      vertex: the read reports "Too many indices". */
  lemma OnlyIndicesOverflow<F>(records: seq<Record<F>>)
    requires FacesWellFormed(records) && VertexRecords(records) == []
    requires |FaceIndices(records)| > INDEX_CAPACITY
    ensures Spec(records) == Panic(TooManyIndices)
  {
    SpecOutcome(records);
    var r := Spec(records);
    assert r.Panic?;
    assert r.reason != InvalidFace && r.reason != TooManyVertices;
  }

  /** "f " followed by a line break only: the corrected loader reports
      "Invalid face", the loader as written reads `idx[32]`. */
  lemma BlankFaceFile<F>(scan: FloatScanner<F>, heapVertices: seq<Vertex<F>>, heapIndices: seq<Index>, stale: seq<int>)
    requires |heapVertices| == VERTEX_CAPACITY && |heapIndices| == INDEX_CAPACITY && |stale| == MAX_CONVERSIONS
    ensures ParseObjFile(["f \n"], scan, heapVertices, heapIndices) == Panic(InvalidFace)
    ensures ParseObjFileAsWritten(["f \n"], scan, heapVertices, heapIndices, stale) == Undefined(FaceSlotOutOfBounds(32))
  {
    DecodeBlank(scan);
    BlankFaceIsUndefined(Start(heapVertices, heapIndices), stale);
  }

  /** "f " followed by a line break decodes to a face record whose scan
      returned `EOF`. */
  lemma DecodeBlank<F>(scan: FloatScanner<F>)
    ensures DecodeAll(["f \n"], scan) == [FaceLine(ScanResult(-1, []))]
  {
    ClassifyBlank();
    ScanBlank();
    var rs := DecodeAll(["f \n"], scan);
    assert rs[0] == Decode("f \n", scan);
  }

  lemma ClassifyBlank()
    ensures Classify("f \n") == FaceRecord("\n")
  {
    assert "f \n"[..2] == "f ";
    assert "f \n"[2..] == "\n";
  }

  lemma ScanBlank()
    ensures ScanIntegers("\n") == ScanResult(-1, [])
  {
    assert IsSpace('\n');
    assert SkipSpace("\n") == SkipSpace([]);
  }

  /** A face record in the `v/vt/vn` form: the scan stops at the first '/',
      so it reads one integer and the file is rejected. */
  lemma SlashedFace<F>(scan: FloatScanner<F>, heapVertices: seq<Vertex<F>>, heapIndices: seq<Index>)
    requires |heapVertices| == VERTEX_CAPACITY && |heapIndices| == INDEX_CAPACITY
    ensures ParseObjFile(["f 1/1/1 2/2/2 3/3/3\n"], scan, heapVertices, heapIndices) == Panic(InvalidFace)
  {
    var line := "f 1/1/1 2/2/2 3/3/3\n";
    DecodeSlashed(line, scan);
    assert DecodeAll([line], scan) == [FaceLine(ScanResult(1, [1]))];
  }

  lemma DecodeSlashed<F>(line: string, scan: FloatScanner<F>)
    requires line == "f 1/1/1 2/2/2 3/3/3\n"
    ensures Decode(line, scan) == FaceLine(ScanResult(1, [1]))
  {
    var rest := "/1/1 2/2/2 3/3/3\n";
    SlashedText(line, rest);
    DecodeFaceRecord(line, scan);
    SlashDelimits(rest);
    ScanSpaced([1], rest);
  }

  lemma SlashedText(line: string, rest: string)
    requires line == "f 1/1/1 2/2/2 3/3/3\n" && rest == "/1/1 2/2/2 3/3/3\n"
    ensures HasPrefix(line, "f ") && line[2..] == Spaced([1]) + rest
  {
    assert Spaced([1]) == "1";
  }

  /** A line starting "f " is a face record and gets the integer scan of
      what follows. */
  lemma DecodeFaceRecord<F>(line: string, scan: FloatScanner<F>)
    requires HasPrefix(line, "f ")
    ensures Decode(line, scan) == FaceLine(ScanIntegers(line[2..]))
  {
  }

  lemma SlashDelimits(rest: string)
    requires |rest| > 0 && rest[0] == '/'
    ensures Delimits(rest)
  {
    assert SkipSpace(rest) == rest;
  }

  /** OBJ index 0 is not rejected: it becomes 2^32 - 1 in the index array. */
  lemma ZeroIndex<F>(scan: FloatScanner<F>, heapVertices: seq<Vertex<F>>, heapIndices: seq<Index>)
    requires |heapVertices| == VERTEX_CAPACITY && |heapIndices| == INDEX_CAPACITY
    ensures ParseObjFile([FaceText([0, 1, 2])], scan, heapVertices, heapIndices)
      == Ok(MeshData([], 0, [0xFFFF_FFFF, 0, 1], 3))
  {
    var lines := [FaceText([0, 1, 2])];
    ZeroIndexRecords(scan);
    ZeroIndexFan();
    ParseObjFileSucceeds(lines, scan, heapVertices, heapIndices);
    ParseObjFileMesh(lines, scan, heapVertices, heapIndices);
  }

  lemma ZeroIndexRecords<F>(scan: FloatScanner<F>)
    ensures var records := DecodeAll([FaceText([0, 1, 2])], scan);
      records == [FaceLine(ScanResult(3, [0, 1, 2]))] &&
      FaceIndices(records) == Fan([0, 1, 2]) && VertexRecords(records) == []
  {
    DecodeFace([0, 1, 2], scan);
    var records := DecodeAll([FaceText([0, 1, 2])], scan);
    assert records == [FaceLine(ScanResult(3, [0, 1, 2]))];
    assert FaceIndices(records) == Fan([0, 1, 2]) + FaceIndices(records[1..]);
    assert VertexRecords(records) == [] + VertexRecords(records[1..]);
  }

  lemma ZeroIndexFan()
    ensures Fan([0, 1, 2]) == [0xFFFF_FFFF, 0, 1]
  {
    FanTriangle([0, 1, 2], 0);
  }

  /** A line starting "v " is a vertex record and gets the float scan of
      what follows. */
  lemma DecodeVertexRecord<F>(line: string, scan: FloatScanner<F>)
    requires HasPrefix(line, "v ")
    ensures Decode(line, scan) == VertexLine(scan(line[2..]))
  {
  }

  /** Records that are all vertices whose coordinates scanned. */
  predicate AllVertices<F>(records: seq<Record<F>>) {
    forall k :: 0 <= k < |records| ==> records[k].VertexLine? && records[k].position.Some?
  }

  lemma {:induction false} VerticesOnly<F>(records: seq<Record<F>>)
    requires AllVertices(records)
    ensures |VertexRecords(records)| == |records|
    ensures forall k :: 0 <= k < |records| ==>
      VertexRecords(records)[k] == Vertex(records[k].position.value, Indeterminate)
    ensures FaceIndices(records) == [] && FacesWellFormed(records)
    decreases |records|
  {
    if |records| > 0 {
      var rest := records[1..];
      assert forall k :: 0 <= k < |rest| ==> rest[k] == records[k + 1];
      VerticesOnly(rest);
      FacesWellFormedCons(records);
    }
  }

  /** Four corners and the quadrilateral through them: four vertices, in
      file order, and the quadrilateral split into the triangles (1, 2, 3)
      and (1, 3, 4), counted from 0. */
  lemma QuadFile<F>(texts: seq<string>, positions: seq<Vec3<F>>, scan: FloatScanner<F>,
                    heapVertices: seq<Vertex<F>>, heapIndices: seq<Index>)
    requires |heapVertices| == VERTEX_CAPACITY && |heapIndices| == INDEX_CAPACITY
    requires |texts| == |positions| == 4
    requires forall k :: 0 <= k < 4 ==> scan(texts[k]) == Some(positions[k])
    ensures var r := ParseObjFile(QuadText(texts), scan, heapVertices, heapIndices);
      && r.Ok? && r.value.vertexCount == 4 && r.value.indexCount == 6
      && r.value.vertices == seq(4, k requires 0 <= k < 4 => Vertex(positions[k], Indeterminate))
      && r.value.indices == [0, 1, 2, 0, 2, 3]
  {
    QuadLines(texts, positions, scan);
    QuadSpec(positions);
    ParseObjFileRefinesSpec(QuadText(texts), scan, heapVertices, heapIndices);
  }

  /** Four vertex records, one per text, then the face "f 1 2 3 4". */
  function QuadText(texts: seq<string>): seq<string>
    requires |texts| == 4
  {
    seq(4, k requires 0 <= k < 4 => "v " + texts[k]) + [FaceText([1, 2, 3, 4])]
  }

  /** The records the quadrilateral file decodes to. */
  function QuadRecordsOf<F>(positions: seq<Vec3<F>>): seq<Record<F>>
    requires |positions| == 4
  {
    seq(4, k requires 0 <= k < 4 => VertexLine(Some(positions[k]))) + [FaceLine(ScanResult(4, [1, 2, 3, 4]))]
  }

  lemma QuadLines<F>(texts: seq<string>, positions: seq<Vec3<F>>, scan: FloatScanner<F>)
    requires |texts| == |positions| == 4
    requires forall k :: 0 <= k < 4 ==> scan(texts[k]) == Some(positions[k])
    ensures DecodeAll(QuadText(texts), scan) == QuadRecordsOf(positions)
  {
    var corners := seq(4, k requires 0 <= k < 4 => "v " + texts[k]);
    var vs: seq<Record<F>> := seq(4, k requires 0 <= k < 4 => VertexLine(Some(positions[k])));
    DecodeFace([1, 2, 3, 4], scan);
    QuadDecode(texts, positions, scan, corners, vs, FaceText([1, 2, 3, 4]), FaceLine(ScanResult(4, [1, 2, 3, 4])));
  }

  lemma QuadSpec<F>(positions: seq<Vec3<F>>)
    requires |positions| == 4
    ensures Spec(QuadRecordsOf(positions))
      == Ok(MeshData(seq(4, k requires 0 <= k < 4 => Vertex(positions[k], Indeterminate)), 4, [0, 1, 2, 0, 2, 3], 6))
  {
    var vs: seq<Record<F>> := seq(4, k requires 0 <= k < 4 => VertexLine(Some(positions[k])));
    var face: Record<F> := FaceLine(ScanResult(4, [1, 2, 3, 4]));
    QuadRecords(vs, face);
    assert vs + [face] == QuadRecordsOf(positions);
    assert VertexRecords(vs) == seq(4, k requires 0 <= k < 4 => Vertex(positions[k], Indeterminate));
  }

  /** Four vertex records and a last record decode one by one. */
  lemma QuadDecode<F>(texts: seq<string>, positions: seq<Vec3<F>>, scan: FloatScanner<F>,
                      corners: seq<string>, vs: seq<Record<F>>, last: string, face: Record<F>)
    requires |texts| == |positions| == |corners| == |vs| == 4
    requires forall k :: 0 <= k < 4 ==> scan(texts[k]) == Some(positions[k])
    requires forall k :: 0 <= k < 4 ==> corners[k] == "v " + texts[k] && vs[k] == VertexLine(Some(positions[k]))
    requires Decode(last, scan) == face
    ensures DecodeAll(corners + [last], scan) == vs + [face]
  {
    var lines := corners + [last];
    var rs := DecodeAll(lines, scan);
    forall k | 0 <= k < 4
      ensures rs[k] == vs[k]
    {
      assert lines[k] == corners[k];
      DecodeCorner(corners[k], texts[k], positions[k], scan);
    }
    assert rs[4] == face;
    assert rs == vs + [face];
  }

  /** One vertex record of the quadrilateral file. */
  lemma DecodeCorner<F>(line: string, text: string, position: Vec3<F>, scan: FloatScanner<F>)
    requires line == "v " + text && scan(text) == Some(position)
    ensures Decode(line, scan) == VertexLine(Some(position))
  {
    assert line[2..] == text;
    DecodeVertexRecord(line, scan);
  }

  lemma QuadRecords<F>(vs: seq<Record<F>>, face: Record<F>)
    requires |vs| == 4 && AllVertices(vs)
    requires face == FaceLine(ScanResult(4, [1, 2, 3, 4]))
    ensures Spec(vs + [face]) == Ok(MeshData(VertexRecords(vs), 4, [0, 1, 2, 0, 2, 3], 6))
    ensures VertexRecords(vs) == seq(4, k requires 0 <= k < 4 => Vertex(vs[k].position.value, Indeterminate))
  {
    VerticesOnly(vs);
    QuadFace(face);
    RecordsConcat(vs, [face]);
    assert VertexRecords(vs) + [] == VertexRecords(vs);
    assert [] + [0, 1, 2, 0, 2, 3] == [0, 1, 2, 0, 2, 3];
    SpecOutcome(vs + [face]);
  }

  lemma QuadFace<F>(face: Record<F>)
    requires face == FaceLine(ScanResult(4, [1, 2, 3, 4]))
    ensures FaceIndices([face]) == [0, 1, 2, 0, 2, 3]
    ensures VertexRecords([face]) == [] && FacesWellFormed([face])
  {
    FanTriangle([1, 2, 3, 4], 0);
    FanTriangle([1, 2, 3, 4], 1);
    var f := Fan([1, 2, 3, 4]);
    assert f == f[0..3] + f[3..6];
    assert FaceIndices([face]) == f + FaceIndices([face][1..]);
  }

  /** A face of 33 indices: the scan stops after 32 conversions, so only
      the first 32 corners make triangles, 30 of them. */
  lemma LongFace<F>(scan: FloatScanner<F>, heapVertices: seq<Vertex<F>>, heapIndices: seq<Index>)
    requires |heapVertices| == VERTEX_CAPACITY && |heapIndices| == INDEX_CAPACITY
    ensures var xs := seq(33, i => i + 1);
      var r := ParseObjFile([FaceText(xs)], scan, heapVertices, heapIndices);
      && r.Ok? && r.value.indexCount == 90 && r.value.indices == Fan(xs[..MAX_CONVERSIONS])
  {
    var xs := seq(33, i => i + 1);
    var line := FaceText(xs);
    var face: Record<F> := FaceLine(ScanResult(MAX_CONVERSIONS, xs[..MAX_CONVERSIONS]));
    assert line[2..] == Spaced(xs) + "\n";
    ScanSpacedTruncates(xs, "\n");
    DecodeFaceRecord(line, scan);
    assert DecodeAll([line], scan) == [face];
    assert FaceIndices([face]) == Fan(xs[..MAX_CONVERSIONS]) + FaceIndices([face][1..]);
    assert VertexRecords([face]) == [] + VertexRecords([face][1..]);
    FacesWellFormedCons([face]);
    ParseObjFileRefinesSpec([line], scan, heapVertices, heapIndices);
    SpecOutcome([face]);
  }

  /** Face records of four integers each. */
  predicate AllQuads<F>(records: seq<Record<F>>) {
    forall k :: 0 <= k < |records| ==> records[k].FaceLine? && records[k].face.count == |records[k].face.values| == 4
  }

  /** Each quadrilateral is two triangles and no vertex. */
  lemma {:induction false} QuadsOnly<F>(records: seq<Record<F>>)
    requires AllQuads(records)
    ensures FaceTriangles(records) == 2 * |records|
    ensures VertexRecords(records) == [] && FacesWellFormed(records)
    decreases |records|
  {
    if |records| > 0 {
      var rest := records[1..];
      assert forall k :: 0 <= k < |rest| ==> rest[k] == records[k + 1];
      QuadsOnly(rest);
      FacesWellFormedCons(records);
    }
  }

  /** A mesh of vertex records followed by quadrilateral faces: every vertex
      is kept and every quadrilateral contributes six index entries. A cube,
      eight vertices and six quadrilaterals, gives 36 entries. */
  lemma QuadMesh<F>(vs: seq<Record<F>>, quads: seq<Record<F>>)
    requires AllVertices(vs) && AllQuads(quads)
    requires |vs| <= VERTEX_CAPACITY && 6 * |quads| <= INDEX_CAPACITY
    ensures Spec(vs + quads).Ok?
    ensures Spec(vs + quads).value.vertexCount == |vs|
    ensures Spec(vs + quads).value.indexCount == 6 * |quads|
  {
    VerticesOnly(vs);
    QuadsOnly(quads);
    FaceIndicesAreTriangles(quads);
    RecordsConcat(vs, quads);
    SpecOutcome(vs + quads);
  }

  lemma Cube<F>(vs: seq<Record<F>>, quads: seq<Record<F>>)
    requires |vs| == 8 && AllVertices(vs) && |quads| == 6 && AllQuads(quads)
    ensures Spec(vs + quads).Ok?
    ensures Spec(vs + quads).value.vertexCount == 8 && Spec(vs + quads).value.indexCount == 36
  {
    QuadMesh(vs, quads);
  }
}
