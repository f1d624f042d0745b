/** `parseObjFile`: the loader's single pass over the lines of an OBJ file,
    with its two fixed 65536-entry working arrays, its three `PANIC`s and
    the final copy into exact-size output arrays. This is the loader with
    the index-capacity guard and the face-count comparison corrected; the
    module ObjParserAsWritten keeps the two as the source has them. */
module ObjParser {
  import opened CScan
  import opened Mesh
  import opened Triangulation
  import opened WorkBuffer
  import opened ObjLine

  /** The loader's local state: the working vertex and index arrays with
      their counts. */
  datatype Working<F> = Working(vertices: Buffer<Vertex<F>>, indices: Buffer<Index>)

  /** Both arrays have their allocated size and their counts lie within it. */
  predicate WellSized<F>(w: Working<F>) {
    && WorkBuffer.Valid(w.vertices) && |w.vertices.cells| == VERTEX_CAPACITY
    && WorkBuffer.Valid(w.indices) && |w.indices.cells| == INDEX_CAPACITY
  }

  /** The two allocations; `heapVertices` and `heapIndices` stand for the
      unspecified contents `malloc` returns. */
  function Start<F>(heapVertices: seq<Vertex<F>>, heapIndices: seq<Index>): (w: Working<F>)
    requires |heapVertices| == VERTEX_CAPACITY && |heapIndices| == INDEX_CAPACITY
    ensures WellSized(w)
    ensures Written(w.vertices) == [] && Written(w.indices) == []
  {
    Working(Allocate(heapVertices), Allocate(heapIndices))
  }

  /** A vertex record: a position that scanned is appended, as one vertex
      whose texture coordinate is never assigned; one that did not scan is
      skipped; a position arriving when the array is full panics. */
  function AddVertex<F>(w: Working<F>, position: Option<Vec3<F>>): (r: Outcome<Working<F>>)
    requires WellSized(w)
    ensures position.None? ==> r == Ok(w)
    ensures position.Some? && w.vertices.count < VERTEX_CAPACITY ==>
      && r.Ok? && WellSized(r.value)
      && Written(r.value.vertices) == Written(w.vertices) + [Vertex(position.value, Indeterminate)]
      && r.value.indices == w.indices
    ensures position.Some? && w.vertices.count >= VERTEX_CAPACITY ==> r == Panic(TooManyVertices)
  {
    match position
    case None => Ok(w)
    case Some(p) =>
      if w.vertices.count < |w.vertices.cells| then
        Ok(w.(vertices := Append(w.vertices, Vertex(p, Indeterminate))))
      else
        Panic(TooManyVertices)
  }

  /** The triangulation loop from corner `i` on: for each remaining corner
      `i` it appends the triangle (corner 0, corner `i - 1`, corner `i`),
      provided the whole triangle fits in the index array; otherwise it
      panics. */
  function AddTriangles(ib: Buffer<Index>, face: seq<int>, i: nat): (r: Outcome<Buffer<Index>>)
    requires WorkBuffer.Valid(ib) && 2 <= i <= |face|
    decreases |face| - i
    ensures r.Ok? || r == Panic(TooManyIndices)
    ensures r.Ok? <==> ib.count + 3 * (|face| - i) <= |ib.cells|
    ensures r.Ok? ==>
      && WorkBuffer.Valid(r.value) && |r.value.cells| == |ib.cells|
      && Written(r.value) == Written(ib) + Triangles(face, i - 2)
  {
    if i == |face| then
      assert Written(ib) + [] == Written(ib);
      Ok(ib)
    else if ib.count + 3 <= |ib.cells| then
      var triangle := [ToIndex(face[0]), ToIndex(face[i - 1]), ToIndex(face[i])];
      var next := PushTriangle(ib, triangle);
      var r := AddTriangles(next, face, i + 1);
      if r.Ok? then
        Associative(Written(ib), triangle, Triangles(face, i - 1));
        r
      else
        r
    else
      Panic(TooManyIndices)
  }

  /** The three stores of one loop iteration. */
  function PushTriangle(ib: Buffer<Index>, triangle: seq<Index>): (r: Buffer<Index>)
    requires WorkBuffer.Valid(ib) && ib.count + 3 <= |ib.cells| && |triangle| == 3
    ensures WorkBuffer.Valid(r) && |r.cells| == |ib.cells|
    ensures Written(r) == Written(ib) + triangle
  {
    assert triangle == [triangle[0]] + [triangle[1]] + [triangle[2]];
    Append(Append(Append(ib, triangle[0]), triangle[1]), triangle[2])
  }

  /** A face record: a scan that returned fewer than three integers (or
      `EOF`) panics; otherwise the face's triangle fan is appended, or the
      loader panics when it does not fit. */
  function AddFace<F>(w: Working<F>, face: ScanResult): (r: Outcome<Working<F>>)
    requires WellSized(w)
    requires face.count == -1 || face.count == |face.values|
    ensures face.count < 3 ==> r == Panic(InvalidFace)
    ensures face.count >= 3 ==> (r.Ok? <==> w.indices.count + |Fan(face.values)| <= INDEX_CAPACITY)
    ensures face.count >= 3 && !r.Ok? ==> r == Panic(TooManyIndices)
    ensures r.Ok? ==>
      && WellSized(r.value) && r.value.vertices == w.vertices
      && Written(r.value.indices) == Written(w.indices) + Fan(face.values)
  {
    if face.count < 3 then Panic(InvalidFace)
    else
      var ib :- AddTriangles(w.indices, face.values, 2);
      Ok(w.(indices := ib))
  }

  /** One line of the file. Lines other than vertex and face records change
      nothing. */
  function Step<F>(w: Working<F>, line: Record<F>): (r: Outcome<Working<F>>)
    requires WellSized(w)
    requires ScannedFace(line)
    ensures !r.Undefined?
    ensures r.Ok? ==> WellSized(r.value)
    ensures line.OtherLine? ==> r == Ok(w)
  {
    match line
    case VertexLine(position) => AddVertex(w, position)
    case FaceLine(face) => AddFace(w, face)
    case OtherLine => Ok(w)
  }

  /** Face records as `Decode` produces them: the scan's return value is
      `EOF` or the number of integers it assigned. */
  predicate Scanned<F>(lines: seq<Record<F>>) {
    forall i :: 0 <= i < |lines| ==> ScannedFace(lines[i])
  }

  predicate ScannedFace<F>(line: Record<F>) {
    line.FaceLine? ==>
      && (line.face.count == -1 || line.face.count == |line.face.values|)
      && |line.face.values| <= MAX_CONVERSIONS
  }

  lemma ScannedTail<F>(lines: seq<Record<F>>)
    requires |lines| > 0 && Scanned(lines)
    ensures ScannedFace(lines[0]) && Scanned(lines[1..])
  {
    assert forall i :: 0 <= i < |lines[1..]| ==> lines[1..][i] == lines[i + 1];
  }

  lemma DecodedAreScanned<F>(lines: seq<string>, scan: FloatScanner<F>)
    ensures Scanned(DecodeAll(lines, scan))
  {
  }

  /** The lines from `lines[0]` on; the first panic ends the pass. */
  function Run<F>(w: Working<F>, lines: seq<Record<F>>): (r: Outcome<Working<F>>)
    requires WellSized(w) && Scanned(lines)
    ensures !r.Undefined?
    ensures r.Ok? ==> WellSized(r.value)
    decreases |lines|
  {
    if |lines| == 0 then Ok(w)
    else
      ScannedTail(lines);
      var next :- Step(w, lines[0]);
      Run(next, lines[1..])
  }

  /** The final copy: exact-size arrays holding the written prefix of each
      working array, and their counts. */
  function CopyOut<F>(w: Working<F>): (m: MeshData<F>)
    requires WellSized(w)
    ensures m.vertexCount == |m.vertices| == w.vertices.count
    ensures m.indexCount == |m.indices| == w.indices.count
    ensures forall i :: 0 <= i < |m.vertices| ==> m.vertices[i] == w.vertices.cells[i]
    ensures forall i :: 0 <= i < |m.indices| ==> m.indices[i] == w.indices.cells[i]
  {
    MeshData(Written(w.vertices), w.vertices.count, Written(w.indices), w.indices.count)
  }

  /** The whole loader, from the lines of an opened file. */
  function ParseObjFile<F>(lines: seq<string>, scan: FloatScanner<F>, heapVertices: seq<Vertex<F>>, heapIndices: seq<Index>): (r: Outcome<MeshData<F>>)
    requires |heapVertices| == VERTEX_CAPACITY && |heapIndices| == INDEX_CAPACITY
    ensures !r.Undefined?
    ensures r.Ok? ==> r.value.vertexCount == |r.value.vertices| <= VERTEX_CAPACITY
    ensures r.Ok? ==> r.value.indexCount == |r.value.indices| <= INDEX_CAPACITY
  {
    DecodedAreScanned(lines, scan);
    var w :- Run(Start(heapVertices, heapIndices), DecodeAll(lines, scan));
    Ok(CopyOut(w))
  }
}
