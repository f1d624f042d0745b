/** The loader against the reference reading of ObjSpec: the written prefixes
    of the two working arrays are the mesh read so far, each line moves them
    as the reference moves it, and so the loader's outcome is the
    reference's, whatever the allocations held beforehand. */
module ObjRefinement {
  import opened CScan
  import opened Mesh
  import opened WorkBuffer
  import opened ObjLine
  import opened ObjSpec
  import opened ObjParser

  /** The mesh the working arrays hold: their written prefixes. */
  function Abstract<F>(w: Working<F>): (a: Acc<F>)
    requires WellSized(w)
    ensures |a.vertices| == w.vertices.count <= VERTEX_CAPACITY
    ensures |a.indices| == w.indices.count <= INDEX_CAPACITY
  {
    Acc(Written(w.vertices), Written(w.indices))
  }

  function Lift<F>(o: Outcome<Working<F>>): Outcome<Acc<F>>
    requires o.Ok? ==> WellSized(o.value)
  {
    match o
    case Ok(w) => Ok(Abstract(w))
    case Panic(reason) => Panic(reason)
    case Undefined(behaviour) => Undefined(behaviour)
  }

  /** One line: the loader's step and the reference step agree, on success
      and on the reason of a panic. */
  lemma StepRefines<F>(w: Working<F>, line: Record<F>)
    requires WellSized(w)
    requires ScannedFace(line)
    ensures Lift(Step(w, line)) == SpecStep(Abstract(w), line)
  {
    var a := Abstract(w);
    assert a.vertices + [] == a.vertices && a.indices + [] == a.indices;
  }

  /** A run of lines: the same agreement, line after line. */
  lemma {:induction false} RunRefines<F>(w: Working<F>, lines: seq<Record<F>>)
    requires WellSized(w) && Scanned(lines)
    ensures Lift(Run(w, lines)) == SpecRun(Abstract(w), lines)
    decreases |lines|
  {
    if |lines| > 0 {
      ScannedTail(lines);
      StepRefines(w, lines[0]);
      var step := Step(w, lines[0]);
      if step.Ok? {
        RunRefines(step.value, lines[1..]);
      }
    }
  }

  /** The loader computes the reference reading of the decoded lines. */
  lemma ParseObjFileRefinesSpec<F>(lines: seq<string>, scan: FloatScanner<F>, heapVertices: seq<Vertex<F>>, heapIndices: seq<Index>)
    requires |heapVertices| == VERTEX_CAPACITY && |heapIndices| == INDEX_CAPACITY
    ensures ParseObjFile(lines, scan, heapVertices, heapIndices) == Spec(DecodeAll(lines, scan))
  {
    var records := DecodeAll(lines, scan);
    DecodedAreScanned(lines, scan);
    RunRefines(Start(heapVertices, heapIndices), records);
  }

  /** The loader succeeds exactly when every face record scans at least
      three integers and the vertices and index entries fit their arrays. */
  lemma ParseObjFileSucceeds<F>(lines: seq<string>, scan: FloatScanner<F>, heapVertices: seq<Vertex<F>>, heapIndices: seq<Index>)
    requires |heapVertices| == VERTEX_CAPACITY && |heapIndices| == INDEX_CAPACITY
    ensures ParseObjFile(lines, scan, heapVertices, heapIndices).Ok? <==>
      && FacesWellFormed(DecodeAll(lines, scan))
      && |VertexRecords(DecodeAll(lines, scan))| <= VERTEX_CAPACITY
      && |FaceIndices(DecodeAll(lines, scan))| <= INDEX_CAPACITY
  {
    ParseObjFileRefinesSpec(lines, scan, heapVertices, heapIndices);
    SpecOutcome(DecodeAll(lines, scan));
  }

  /** On success the loader returns every vertex and every fan entry, in
      file order. */
  lemma ParseObjFileMesh<F>(lines: seq<string>, scan: FloatScanner<F>, heapVertices: seq<Vertex<F>>, heapIndices: seq<Index>)
    requires |heapVertices| == VERTEX_CAPACITY && |heapIndices| == INDEX_CAPACITY
    ensures ParseObjFile(lines, scan, heapVertices, heapIndices).Ok? ==>
      && ParseObjFile(lines, scan, heapVertices, heapIndices).value.vertices == VertexRecords(DecodeAll(lines, scan))
      && ParseObjFile(lines, scan, heapVertices, heapIndices).value.indices == FaceIndices(DecodeAll(lines, scan))
  {
    ParseObjFileRefinesSpec(lines, scan, heapVertices, heapIndices);
    SpecOutcome(DecodeAll(lines, scan));
  }

  /** Each panic names a condition that the file bears out. */
  lemma ParseObjFilePanics<F>(lines: seq<string>, scan: FloatScanner<F>, heapVertices: seq<Vertex<F>>, heapIndices: seq<Index>)
    requires |heapVertices| == VERTEX_CAPACITY && |heapIndices| == INDEX_CAPACITY
    ensures ParseObjFile(lines, scan, heapVertices, heapIndices) == Panic(InvalidFace) ==>
      !FacesWellFormed(DecodeAll(lines, scan))
    ensures ParseObjFile(lines, scan, heapVertices, heapIndices) == Panic(TooManyVertices) ==>
      |VertexRecords(DecodeAll(lines, scan))| > VERTEX_CAPACITY
    ensures ParseObjFile(lines, scan, heapVertices, heapIndices) == Panic(TooManyIndices) ==>
      |FaceIndices(DecodeAll(lines, scan))| > INDEX_CAPACITY
  {
    ParseObjFileRefinesSpec(lines, scan, heapVertices, heapIndices);
    SpecOutcome(DecodeAll(lines, scan));
  }

  /** Whatever the two allocations held, the outcome is the same: the loader
      reads only entries it has written. */
  lemma ParseObjFileIgnoresHeap<F>(lines: seq<string>, scan: FloatScanner<F>,
                                   heapVertices: seq<Vertex<F>>, heapIndices: seq<Index>,
                                   otherVertices: seq<Vertex<F>>, otherIndices: seq<Index>)
    requires |heapVertices| == VERTEX_CAPACITY && |heapIndices| == INDEX_CAPACITY
    requires |otherVertices| == VERTEX_CAPACITY && |otherIndices| == INDEX_CAPACITY
    ensures ParseObjFile(lines, scan, heapVertices, heapIndices) == ParseObjFile(lines, scan, otherVertices, otherIndices)
  {
    ParseObjFileRefinesSpec(lines, scan, heapVertices, heapIndices);
    ParseObjFileRefinesSpec(lines, scan, otherVertices, otherIndices);
  }
}
