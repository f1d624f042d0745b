/** What reading an OBJ file is meant to produce, stated over whole
    sequences and without the loader's fixed arrays: every line contributes
    its records in file order, and the read fails on the first malformed face
    or on the first line whose records no longer fit the capacities. */
module ObjSpec {
  import opened CScan
  import opened Mesh
  import opened Triangulation
  import opened ObjLine

  /** The mesh read so far. */
  datatype Acc<F> = Acc(vertices: seq<Vertex<F>>, indices: seq<Index>)

  /** The vertex a line contributes: one for a vertex record whose three
      coordinates scan, none otherwise. */
  function LineVertices<F>(r: Record<F>): seq<Vertex<F>> {
    if r.VertexLine? && r.position.Some? then [Vertex(r.position.value, Indeterminate)] else []
  }

  /** The index entries a line contributes: the fan of a face record's
      scanned integers, none for other lines. */
  function LineIndices<F>(r: Record<F>): (ix: seq<Index>)
    ensures |ix| == 3 * LineTriangles(r)
  {
    if r.FaceLine? then Fan(r.face.values) else []
  }

  /** The number of triangles a line contributes. */
  function LineTriangles<F>(r: Record<F>): nat {
    if r.FaceLine? && |r.face.values| >= 3 then |r.face.values| - 2 else 0
  }

  /** Every line but a face record whose scan returns fewer than three
      integers. */
  predicate FaceWellFormed<F>(r: Record<F>) {
    r.FaceLine? ==> r.face.count >= 3
  }

  predicate FacesWellFormed<F>(lines: seq<Record<F>>) {
    forall i :: 0 <= i < |lines| ==> FaceWellFormed(lines[i])
  }

  lemma FacesWellFormedCons<F>(lines: seq<Record<F>>)
    requires |lines| > 0
    ensures FacesWellFormed(lines) <==> FaceWellFormed(lines[0]) && FacesWellFormed(lines[1..])
  {
    assert forall i :: 0 < i < |lines| ==> lines[i] == lines[1..][i - 1];
  }

  /** All vertices of `lines`, in file order. */
  function VertexRecords<F>(lines: seq<Record<F>>): seq<Vertex<F>> {
    if |lines| == 0 then [] else LineVertices(lines[0]) + VertexRecords(lines[1..])
  }

  /** All index entries of `lines`, in file order. */
  function FaceIndices<F>(lines: seq<Record<F>>): seq<Index> {
    if |lines| == 0 then [] else LineIndices(lines[0]) + FaceIndices(lines[1..])
  }

  /** Reading one line. */
  function SpecStep<F>(acc: Acc<F>, line: Record<F>): (r: Outcome<Acc<F>>)
    ensures !r.Undefined?
    ensures r.Ok? ==> |r.value.vertices| <= VERTEX_CAPACITY && |r.value.indices| <= INDEX_CAPACITY
    ensures r.Ok? ==> |r.value.indices| == |acc.indices| + |LineIndices(line)|
  {
    var vs := LineVertices(line);
    var ix := LineIndices(line);
    if !FaceWellFormed(line) then Panic(InvalidFace)
    else if |acc.vertices| + |vs| > VERTEX_CAPACITY then Panic(TooManyVertices)
    else if |acc.indices| + |ix| > INDEX_CAPACITY then Panic(TooManyIndices)
    else Ok(Acc(acc.vertices + vs, acc.indices + ix))
  }

  /** The number of triangles of all faces of `lines`. */
  function FaceTriangles<F>(lines: seq<Record<F>>): nat {
    if |lines| == 0 then 0 else LineTriangles(lines[0]) + FaceTriangles(lines[1..])
  }

  /** The index entries of a file come in whole triangles. */
  lemma {:induction false} FaceIndicesAreTriangles<F>(lines: seq<Record<F>>)
    ensures |FaceIndices(lines)| == 3 * FaceTriangles(lines)
  {
    if |lines| > 0 {
      FaceIndicesAreTriangles(lines[1..]);
    }
  }

  /** 65536 is not a multiple of 3, so whole triangles fill at most 65535
      entries of the index array. */
  lemma WholeTriangles(k: nat)
    requires 3 * k <= INDEX_CAPACITY
    ensures 3 * k < INDEX_CAPACITY && (3 * k) % 3 == 0
  {
  }

  /** Reading `lines` after `acc` has been read. */
  function SpecRun<F>(acc: Acc<F>, lines: seq<Record<F>>): (r: Outcome<Acc<F>>)
    requires |acc.vertices| <= VERTEX_CAPACITY && |acc.indices| <= INDEX_CAPACITY
    ensures !r.Undefined?
    ensures r.Ok? ==> |r.value.vertices| <= VERTEX_CAPACITY && |r.value.indices| <= INDEX_CAPACITY
    ensures r.Ok? ==> |r.value.indices| == |acc.indices| + 3 * FaceTriangles(lines)
    decreases |lines|
  {
    if |lines| == 0 then Ok(acc)
    else
      match SpecStep(acc, lines[0])
      case Ok(next) => SpecRun(next, lines[1..])
      case Panic(reason) => Panic(reason)
      case Undefined(behaviour) => Undefined(behaviour)
  }

  /** The mesh read from a whole file, with its counts. */
  function Spec<F>(lines: seq<Record<F>>): (r: Outcome<MeshData<F>>)
    ensures !r.Undefined?
    ensures r.Ok? ==> r.value.vertexCount == |r.value.vertices| <= VERTEX_CAPACITY
    ensures r.Ok? ==> r.value.indexCount == |r.value.indices| < INDEX_CAPACITY
    ensures r.Ok? ==> |r.value.indices| % 3 == 0
  {
    var acc :- SpecRun(Acc([], []), lines);
    WholeTriangles(FaceTriangles(lines));
    Ok(MeshData(acc.vertices, |acc.vertices|, acc.indices, |acc.indices|))
  }

  // ---------------------------------------------------------------------
  // The outcome of a read, in closed form.
  // ---------------------------------------------------------------------

  /** The condition under which reading `lines` after `acc` succeeds: every
      face is well formed and all records fit. */
  predicate Fits<F>(acc: Acc<F>, lines: seq<Record<F>>) {
    && FacesWellFormed(lines)
    && |acc.vertices| + |VertexRecords(lines)| <= VERTEX_CAPACITY
    && |acc.indices| + |FaceIndices(lines)| <= INDEX_CAPACITY
  }

  /** Reading one line succeeds exactly when it is well formed and its
      records fit. */
  lemma SpecStepOk<F>(acc: Acc<F>, line: Record<F>)
    ensures SpecStep(acc, line).Ok? <==>
      && FaceWellFormed(line)
      && |acc.vertices| + |LineVertices(line)| <= VERTEX_CAPACITY
      && |acc.indices| + |LineIndices(line)| <= INDEX_CAPACITY
    ensures SpecStep(acc, line).Ok? ==>
      SpecStep(acc, line).value == Acc(acc.vertices + LineVertices(line), acc.indices + LineIndices(line))
  {
  }

  /** The lines fit after `acc` exactly when the first one can be read and
      the others fit after it. */
  lemma FitsCons<F>(acc: Acc<F>, lines: seq<Record<F>>)
    requires |lines| > 0
    ensures Fits(acc, lines) <==>
      SpecStep(acc, lines[0]).Ok? && Fits(SpecStep(acc, lines[0]).value, lines[1..])
  {
    var line := lines[0];
    assert VertexRecords(lines) == LineVertices(line) + VertexRecords(lines[1..]);
    assert FaceIndices(lines) == LineIndices(line) + FaceIndices(lines[1..]);
    FacesWellFormedCons(lines);
    SpecStepOk(acc, line);
  }

  /** Reading `lines` after `acc` succeeds exactly when they fit, and then
      appends their records in file order. */
  lemma {:induction false} SpecRunOk<F>(acc: Acc<F>, lines: seq<Record<F>>)
    requires |acc.vertices| <= VERTEX_CAPACITY && |acc.indices| <= INDEX_CAPACITY
    ensures SpecRun(acc, lines).Ok? <==> Fits(acc, lines)
    ensures Fits(acc, lines) ==>
      SpecRun(acc, lines) == Ok(Acc(acc.vertices + VertexRecords(lines), acc.indices + FaceIndices(lines)))
    decreases |lines|
  {
    if |lines| == 0 {
      assert acc.vertices + [] == acc.vertices && acc.indices + [] == acc.indices;
    } else {
      FitsCons(acc, lines);
      var step := SpecStep(acc, lines[0]);
      if step.Ok? {
        SpecRunOk(step.value, lines[1..]);
        if Fits(acc, lines) {
          SpecStepOk(acc, lines[0]);
          AppendRecords(acc, lines);
        }
      }
    }
  }

  lemma AppendRecords<F>(acc: Acc<F>, lines: seq<Record<F>>)
    requires |lines| > 0
    ensures acc.vertices + LineVertices(lines[0]) + VertexRecords(lines[1..]) == acc.vertices + VertexRecords(lines)
    ensures acc.indices + LineIndices(lines[0]) + FaceIndices(lines[1..]) == acc.indices + FaceIndices(lines)
  {
    var vs, vsRest := LineVertices(lines[0]), VertexRecords(lines[1..]);
    var ix, ixRest := LineIndices(lines[0]), FaceIndices(lines[1..]);
    assert VertexRecords(lines) == vs + vsRest;
    assert FaceIndices(lines) == ix + ixRest;
    Associative(acc.vertices, vs, vsRest);
    Associative(acc.indices, ix, ixRest);
  }

  /** When reading `lines` after `acc` panics, the lines bear out the
      reason. */
  lemma {:induction false} SpecRunPanicReason<F>(acc: Acc<F>, lines: seq<Record<F>>)
    requires |acc.vertices| <= VERTEX_CAPACITY && |acc.indices| <= INDEX_CAPACITY
    ensures SpecRun(acc, lines) == Panic(InvalidFace) ==> !FacesWellFormed(lines)
    ensures SpecRun(acc, lines) == Panic(TooManyVertices) ==>
      |acc.vertices| + |VertexRecords(lines)| > VERTEX_CAPACITY
    ensures SpecRun(acc, lines) == Panic(TooManyIndices) ==>
      |acc.indices| + |FaceIndices(lines)| > INDEX_CAPACITY
    decreases |lines|
  {
    if |lines| > 0 {
      var line := lines[0];
      var vs := LineVertices(line);
      var ix := LineIndices(line);
      assert VertexRecords(lines) == vs + VertexRecords(lines[1..]);
      assert FaceIndices(lines) == ix + FaceIndices(lines[1..]);
      FacesWellFormedCons(lines);
      var step := SpecStep(acc, line);
      if step.Ok? {
        SpecRunPanicReason(step.value, lines[1..]);
      }
    }
  }

  /** The outcome of reading a whole file. */
  lemma SpecOutcome<F>(lines: seq<Record<F>>)
    ensures Spec(lines).Ok? <==>
      && FacesWellFormed(lines)
      && |VertexRecords(lines)| <= VERTEX_CAPACITY
      && |FaceIndices(lines)| <= INDEX_CAPACITY
    ensures Spec(lines).Ok? ==>
      Spec(lines).value.vertices == VertexRecords(lines) && Spec(lines).value.indices == FaceIndices(lines)
    ensures Spec(lines) == Panic(InvalidFace) ==> !FacesWellFormed(lines)
    ensures Spec(lines) == Panic(TooManyVertices) ==> |VertexRecords(lines)| > VERTEX_CAPACITY
    ensures Spec(lines) == Panic(TooManyIndices) ==> |FaceIndices(lines)| > INDEX_CAPACITY
  {
    var empty: Acc<F> := Acc([], []);
    SpecRunOk(empty, lines);
    SpecRunPanicReason(empty, lines);
    assert [] + VertexRecords(lines) == VertexRecords(lines);
    assert [] + FaceIndices(lines) == FaceIndices(lines);
  }

  /** A panic ends the read: whatever follows the lines that caused it, the
      outcome is the same panic, and no partial mesh is produced. */
  lemma {:induction false} SpecRunPanicIsFinal<F>(acc: Acc<F>, lines: seq<Record<F>>, more: seq<Record<F>>)
    requires |acc.vertices| <= VERTEX_CAPACITY && |acc.indices| <= INDEX_CAPACITY
    requires SpecRun(acc, lines).Panic?
    ensures SpecRun(acc, lines + more) == SpecRun(acc, lines)
    decreases |lines|
  {
    assert (lines + more)[0] == lines[0];
    match SpecStep(acc, lines[0])
    case Ok(next) =>
      assert (lines + more)[1..] == lines[1..] + more;
      SpecRunPanicIsFinal(next, lines[1..], more);
    case Panic(_) =>
    case Undefined(_) =>
  }

  lemma SpecPanicIsFinal<F>(lines: seq<Record<F>>, more: seq<Record<F>>)
    requires Spec(lines).Panic?
    ensures Spec(lines + more) == Spec(lines)
  {
    SpecRunPanicIsFinal(Acc([], []), lines, more);
  }

  /** Reading proceeds line by line: reading `a + b` is reading `a`, then
      reading `b` from where `a` left off. */
  lemma {:induction false} SpecRunConcat<F>(acc: Acc<F>, a: seq<Record<F>>, b: seq<Record<F>>)
    requires |acc.vertices| <= VERTEX_CAPACITY && |acc.indices| <= INDEX_CAPACITY
    ensures SpecRun(acc, a + b) ==
      match SpecRun(acc, a)
      case Ok(mid) => SpecRun(mid, b)
      case Panic(reason) => Panic(reason)
      case Undefined(behaviour) => Undefined(behaviour)
    decreases |a|
  {
    if |a| == 0 {
      assert a + b == b;
    } else {
      assert (a + b)[0] == a[0];
      assert (a + b)[1..] == a[1..] + b;
      match SpecStep(acc, a[0])
      case Ok(next) => SpecRunConcat(next, a[1..], b);
      case Panic(_) =>
      case Undefined(_) =>
    }
  }

  /** The records of `a + b` are those of `a` followed by those of `b`. */
  lemma {:induction false} RecordsConcat<F>(a: seq<Record<F>>, b: seq<Record<F>>)
    ensures VertexRecords(a + b) == VertexRecords(a) + VertexRecords(b)
    ensures FaceIndices(a + b) == FaceIndices(a) + FaceIndices(b)
    ensures FacesWellFormed(a + b) <==> FacesWellFormed(a) && FacesWellFormed(b)
    decreases |a|
  {
    if |a| == 0 {
      assert a + b == b;
    } else {
      assert (a + b)[0] == a[0];
      assert (a + b)[1..] == a[1..] + b;
      RecordsConcat(a[1..], b);
      Associative(LineVertices(a[0]), VertexRecords(a[1..]), VertexRecords(b));
      Associative(LineIndices(a[0]), FaceIndices(a[1..]), FaceIndices(b));
      FacesWellFormedCons(a + b);
      FacesWellFormedCons(a);
    }
  }
}
