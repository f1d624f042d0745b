/** `parseObjFile` as its source has it at the two places where it departs
    from what it evidently intends:

    - the index-capacity test `indexCount < indexArraySize` runs once per
      triangle, before three stores; since 65536 is not a multiple of 3 the
      count reaches 65535 and passes it, and the next two stores land at
      65536 and beyond;
    - the face scan's return value is stored in a `u32`, so `EOF` (-1, for a
      face record with nothing after "f ") becomes 2^32 - 1, passes the
      "fewer than three" test, and the loop reads `idx` past its 32 slots.

    Here an out-of-bounds access ends the computation as `Undefined`. */
module ObjParserAsWritten {
  import opened CScan
  import opened Mesh
  import opened Triangulation
  import opened WorkBuffer
  import opened ObjLine
  import opened ObjParser

  /** The face array `int idx[32]` after the scan: the integers scanned,
      then whatever the slots the scan did not assign held before
      (`stale`). */
  function FaceSlots(values: seq<int>, stale: seq<int>): (slots: seq<int>)
    requires |values| <= MAX_CONVERSIONS && |stale| == MAX_CONVERSIONS
    ensures |slots| == MAX_CONVERSIONS
    ensures forall j :: 0 <= j < |values| ==> slots[j] == values[j]
  {
    values + stale[|values|..]
  }

  /** `indices[indexCount++] = idx[slot] - 1;`, reading the slot first. */
  function Store(ib: Buffer<Index>, slots: seq<int>, slot: nat): (r: Outcome<Buffer<Index>>)
    requires WorkBuffer.Valid(ib)
    ensures slot >= |slots| ==> r == Undefined(FaceSlotOutOfBounds(slot))
    ensures slot < |slots| && ib.count >= |ib.cells| ==> r == Undefined(IndexWriteOutOfBounds(ib.count))
    ensures slot < |slots| && ib.count < |ib.cells| ==>
      && r.Ok? && WorkBuffer.Valid(r.value) && |r.value.cells| == |ib.cells|
      && Written(r.value) == Written(ib) + [ToIndex(slots[slot])]
  {
    if slot >= |slots| then Undefined(FaceSlotOutOfBounds(slot))
    else if ib.count >= |ib.cells| then Undefined(IndexWriteOutOfBounds(ib.count))
    else Ok(Append(ib, ToIndex(slots[slot])))
  }

  /** The triangulation loop as written: `for (u32 i = 2; i < n; i++)`, the
      capacity test once per triangle, then the three stores. */
  function AddTrianglesAsWritten(ib: Buffer<Index>, slots: seq<int>, n: U32, i: nat): (r: Outcome<Buffer<Index>>)
    requires WorkBuffer.Valid(ib) && 2 <= i
    decreases n - i
    ensures r.Ok? ==> WorkBuffer.Valid(r.value) && |r.value.cells| == |ib.cells|
  {
    if i >= n then Ok(ib)
    else if ib.count < |ib.cells| then
      var first :- Store(ib, slots, 0);
      var second :- Store(first, slots, i - 1);
      var third :- Store(second, slots, i);
      AddTrianglesAsWritten(third, slots, n, i + 1)
    else
      Panic(TooManyIndices)
  }

  /** A face record as written: the scan's return value converted to `u32`
      before it is compared with 3. */
  function AddFaceAsWritten<F>(w: Working<F>, face: ScanResult, stale: seq<int>): (r: Outcome<Working<F>>)
    requires WellSized(w) && |face.values| <= MAX_CONVERSIONS && |stale| == MAX_CONVERSIONS
    ensures 0 <= face.count < 3 ==> r == Panic(InvalidFace)
    ensures r.Ok? ==> WellSized(r.value) && r.value.vertices == w.vertices
  {
    var n := ToU32(face.count);
    if n < 3 then Panic(InvalidFace)
    else
      var ib :- AddTrianglesAsWritten(w.indices, FaceSlots(face.values, stale), n, 2);
      Ok(w.(indices := ib))
  }

  function StepAsWritten<F>(w: Working<F>, line: Record<F>, stale: seq<int>): (r: Outcome<Working<F>>)
    requires WellSized(w) && ScannedFace(line) && |stale| == MAX_CONVERSIONS
    ensures r.Ok? ==> WellSized(r.value)
    ensures line.OtherLine? ==> r == Ok(w)
  {
    match line
    case VertexLine(position) => AddVertex(w, position)
    case FaceLine(face) => AddFaceAsWritten(w, face, stale)
    case OtherLine => Ok(w)
  }

  function RunAsWritten<F>(w: Working<F>, lines: seq<Record<F>>, stale: seq<int>): (r: Outcome<Working<F>>)
    requires WellSized(w) && Scanned(lines) && |stale| == MAX_CONVERSIONS
    ensures r.Ok? ==> WellSized(r.value)
    decreases |lines|
  {
    if |lines| == 0 then Ok(w)
    else
      ScannedTail(lines);
      var next :- StepAsWritten(w, lines[0], stale);
      RunAsWritten(next, lines[1..], stale)
  }

  /** The loader as written. `stale` stands for the contents of the face
      array's unassigned slots. */
  function ParseObjFileAsWritten<F>(lines: seq<string>, scan: FloatScanner<F>, heapVertices: seq<Vertex<F>>,
                                    heapIndices: seq<Index>, stale: seq<int>): (r: Outcome<MeshData<F>>)
    requires |heapVertices| == VERTEX_CAPACITY && |heapIndices| == INDEX_CAPACITY && |stale| == MAX_CONVERSIONS
    ensures r.Ok? ==> r.value.vertexCount == |r.value.vertices| <= VERTEX_CAPACITY
    ensures r.Ok? ==> r.value.indexCount == |r.value.indices| <= INDEX_CAPACITY
  {
    DecodedAreScanned(lines, scan);
    var w :- RunAsWritten(Start(heapVertices, heapIndices), DecodeAll(lines, scan), stale);
    Ok(CopyOut(w))
  }

  // ---------------------------------------------------------------------
  // The capacity test: "Too many indices" can never be reported.
  // ---------------------------------------------------------------------

  /** What the as-written test turns the corrected loader's "Too many
      indices" into: a store at index 65536, one past the array. */
  function Overrun<T>(o: Outcome<T>): Outcome<T> {
    if o == Panic(TooManyIndices) then Undefined(IndexWriteOutOfBounds(INDEX_CAPACITY)) else o
  }

  /** Index counts stay multiples of 3, so they never exceed 65535 and the
      test `indexCount < 65536` always passes. */
  predicate WholeTriangleCount(ib: Buffer<Index>) {
    |ib.cells| == INDEX_CAPACITY && ib.count % 3 == 0
  }

  /** The triangulation loop as written never panics, on any face array and
      any loop bound, and leaves a count of whole triangles when it returns. */
  lemma {:induction false} AddTrianglesAsWrittenNeverPanics(ib: Buffer<Index>, slots: seq<int>, n: U32, i: nat)
    requires WorkBuffer.Valid(ib) && WholeTriangleCount(ib) && 2 <= i
    ensures !AddTrianglesAsWritten(ib, slots, n, i).Panic?
    ensures AddTrianglesAsWritten(ib, slots, n, i).Ok? ==> WholeTriangleCount(AddTrianglesAsWritten(ib, slots, n, i).value)
    decreases n - i
  {
    if i < n {
      assert ib.count < |ib.cells|;
      var first := Store(ib, slots, 0);
      if first.Ok? {
        var second := Store(first.value, slots, i - 1);
        if second.Ok? {
          var third := Store(second.value, slots, i);
          if third.Ok? {
            AddTrianglesAsWrittenNeverPanics(third.value, slots, n, i + 1);
          }
        }
      }
    }
  }

  /** A line as written: only "Too many vertices" and "Invalid face" can be
      reported, and whole-triangle counts are kept. */
  lemma StepAsWrittenKeepsTriangles<F>(w: Working<F>, line: Record<F>, stale: seq<int>)
    requires WellSized(w) && ScannedFace(line) && |stale| == MAX_CONVERSIONS
    requires w.indices.count % 3 == 0
    ensures StepAsWritten(w, line, stale) != Panic(TooManyIndices)
    ensures StepAsWritten(w, line, stale).Ok? ==> StepAsWritten(w, line, stale).value.indices.count % 3 == 0
  {
    if line.FaceLine? && ToU32(line.face.count) >= 3 {
      AddTrianglesAsWrittenNeverPanics(w.indices, FaceSlots(line.face.values, stale), ToU32(line.face.count), 2);
    }
  }

  lemma {:induction false} RunAsWrittenKeepsTriangles<F>(w: Working<F>, lines: seq<Record<F>>, stale: seq<int>)
    requires WellSized(w) && Scanned(lines) && |stale| == MAX_CONVERSIONS
    requires w.indices.count % 3 == 0
    ensures RunAsWritten(w, lines, stale) != Panic(TooManyIndices)
    decreases |lines|
  {
    if |lines| > 0 {
      ScannedTail(lines);
      StepAsWrittenKeepsTriangles(w, lines[0], stale);
      var step := StepAsWritten(w, lines[0], stale);
      if step.Ok? {
        RunAsWrittenKeepsTriangles(step.value, lines[1..], stale);
      }
    }
  }

  /** The loader as written never reports "Too many indices", whatever the
      file: that `PANIC` is dead code. */
  lemma TooManyIndicesUnreachable<F>(lines: seq<string>, scan: FloatScanner<F>, heapVertices: seq<Vertex<F>>,
                                     heapIndices: seq<Index>, stale: seq<int>)
    requires |heapVertices| == VERTEX_CAPACITY && |heapIndices| == INDEX_CAPACITY && |stale| == MAX_CONVERSIONS
    ensures ParseObjFileAsWritten(lines, scan, heapVertices, heapIndices, stale) != Panic(TooManyIndices)
  {
    DecodedAreScanned(lines, scan);
    RunAsWrittenKeepsTriangles(Start(heapVertices, heapIndices), DecodeAll(lines, scan), stale);
  }

  // ---------------------------------------------------------------------
  // Files without blank face records: the corrected loader, except that
  // "Too many indices" becomes a store past the index array.
  // ---------------------------------------------------------------------

  /** For a face of at most 32 integers the as-written loop differs from the
      corrected one only where the corrected one panics: at count 65535 the
      test passes and the second store of the triangle lands at 65536. */
  lemma {:induction false} AddTrianglesAgree(ib: Buffer<Index>, face: seq<int>, slots: seq<int>, i: nat)
    requires WorkBuffer.Valid(ib) && WholeTriangleCount(ib)
    requires 2 <= i <= |face| <= |slots| <= MAX_CONVERSIONS
    requires forall j :: 0 <= j < |face| ==> slots[j] == face[j]
    ensures AddTrianglesAsWritten(ib, slots, |face|, i) == Overrun(AddTriangles(ib, face, i))
    decreases |face| - i
  {
    if i < |face| {
      if ib.count + 3 <= |ib.cells| {
        var triangle := [ToIndex(face[0]), ToIndex(face[i - 1]), ToIndex(face[i])];
        var next := PushTriangle(ib, triangle);
        assert Store(ib, slots, 0) == Ok(Append(ib, triangle[0]));
        assert Store(Append(ib, triangle[0]), slots, i - 1) == Ok(Append(Append(ib, triangle[0]), triangle[1]));
        assert Store(Append(Append(ib, triangle[0]), triangle[1]), slots, i) == Ok(next);
        AddTrianglesAgree(next, face, slots, i + 1);
      } else {
        assert ib.count == INDEX_CAPACITY - 1;
        assert Store(ib, slots, 0) == Ok(Append(ib, ToIndex(slots[0])));
      }
    }
  }

  /** Face records other than the blank one. */
  lemma AddFaceAgrees<F>(w: Working<F>, face: ScanResult, stale: seq<int>)
    requires WellSized(w) && w.indices.count % 3 == 0 && |stale| == MAX_CONVERSIONS
    requires face.count == |face.values| <= MAX_CONVERSIONS
    ensures AddFaceAsWritten(w, face, stale) == Overrun(AddFace(w, face))
  {
    if face.count >= 3 {
      AddTrianglesAgree(w.indices, face.values, FaceSlots(face.values, stale), 2);
    }
  }

  /** The file has no face record with nothing after "f ". */
  predicate NoBlankFaces<F>(lines: seq<Record<F>>) {
    forall i :: 0 <= i < |lines| ==> !IsBlankFace(lines[i])
  }

  lemma {:induction false} RunAgrees<F>(w: Working<F>, lines: seq<Record<F>>, stale: seq<int>)
    requires WellSized(w) && w.indices.count % 3 == 0 && |stale| == MAX_CONVERSIONS
    requires Scanned(lines) && NoBlankFaces(lines)
    ensures RunAsWritten(w, lines, stale) == Overrun(Run(w, lines))
    decreases |lines|
  {
    if |lines| > 0 {
      ScannedTail(lines);
      assert !IsBlankFace(lines[0]);
      assert NoBlankFaces(lines[1..]) by {
        assert forall i :: 0 <= i < |lines[1..]| ==> lines[1..][i] == lines[i + 1];
      }
      var line := lines[0];
      if line.FaceLine? {
        AddFaceAgrees(w, line.face, stale);
      }
      var step := Step(w, line);
      if step.Ok? {
        StepKeepsTriangles(w, line);
        RunAgrees(step.value, lines[1..], stale);
      }
    }
  }

  lemma StepKeepsTriangles<F>(w: Working<F>, line: Record<F>)
    requires WellSized(w) && ScannedFace(line) && w.indices.count % 3 == 0
    requires Step(w, line).Ok?
    ensures Step(w, line).value.indices.count % 3 == 0
  {
    if line.FaceLine? {
      assert Step(w, line).value.indices.count == w.indices.count + |Fan(line.face.values)|;
    }
  }

  /** On a file without blank face records the loader as written computes
      what the corrected loader computes, except that where the corrected
      loader reports "Too many indices" it stores past the index array. */
  lemma ParseObjFileAsWrittenAgrees<F>(lines: seq<string>, scan: FloatScanner<F>, heapVertices: seq<Vertex<F>>,
                                       heapIndices: seq<Index>, stale: seq<int>)
    requires |heapVertices| == VERTEX_CAPACITY && |heapIndices| == INDEX_CAPACITY && |stale| == MAX_CONVERSIONS
    requires NoBlankFaces(DecodeAll(lines, scan))
    ensures ParseObjFileAsWritten(lines, scan, heapVertices, heapIndices, stale)
      == Overrun(ParseObjFile(lines, scan, heapVertices, heapIndices))
  {
    DecodedAreScanned(lines, scan);
    RunAgrees(Start(heapVertices, heapIndices), DecodeAll(lines, scan), stale);
  }

  // ---------------------------------------------------------------------
  // The blank face record: undefined behaviour instead of "Invalid face".
  // ---------------------------------------------------------------------

  /** 2^32 - 1: `EOF` stored into a `u32`. */
  const EOF_AS_U32: U32 := U32_MODULUS - 1

  /** With the loop bound 2^32 - 1 and a count of whole triangles the loop
      runs until it either stores past the index array or, at `i = 32`,
      reads `idx[32]`. */
  lemma {:induction false} AddTrianglesBlank(ib: Buffer<Index>, slots: seq<int>, i: nat)
    requires WorkBuffer.Valid(ib) && WholeTriangleCount(ib)
    requires |slots| == MAX_CONVERSIONS && 2 <= i <= MAX_CONVERSIONS
    ensures AddTrianglesAsWritten(ib, slots, EOF_AS_U32, i) ==
      Undefined(if ib.count + 3 * (MAX_CONVERSIONS - i) < INDEX_CAPACITY - 1
                then FaceSlotOutOfBounds(MAX_CONVERSIONS)
                else IndexWriteOutOfBounds(INDEX_CAPACITY))
    decreases MAX_CONVERSIONS - i
  {
    var first := Store(ib, slots, 0);
    if ib.count + 1 < |ib.cells| {
      var second := Store(first.value, slots, i - 1);
      if i < MAX_CONVERSIONS {
        var third := Store(second.value, slots, i);
        AddTrianglesBlank(third.value, slots, i + 1);
      }
    }
  }

  /** A blank face record, "f" followed by white space only: the corrected
      loader reports "Invalid face", the loader as written reads `idx[32]`,
      or, within 90 entries of the end of the index array, stores past it. */
  lemma BlankFaceIsUndefined<F>(w: Working<F>, stale: seq<int>)
    requires WellSized(w) && w.indices.count % 3 == 0 && |stale| == MAX_CONVERSIONS
    ensures AddFace(w, ScanResult(-1, [])) == Panic(InvalidFace)
    ensures AddFaceAsWritten(w, ScanResult(-1, []), stale) ==
      Undefined(if w.indices.count + 90 < INDEX_CAPACITY - 1
                then FaceSlotOutOfBounds(MAX_CONVERSIONS)
                else IndexWriteOutOfBounds(INDEX_CAPACITY))
  {
    assert ToU32(-1) == EOF_AS_U32;
    AddTrianglesBlank(w.indices, FaceSlots([], stale), 2);
  }
}
