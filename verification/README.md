# OBJ loader of scop, modelled in Dafny

scop is a small Wavefront OBJ viewer. Its loader, `parseObjFile`, reads a
mesh file line by line. A line starting "v " is a vertex record: three
floats are scanned and appended as one vertex. A line starting "f " is a
face record: up to 32 integers are scanned and the face is cut into a
triangle fan of zero-based indices. Every other line is ignored. Both working
arrays hold 65536 entries. The loader exits through `PANIC` on a face of
fewer than three integers, on a vertex arriving when the vertex array is full,
and (so the code intends) on an index arriving when the index array is full.
At the end it copies the written part of each array into an exact-size output
array.

The model is a fold over the file's lines. Each line is first classified and
scanned into a `Record` (`ObjLine`). The loader's state is its two arrays with
their capacity and counts (`WorkBuffer`, `ObjParser.Working`). Each run ends
as one of three `Outcome`s:

- `Ok`, the mesh;
- `Panic(reason)`, one of the three `PANIC`s; a `PANIC` exits the process, so
  no partial mesh survives it;
- `Undefined(behaviour)`, an access outside an array, which is undefined
  behaviour in C.

Modules:

- `CScan` — `sscanf` with `%d` conversions, following the C standard. White
  space is skipped, an optional sign is read, then a digit run. A matching
  failure stops the scan. Input running out before the first conversion makes
  the return value `EOF` (-1). At most 32 conversions are made. Round-trip
  lemmas read back integer lists written with blanks between them.
- `Mesh` — the loader's data: `u32`, `Index`, `Vertex`, the capacities, the
  outcomes.
- `Triangulation` — `idx - 1` stored into a `u32`, and the triangle fan of a
  face, with an entry-by-entry characterization.
- `WorkBuffer` — a fixed allocation with a count of written entries.
- `ObjLine` — line classification by prefix, and the scan each kind of line
  gets.
- `ObjSpec` — a reference reading over whole sequences, without arrays. A
  file reads successfully exactly when its faces are well formed and its
  records fit. It then yields all vertices and all fan entries in file order.
- `ObjParser` — the loader over its fixed arrays, with the two defects below
  corrected.
- `ObjRefinement` — proof that the loader computes the reference reading,
  whatever the allocations held beforehand.
- `ObjParserAsWritten` — the loader as written (apart from the signed
  overflow of `idx[k] - 1` listed under "Left out"), the proofs that it
  departs from the corrected one only at the two defects, and what it does
  there.
- `ObjExamples` — concrete files.

The float scan of vertex records is a parameter (`FloatScanner`). The
coordinate type is a type parameter, since the loader does no arithmetic on
floats. The contents of fresh allocations are parameters too, and so are the
unassigned slots of the face array.

The loader writes only the position of a vertex and never assigns its
`texCoord` (src/obj_parser.c:28-31), so every vertex the model yields
carries `Indeterminate`.

## Model

| member | source | states |
|---|---|---|
| CScan.ScanIntegers | src/obj_parser.c:38-41 | The face scan returns `EOF` exactly when nothing but white space follows "f ", and then assigns nothing. Otherwise it returns the number of integers it assigned, at most 32. |
| CScan.ScanSpaced | src/obj_parser.c:38-41 | One to 32 integers separated by blanks, followed by text that does not continue the list, are read back exactly. The return value is their number. |
| CScan.ScanSpacedTruncates | src/obj_parser.c:38-41 | From a list of more than 32 integers only the first 32 are read, and the return value is 32. |
| CScan.ScanDecimalOfDecimal | src/obj_parser.c:39 | One `%d` conversion reads a written integer back as itself, and stops right after its last digit. |
| Mesh.ToU32 | src/obj_parser.c:38 | Storing an `int` into a `u32` leaves 0..2^32-1 unchanged and adds 2^32 to -2^32..-1, so `EOF` becomes 2^32-1. |
| Triangulation.ToIndex | src/obj_parser.c:50-52 | The stored index is the OBJ index minus one, reduced modulo 2^32: exact for 1..2^32, and wrapped by 2^32 for 0 and below. |
| Triangulation.Fan | src/obj_parser.c:46-53 | A face of k >= 3 integers gives 3(k-2) entries, and one of fewer gives none. The length is always a multiple of 3. |
| Triangulation.FanEntry | src/obj_parser.c:46-53 | Entry j of the fan is corner j mod 3 of triangle j div 3. Corner 0 is `idx[0]`, and corners 1 and 2 of triangle t are `idx[t+1]` and `idx[t+2]`. |
| Triangulation.FanTriangle | src/obj_parser.c:50-52 | Triangle t of the fan is the three consecutive entries (idx[0]-1, idx[t+1]-1, idx[t+2]-1). |
| Triangulation.TrianglesEntry | src/obj_parser.c:46-53 | The fan from triangle t on, entry by entry, in the order the loop emits it. |
| WorkBuffer.Allocate | src/obj_parser.c:16-22 | A fresh array keeps its size and has no entry written, whatever it held. |
| WorkBuffer.Append | src/obj_parser.c:31 | `array[count++] = x` inside the allocation appends exactly `x` to the written entries and keeps the size. |
| WorkBuffer.Written | src/obj_parser.c:66-67 | What the final `memcpy` copies has exactly `count` entries. |
| ObjLine.Classify | src/obj_parser.c:27-36 | A line is a vertex record exactly when it starts with "v ", and a face record exactly when it starts with "f ". The rest after the prefix is handed to the scan. |
| ObjLine.Decode | src/obj_parser.c:27-36 | A line is ignored exactly when it starts with neither prefix. |
| ObjExamples.DecodeFace | src/obj_parser.c:36-41 | A face record written as "f " plus 1 to 32 blank-separated integers is decoded to exactly those integers, with that count. |
| ObjParser.Start | src/obj_parser.c:16-22 | Both arrays are allocated with 65536 entries and counts 0. |
| ObjParser.AddVertex | src/obj_parser.c:27-35 | A vertex whose three floats scanned is appended, with its texture coordinate unassigned, while the count is below 65536. At 65536 the loader panics with "Too many vertices". A vertex that did not scan is skipped, and the indices are untouched. |
| ObjParser.AddTriangles | src/obj_parser.c:46-58 | The corrected loop appends the rest of the fan in order and succeeds exactly when all of it fits. Otherwise it panics with "Too many indices", and it never writes out of bounds. |
| ObjParser.AddFace | src/obj_parser.c:36-58 | A scan returning fewer than three (including `EOF`) panics with "Invalid face". Otherwise the face's whole fan is appended when it fits, and the loader panics with "Too many indices" when it does not. The vertices are untouched. |
| ObjParser.Step | src/obj_parser.c:27-59 | A line never ends out of bounds, keeps both counts within capacity, and an ignored line changes nothing. |
| ObjParser.Run | src/obj_parser.c:25-60 | The pass over all lines never ends out of bounds, as the loader as written can, and keeps both counts within capacity. |
| ObjParser.CopyOut | src/obj_parser.c:62-67 | The output counts equal the final counters, and the output arrays are exactly the first `count` entries of the working arrays. |
| ObjParser.ParseObjFile | src/obj_parser.c:5-70 | The loader never ends out of bounds, as the loader as written can, and the counts it returns are the lengths of the arrays it returns, within capacity. |
| ObjSpec.SpecStep | src/obj_parser.c:27-59 | Reading one line never reaches an out-of-bounds access; when it succeeds the arrays stay within capacity and gain as many index entries as the line's fan has. |
| ObjSpec.SpecRun | src/obj_parser.c:25-60 | Reading lines never ends out of bounds. The index count grows by three per triangle. |
| ObjSpec.Spec | src/obj_parser.c:5-70 | A successful read returns counts equal to the array lengths. There are at most 65536 vertices, and fewer than 65536 indices, a multiple of 3. |
| ObjSpec.SpecStepOk | src/obj_parser.c:27-59 | One line reads successfully exactly when its face is well formed and its records fit. It then appends its vertex and its fan. |
| ObjSpec.FitsCons | src/obj_parser.c:25-60 | Lines fit exactly when the first one reads and the others fit after it. |
| ObjSpec.SpecRunOk | src/obj_parser.c:25-60 | Reading succeeds exactly when all faces are well formed and all records fit, and then appends all vertices and all fan entries in file order. |
| ObjSpec.SpecRunPanicReason | src/obj_parser.c:33-56 | Each panic names a condition the lines bear out. "Invalid face" means some face scanned fewer than three integers. "Too many vertices" means the vertices overflow. "Too many indices" means the fan entries overflow. |
| ObjSpec.SpecOutcome | src/obj_parser.c:25-67 | The outcome of reading a whole file, in closed form, in both directions, with the reason of every panic. |
| ObjSpec.SpecRunPanicIsFinal | src/util.h:49-50 | A panic ends the read: whatever follows, the outcome is the same panic. |
| ObjSpec.SpecPanicIsFinal | src/util.h:49-50 | A file that panics panics the same way whatever lines are appended to it, so no partial mesh is produced. |
| ObjSpec.SpecRunConcat | src/obj_parser.c:25-60 | Reading `a + b` is reading `a`, then reading `b` from where `a` left off. |
| ObjSpec.RecordsConcat | src/obj_parser.c:25-60 | The vertices and fan entries of `a + b` are those of `a` followed by those of `b`. The faces of `a + b` are well formed exactly when those of both parts are. |
| ObjSpec.FaceIndicesAreTriangles | src/obj_parser.c:46-53 | A file's index entries come in whole triangles. |
| ObjRefinement.Abstract | src/obj_parser.c:62-67 | The mesh the working arrays stand for is their written prefixes, with lengths equal to the counts and within capacity. |
| ObjRefinement.StepRefines | src/obj_parser.c:27-59 | The loader's handling of one line agrees with the reference, on success and on the reason of a panic. |
| ObjRefinement.RunRefines | src/obj_parser.c:25-60 | The same agreement over any sequence of lines. |
| ObjRefinement.ParseObjFileRefinesSpec | src/obj_parser.c:5-70 | The loader's outcome is the reference reading of the decoded lines. |
| ObjRefinement.ParseObjFileSucceeds | src/obj_parser.c:5-70 | The loader succeeds exactly when every face scans at least three integers, at most 65536 vertices scan, and the fans total at most 65536 entries. |
| ObjRefinement.ParseObjFileMesh | src/obj_parser.c:25-67 | On success the loader returns every scanned vertex and every fan entry, in file order. |
| ObjRefinement.ParseObjFilePanics | src/obj_parser.c:30-56 | "Invalid face" means some face scanned fewer than three integers. "Too many vertices" means the vertices overflow. "Too many indices" means the fan entries overflow. |
| ObjRefinement.ParseObjFileIgnoresHeap | src/obj_parser.c:16-22 | The outcome does not depend on what the two allocations held, since only written entries are copied out. |
| ObjParserAsWritten.FaceSlots | src/obj_parser.c:37-41 | The face array has 32 slots, and the first ones hold the scanned integers. |
| ObjParserAsWritten.Store | src/obj_parser.c:50-52 | One store reads a face slot and writes one index entry. Reading slot 32 or beyond, or writing at the count when the count has reached the array's size, is undefined behaviour. |
| ObjParserAsWritten.AddTrianglesAsWritten | src/obj_parser.c:46-58 | The loop as written, with its per-triangle test `indexCount < 65536`. When it returns, the array keeps its size. |
| ObjParserAsWritten.AddFaceAsWritten | src/obj_parser.c:38-44 | The scan's return value, converted to `u32`, is compared with 3. A return value of 0, 1 or 2 panics with "Invalid face". |
| ObjParserAsWritten.StepAsWritten | src/obj_parser.c:27-59 | One line as written. An ignored line changes nothing. |
| ObjParserAsWritten.RunAsWritten | src/obj_parser.c:25-60 | The pass as written keeps both arrays at their size. |
| ObjParserAsWritten.ParseObjFileAsWritten | src/obj_parser.c:5-70 | On success, the loader as written returns counts equal to the lengths of its arrays, within capacity. |
| ObjParserAsWritten.AddTrianglesAsWrittenNeverPanics | src/obj_parser.c:48-56 | With the index count a multiple of 3, the loop as written never panics, on any face array and any loop bound, and leaves a multiple of 3. |
| ObjParserAsWritten.StepAsWrittenKeepsTriangles | src/obj_parser.c:27-59 | A line as written never reports "Too many indices", and keeps the index count a multiple of 3. |
| ObjParserAsWritten.RunAsWrittenKeepsTriangles | src/obj_parser.c:25-60 | No sequence of lines makes the loader as written report "Too many indices". |
| ObjParserAsWritten.TooManyIndicesUnreachable | src/obj_parser.c:48-56 | The "Too many indices" `PANIC` is dead code: no file reaches it. |
| ObjParserAsWritten.AddTrianglesAgree | src/obj_parser.c:46-58 | For a face of up to 32 integers, the loop as written does what the corrected loop does. Where the corrected loop panics, it stores at index 65536 instead. |
| ObjParserAsWritten.AddFaceAgrees | src/obj_parser.c:36-58 | For a face whose scan does not return `EOF`, the as-written face handling agrees with the corrected one, up to the store at 65536. |
| ObjParserAsWritten.StepKeepsTriangles | src/obj_parser.c:46-53 | A line keeps the index count a multiple of 3 in the corrected loader. |
| ObjParserAsWritten.RunAgrees | src/obj_parser.c:25-60 | Over lines without blank face records, the pass as written agrees with the corrected pass, up to the store at 65536. |
| ObjParserAsWritten.ParseObjFileAsWrittenAgrees | src/obj_parser.c:5-70 | On a file without blank face records, the loader as written returns what the corrected loader returns. Where the corrected loader reports "Too many indices", it writes `indices[65536]` instead. |
| ObjParserAsWritten.AddTrianglesBlank | src/obj_parser.c:46-53 | With the loop bound 2^32-1, the loop runs until it writes `indices[65536]`, or, if that comes later, reads `idx[32]` at i = 32. |
| ObjParserAsWritten.BlankFaceIsUndefined | src/obj_parser.c:38-52 | A blank face record is "Invalid face" in the corrected loader. As written, it reads `idx[32]`, or writes `indices[65536]` when within 90 entries of the end. |
| ObjExamples.TriangleFile | src/obj_parser.c:36-53 | k copies of "f 1 2 3" are well formed, give no vertex, and give 3k index entries. |
| ObjExamples.FullIndexArray | src/obj_parser.c:48-56 | 21845 triangles fill 65535 entries, and both loaders accept them alike. |
| ObjExamples.TriangleFileFits | src/obj_parser.c:46-56 | 21845 copies of "f 1 2 3" read successfully and fill 65535 of the 65536 index entries. |
| ObjExamples.OneTriangleTooMany | src/obj_parser.c:48-56 | 21846 triangles: the corrected loader reports "Too many indices", and the loader as written writes `indices[65536]`. |
| ObjExamples.TriangleFilePanics | src/obj_parser.c:48-56 | 21846 triangles make the corrected loader report "Too many indices". |
| ObjExamples.OnlyIndicesOverflow | src/obj_parser.c:48-56 | Well-formed faces whose fans overflow the index array, with no vertex, are read as "Too many indices". |
| ObjExamples.BlankFaceFile | src/obj_parser.c:38-46 | The file "f \n": the corrected loader reports "Invalid face", and the loader as written reads `idx[32]`. |
| ObjExamples.DecodeBlank | src/obj_parser.c:36-41 | "f \n" is a face record whose `sscanf` returns `EOF` (-1) with nothing converted. |
| ObjExamples.SlashedFace | src/obj_parser.c:38-44 | A face in `v/vt/vn` form scans one integer, and the file is rejected as "Invalid face". |
| ObjExamples.DecodeSlashed | src/obj_parser.c:38-41 | "f 1/1/1 2/2/2 3/3/3" decodes to a scan of one integer, 1. |
| ObjExamples.ZeroIndex | src/obj_parser.c:50-52 | "f 0 1 2" is accepted with indices 2^32-1, 0, 1: indices are not checked against the vertex count. |
| ObjExamples.LongFace | src/obj_parser.c:38-53 | A face of 33 integers contributes the fan of its first 32 only: 90 entries. |
| ObjExamples.QuadFile | src/obj_parser.c:25-67 | Four vertex records and "f 1 2 3 4" give the four vertices in file order and the indices 0, 1, 2, 0, 2, 3. |
| ObjExamples.QuadLines | src/obj_parser.c:27-41 | The lines of that file decode to four scanned vertex records and the face record 1, 2, 3, 4. |
| ObjExamples.QuadSpec | src/obj_parser.c:25-67 | Those records give the four vertices, without texture coordinates, and the indices 0, 1, 2, 0, 2, 3. |
| ObjExamples.QuadRecords | src/obj_parser.c:25-67 | The same file, read from its records. |
| ObjExamples.VerticesOnly | src/obj_parser.c:27-35 | Vertex records whose floats scanned are kept one for one, in order, with no index entries. |
| ObjExamples.QuadsOnly | src/obj_parser.c:46-53 | Each quadrilateral is two triangles. |
| ObjExamples.QuadMesh | src/obj_parser.c:25-67 | Vertex records followed by quadrilaterals read successfully within capacity, keeping every vertex and giving six entries per quadrilateral. |
| ObjExamples.Cube | src/obj_parser.c:25-67 | A cube of eight vertices and six quadrilaterals gives 8 vertices and 36 index entries. |

## Left out

- Opening the file and the `PANIC` when it cannot be opened (src/obj_parser.c:12-14): I/O. The model starts from the file's lines.
- `fgets` with its 1024-byte buffer (src/obj_parser.c:24-26): a line longer than 1023 characters arrives as several lines. The model takes the lines as they reach the loop.
- NUL characters inside a line: the C string functions stop at them, but the model's strings do not.
- The `ASSERT`s on the output pointers (src/obj_parser.c:7-10): the model returns its results instead.
- `mallocOrDie`, `memcpy` and `freeAndNull` (src/util.h:52-63): allocation is assumed to succeed. The fresh contents are a parameter, and the copy is the written prefix.
- The `%f` grammar: `FloatScanner` is a parameter and the coordinates are an abstract type.
- Triangulation.ToIndex: `idx[k] - 1` is computed in `int` and overflows when `idx[k]` is `INT_MIN`, which is undefined behaviour (section 6.5 of C11). The model wraps it to 2^31-1 instead, so neither loader reports that case as undefined. The same holds for a stale `idx[0]` equal to `INT_MIN` on a blank face.
- `%d` on a number outside the range of `int`: undefined in C. The model reads it as an unbounded integer.
- The face array's unassigned slots hold indeterminate values that may differ from face to face. The model gives one parameter, `stale`, for all faces. Every property about it holds for any choice.
- The prototype in src/obj_parser.h:15 declares the counts `size_t *`, while the definition at src/obj_parser.c:5 uses `u32 *`. Counts are modelled as `U32`.
- The writer of the diagnostics that `PANIC` prints (src/util.h:46-47), and the process exit, modelled as the final `Panic` outcome.
- ObjParserAsWritten.AddTrianglesAsWritten: its own contract only keeps the array size. What it computes is stated by the lemmas about it, `AddTrianglesAgree`, `AddTrianglesAsWrittenNeverPanics` and `AddTrianglesBlank`.
- ObjLine.Decode: its own contract only says which lines are ignored. What vertex and face lines decode to is stated by `DecodeFace` and by the examples.
- src/maths.h, src/main.c and the rest of the viewer (GPU upload, frame loop, windowing) are not part of this model.

## Findings

| source | as written | input that shows it | evidently intended | confidence | as-written member | corrected member |
|---|---|---|---|---|---|---|
| src/obj_parser.c:48-53 | The capacity test `indexCount < indexArraySize` runs once per triangle, before three stores. Counts are multiples of 3 and 65536 is not, so at count 65535 the test passes, and the second store writes `indices[65536]`. The "Too many indices" `PANIC` can never run. | 21846 lines "f 1 2 3" (65538 entries) | Panic with "Too many indices" unless all three stores fit (`indexCount + 3 <= indexArraySize`) | high; not executed | ObjParserAsWritten.TooManyIndicesUnreachable, ObjExamples.OneTriangleTooMany | ObjParser.AddTriangles |
| src/obj_parser.c:38-46 | The `sscanf` result is stored in a `u32`. On a face record with nothing after "f ", `sscanf` returns `EOF` (-1), which becomes 2^32-1 and passes the `< 3` test. The loop then reads the uninitialised `idx` slots and, at i = 32, `idx[32]`, past the array. | The one-line file "f \n" | Panic with "Invalid face" (compare the signed return value with 3) | high; not executed | ObjParserAsWritten.BlankFaceIsUndefined, ObjExamples.BlankFaceFile | ObjParser.AddFace |
