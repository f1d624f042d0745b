/** What the loader reads from one line of an OBJ file: the kind of record,
    decided by the line's first two characters, and the result of the
    `sscanf` that kind of record gets. */
module ObjLine {
  import opened CScan
  import opened Mesh

  datatype LineKind = VertexRecord(rest: string) | FaceRecord(rest: string) | Other

  /** `strncmp(line, prefix, |prefix|) == 0`. */
  predicate HasPrefix(line: string, prefix: string) {
    |prefix| <= |line| && line[..|prefix|] == prefix
  }

  /** A line is a vertex record when it starts with "v ", a face record when
      it starts with "f ", and is ignored otherwise; `rest` is what follows
      the two-character prefix. */
  function Classify(line: string): (k: LineKind)
    ensures k.VertexRecord? <==> HasPrefix(line, "v ")
    ensures k.FaceRecord? <==> HasPrefix(line, "f ")
    ensures !k.Other? ==> line == line[..2] + k.rest
  {
    if HasPrefix(line, "v ") then VertexRecord(line[2..])
    else if HasPrefix(line, "f ") then FaceRecord(line[2..])
    else Other
  }

  /** A classified and scanned line: a vertex record with its `%f %f %f`
      scan, a face record with its `%d … %d` scan, or an ignored line. */
  datatype Record<F> = VertexLine(position: Option<Vec3<F>>) | FaceLine(face: ScanResult) | OtherLine

  function Decode<F>(line: string, scan: FloatScanner<F>): (r: Record<F>)
    ensures r.OtherLine? <==> Classify(line).Other?
  {
    match Classify(line)
    case VertexRecord(rest) => VertexLine(scan(rest))
    case FaceRecord(rest) => FaceLine(ScanIntegers(rest))
    case Other => OtherLine
  }

  /** Every line decoded on its own: no line's reading depends on another. */
  function DecodeAll<F>(lines: seq<string>, scan: FloatScanner<F>): (rs: seq<Record<F>>)
    ensures |rs| == |lines|
    ensures forall i :: 0 <= i < |lines| ==> rs[i] == Decode(lines[i], scan)
  {
    seq(|lines|, i requires 0 <= i < |lines| => Decode(lines[i], scan))
  }

  /** A face record with nothing but white space after its prefix: the one
      input on which the face scan returns `EOF`. */
  predicate IsBlankFace<F>(r: Record<F>) {
    r.FaceLine? && r.face.count == -1
  }
}
