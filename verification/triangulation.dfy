/** Triangulation of one face record into a triangle fan. */
module Triangulation {
  import opened Mesh

  /** `idx - 1` computed in `int` and stored into an `Index`: OBJ indices
      count from 1, the stored ones from 0, and the store reduces the value
      modulo 2^32. For `objIndex` equal to `INT_MIN` the C subtraction
      overflows, which the C standard leaves undefined; here it wraps like
      any other value. */
  function ToIndex(objIndex: int): (r: Index)
    ensures (r - (objIndex - 1)) % U32_MODULUS == 0
    ensures 1 <= objIndex <= U32_MODULUS ==> r == objIndex - 1
    ensures -U32_MODULUS < objIndex <= 0 ==> r == objIndex - 1 + U32_MODULUS
  {
    ToU32(objIndex - 1)
  }

  /** Position, in the face, of corner `c` (0, 1 or 2) of triangle `t`. */
  function Corner(t: nat, c: nat): nat {
    if c == 0 then 0 else t + c
  }

  /** The index entries a face of `k` OBJ indices contributes: `k - 2`
      triangles, triangle `t` being corners 0, `t + 1` and `t + 2`. */
  function Fan(face: seq<int>): (r: seq<Index>)
    ensures |face| < 3 ==> r == []
    ensures |face| >= 3 ==> |r| == 3 * (|face| - 2)
    ensures |r| % 3 == 0
  {
    Triangles(face, 0)
  }

  /** The fan from triangle `t` on, in the order the loader emits it. */
  function Triangles(face: seq<int>, t: nat): (r: seq<Index>)
    ensures |r| == if t + 2 < |face| then 3 * (|face| - 2 - t) else 0
    decreases |face| - t
  {
    if t + 2 >= |face| then []
    else [ToIndex(face[0]), ToIndex(face[t + 1]), ToIndex(face[t + 2])] + Triangles(face, t + 1)
  }

  /** Entry `j` of the fan from triangle `t` on is corner `j % 3` of
      triangle `t + j / 3`. */
  lemma {:induction false} TrianglesEntry(face: seq<int>, t: nat, j: nat)
    requires j < |Triangles(face, t)|
    ensures Triangles(face, t)[j] == ToIndex(face[Corner(t + j / 3, j % 3)])
    decreases |face| - t
  {
    if j >= 3 {
      TrianglesEntry(face, t + 1, j - 3);
      assert (j - 3) / 3 == j / 3 - 1 && (j - 3) % 3 == j % 3;
    }
  }

  /** The fan, entry by entry: entry `j` is corner `j % 3` of triangle
      `j / 3`, so every triangle shares corner 0 and its other two corners
      are consecutive corners of the face. */
  lemma FanEntry(face: seq<int>, j: nat)
    requires j < |Fan(face)|
    ensures Fan(face)[j] == ToIndex(face[Corner(j / 3, j % 3)])
  {
    TrianglesEntry(face, 0, j);
  }

  /** Triangle `t` of the fan, as three consecutive entries. */
  lemma FanTriangle(face: seq<int>, t: nat)
    requires t + 2 < |face|
    ensures 3 * t + 3 <= |Fan(face)|
    ensures Fan(face)[3 * t..3 * t + 3] == [ToIndex(face[0]), ToIndex(face[t + 1]), ToIndex(face[t + 2])]
  {
    assert (3 * t) / 3 == t && (3 * t) % 3 == 0;
    assert (3 * t + 1) / 3 == t && (3 * t + 1) % 3 == 1;
    assert (3 * t + 2) / 3 == t && (3 * t + 2) % 3 == 2;
    FanEntry(face, 3 * t);
    FanEntry(face, 3 * t + 1);
    FanEntry(face, 3 * t + 2);
  }
}
