/** The data the OBJ loader produces and the ways it can end. */
module Mesh {

  /** 2^32: the C type `u32` holds the integers below it. */
  const U32_MODULUS: int := 0x1_0000_0000

  type U32 = x: int | 0 <= x < U32_MODULUS

  /** An entry of the index array (`typedef u32 Index`). */
  type Index = U32

  /** Number of entries of the loader's working vertex array. */
  const VERTEX_CAPACITY: nat := 65536

  /** Number of entries of the loader's working index array. */
  const INDEX_CAPACITY: nat := 65536

  /** Conversion of an `int` to `u32` in C: reduction modulo 2^32. */
  function ToU32(x: int): (r: U32)
    ensures 0 <= x < U32_MODULUS ==> r == x
    ensures -U32_MODULUS <= x < 0 ==> r == x + U32_MODULUS
  {
    x % U32_MODULUS
  }

  datatype Option<T> = None | Some(value: T)

  /** A position; `F` stands for the C `float`, whose arithmetic the loader
      never performs. */
  datatype Vec3<F> = Vec3(x: F, y: F, z: F)

  /** The texture coordinate of a vertex. The loader never assigns it, so
      every vertex it produces carries `Indeterminate`. */
  datatype TexCoord<F> = Indeterminate | Uv(u: F, v: F)

  datatype Vertex<F> = Vertex(pos: Vec3<F>, texCoord: TexCoord<F>)

  /** The `%f %f %f` scan of a vertex record: three coordinates, or `None`
      when fewer than three were read. */
  type FloatScanner<F> = string -> Option<Vec3<F>>

  /** The three `PANIC`s of the loader. A `PANIC` exits the process, so no
      partial mesh survives one. */
  datatype PanicReason = TooManyVertices | InvalidFace | TooManyIndices

  /** The undefined behaviour, in the sense of the C standard, that the
      model tracks: a write past the end of the index array, or a read past
      the end of the 32-entry face array. The signed overflow of
      `INT_MIN - 1` is not tracked. */
  datatype UndefinedBehaviour = IndexWriteOutOfBounds(position: nat) | FaceSlotOutOfBounds(slot: nat)

  /** How a computation of the loader ends. */
  datatype Outcome<T> = Ok(value: T) | Panic(reason: PanicReason) | Undefined(behaviour: UndefinedBehaviour) {

    predicate IsFailure() {
      !Ok?
    }

    function PropagateFailure<U>(): Outcome<U>
      requires !Ok?
    {
      if Panic? then Panic(reason) else Undefined(behaviour)
    }

    function Extract(): T
      requires Ok?
    {
      value
    }
  }

  /** What `parseObjFile` hands back through its four out-parameters. */
  datatype MeshData<F> = MeshData(vertices: seq<Vertex<F>>, vertexCount: U32, indices: seq<Index>, indexCount: U32)

  /** Regrouping a concatenation of three sequences. */
  lemma Associative<T>(a: seq<T>, b: seq<T>, c: seq<T>)
    ensures a + b + c == a + (b + c)
  {
  }
}
