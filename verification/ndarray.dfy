/** The slice of numpy the codecs use: arrays as (dtype, shape, elements in
    C order), `reshape`, `flatten()` (C order) and `flatten(order='F')`.
    A 2-D array of shape (r, c) is read as `r` rows of `c` elements. */
module NdArray {
  import opened Wrappers

  /** The numpy dtypes the source names ("<f8", "<f4", "<i4", "<i2", "u1")
      and two it does not support, so that rejection can be stated. */
  datatype DType = Float64 | Float32 | Int32 | Int16 | UInt8 | Int8 | Int64

  /** `dtype.itemsize`: bytes per element. */
  function ItemSize(d: DType): (n: nat)
    ensures n in {1, 2, 4, 8}
  {
    match d
    case Float64 => 8
    case Float32 => 4
    case Int32 => 4
    case Int16 => 2
    case UInt8 => 1
    case Int8 => 1
    case Int64 => 8
  }

  predicate IsFloat(d: DType)
  {
    d == Float64 || d == Float32
  }

  /** Number of distinct values of an integer dtype. */
  function Modulus(d: DType): (m: nat)
    ensures m >= 256
  {
    match d
    case Int8 => 0x100
    case UInt8 => 0x100
    case Int16 => 0x1_0000
    case Int32 => 0x1_0000_0000
    case _ => 0x1_0000_0000_0000_0000
  }

  /** Smallest value of an integer dtype. */
  function Lowest(d: DType): int
  {
    if d == UInt8 then 0 else -(Modulus(d) / 2)
  }

  /** Whether a sample value is held exactly by the dtype: integer dtypes
      have a range; integer values in a float dtype are taken as exact. */
  predicate Representable(d: DType, x: int)
  {
    IsFloat(d) || Lowest(d) <= x < Lowest(d) + Modulus(d)
  }

  /** numpy's element conversion in `astype(d)` for integer-valued samples:
      an integer target wraps around modulo 2^bits (two's complement), a
      float target keeps the value. */
  function CastElement(d: DType, x: int): (y: int)
    ensures Representable(d, y)
    ensures !IsFloat(d) ==> (y - x) % Modulus(d) == 0
    ensures Representable(d, x) ==> y == x
  {
    if IsFloat(d) then x
    else
      var m := Modulus(d);
      var y := Lowest(d) + (x - Lowest(d)) % m;
      assert (y - x) % m == 0 by {
        assert x - Lowest(d) == ((x - Lowest(d)) / m) * m + (x - Lowest(d)) % m;
        assert y - x == -((x - Lowest(d)) / m) * m;
      }
      y
  }

  /** A numpy array: element type, shape, and the elements in C order. */
  datatype Array = Array(dtype: DType, shape: seq<nat>, data: seq<int>)

  /** Number of elements of an array with this shape. */
  function Size(shape: seq<nat>): nat
  {
    if |shape| == 0 then 1 else shape[0] * Size(shape[1..])
  }

  predicate Valid(a: Array)
  {
    |a.data| == Size(a.shape)
  }

  predicate Is2D(a: Array)
  {
    |a.shape| == 2 && |a.data| == a.shape[0] * a.shape[1]
  }

  /** For a two-element shape, validity and `Is2D` coincide. */
  lemma Is2DValid(a: Array)
    requires |a.shape| == 2
    ensures Valid(a) <==> Is2D(a)
  {
    var tail := a.shape[1..];
    assert tail[1..] == [];
    assert Size(tail) == a.shape[1] * Size(tail[1..]);
    assert Size(a.shape) == a.shape[0] * Size(tail);
  }

  /** `np.reshape(a, shape)`: numpy keeps the elements in C order and only
      changes the shape; a shape of another size raises ValueError. */
  function Reshape(a: Array, shape: seq<nat>): (r: Result<Array>)
    ensures r.Ok? <==> Size(shape) == |a.data|
    ensures r.Ok? ==> Valid(r.value) && r.value.data == a.data && r.value.dtype == a.dtype
  {
    if Size(shape) == |a.data| then Ok(a.(shape := shape))
    else Err(ValueError("cannot reshape array"))
  }

  /** `s` cut into `rows` consecutive runs of `width` elements. */
  function Chunk(s: seq<int>, rows: nat, width: nat): (r: seq<seq<int>>)
    requires |s| == rows * width
    ensures |r| == rows
    ensures forall i :: 0 <= i < rows ==> |r[i]| == width
    decreases rows
  {
    if rows == 0 then []
    else [s[..width]] + Chunk(s[width..], rows - 1, width)
  }

  /** Concatenation of runs (what C-order `flatten()` does to a row list). */
  function Concat(xs: seq<seq<int>>): seq<int>
  {
    if |xs| == 0 then [] else xs[0] + Concat(xs[1..])
  }

  predicate Rectangular(m: seq<seq<int>>, width: nat)
  {
    forall i :: 0 <= i < |m| ==> |m[i]| == width
  }

  /** Position of element (i, j) in the row-major data of an array whose
      rows are `width` long. */
  function Offset(i: nat, j: nat, width: nat): nat
  {
    i * width + j
  }

  /** Row i of the chunking is the slice [i*width, (i+1)*width) of `s`. */
  lemma {:induction false} ChunkRow(s: seq<int>, rows: nat, width: nat, i: nat)
    requires |s| == rows * width && i < rows
    ensures Offset(i, width, width) <= |s|
    ensures Chunk(s, rows, width)[i] == s[Offset(i, 0, width) .. Offset(i, width, width)]
    decreases rows
  {
    if i > 0 {
      ChunkRow(s[width..], rows - 1, width, i - 1);
      assert Offset(i - 1, width, width) == Offset(i, 0, width);
    }
  }

  /** Re-concatenating the rows gives back the original elements. */
  lemma {:induction false} ConcatChunk(s: seq<int>, rows: nat, width: nat)
    requires |s| == rows * width
    ensures Concat(Chunk(s, rows, width)) == s
    decreases rows
  {
    if rows > 0 {
      ConcatChunk(s[width..], rows - 1, width);
      assert s == s[..width] + s[width..];
    }
  }

  /** Chunking a concatenation of equal-length runs gives back the runs. */
  lemma {:induction false} ChunkConcat(xs: seq<seq<int>>, width: nat)
    requires Rectangular(xs, width)
    ensures |Concat(xs)| == |xs| * width
    ensures Chunk(Concat(xs), |xs|, width) == xs
    decreases |xs|
  {
    if |xs| > 0 {
      ChunkConcat(xs[1..], width);
      var c := Concat(xs);
      assert c == xs[0] + Concat(xs[1..]);
      assert c[..width] == xs[0];
      assert c[width..] == Concat(xs[1..]);
    }
  }

  /** The rows of a 2-D array. */
  function Rows(a: Array): (r: seq<seq<int>>)
    requires Is2D(a)
    ensures |r| == a.shape[0] && Rectangular(r, a.shape[1])
  {
    Chunk(a.data, a.shape[0], a.shape[1])
  }

  /** Element (i, j) of a 2-D array sits at position i*cols + j of its data. */
  lemma RowsElement(a: Array, i: nat, j: nat)
    requires Is2D(a) && i < a.shape[0] && j < a.shape[1]
    ensures Offset(i, j, a.shape[1]) < |a.data|
    ensures Rows(a)[i][j] == a.data[Offset(i, j, a.shape[1])]
  {
    ChunkRow(a.data, a.shape[0], a.shape[1], i);
  }

  /** Rows become columns: element (i, j) of `m` is element (j, i) of the result. */
  function Transpose(m: seq<seq<int>>, width: nat): (t: seq<seq<int>>)
    requires Rectangular(m, width)
    ensures |t| == width && Rectangular(t, |m|)
    ensures forall j, i :: 0 <= j < width && 0 <= i < |m| ==> t[j][i] == m[i][j]
  {
    seq(width, j requires 0 <= j < width => seq(|m|, i requires 0 <= i < |m| => m[i][j]))
  }

  /** Transposing twice is the identity. */
  lemma TransposeTwice(m: seq<seq<int>>, width: nat)
    requires Rectangular(m, width)
    ensures Transpose(Transpose(m, width), |m|) == m
  {
    var tt := Transpose(Transpose(m, width), |m|);
    assert |tt| == |m|;
    forall i | 0 <= i < |m|
      ensures tt[i] == m[i]
    {
      assert |tt[i]| == |m[i]|;
    }
  }

  /** `a.flatten(order='F')` for arrays of at most two dimensions: the
      columns of a 2-D array one after the other. */
  function FlattenF(a: Array): (r: seq<int>)
    requires Is2D(a) || (Valid(a) && |a.shape| < 2)
    ensures |r| == |a.data|
  {
    if |a.shape| == 2 then
      var t := Transpose(Rows(a), a.shape[1]);
      ChunkConcat(t, a.shape[0]);
      Concat(t)
    else a.data
  }

  /** Reading a column-major flattening of an (r, c) array back as c rows of
      r elements yields the columns: row j is column j of the original. */
  lemma FlattenFRows(a: Array)
    requires Is2D(a)
    ensures |FlattenF(a)| == a.shape[1] * a.shape[0]
    ensures Chunk(FlattenF(a), a.shape[1], a.shape[0]) == Transpose(Rows(a), a.shape[1])
  {
    var t := Transpose(Rows(a), a.shape[1]);
    ChunkConcat(t, a.shape[0]);
  }

  /** Column-major flattening of the transposed array restores the original
      C-order elements: interleaving the planes undoes the de-interleave. */
  lemma FlattenFTransposed(a: Array, b: Array)
    requires Is2D(a) && Is2D(b)
    requires b.shape == [a.shape[1], a.shape[0]] && b.data == FlattenF(a)
    ensures FlattenF(b) == a.data
  {
    FlattenFRows(a);
    assert Rows(b) == Transpose(Rows(a), a.shape[1]);
    TransposeTwice(Rows(a), a.shape[1]);
    ConcatChunk(a.data, a.shape[0], a.shape[1]);
  }
}
