/**
 * The destination array's geometry: a C-ordered (row-major) shape of `dims` with
 * slots of `itemsize` bytes, and the byte offset a coordinate vector selects, which
 * is what NumPy's `PyArray_GetPtr` computes from the array's strides.
 */
module Strides {

  /** The number of slots of a shape. */
  function Prod(dims: seq<nat>): nat
  {
    if dims == [] then 1 else dims[0] * Prod(dims[1..])
  }

  datatype Geometry = Geometry(dims: seq<nat>, itemsize: nat)
  {
    /** Total buffer size: one `itemsize` slot per element of the shape. */
    function Size(): nat
    {
      itemsize * Prod(dims)
    }

    /** Every dimension is non-empty, so that the buffer holds at least one slot. */
    predicate Inhabited()
    {
      forall k :: 0 <= k < |dims| ==> dims[k] > 0
    }

    /**
     * A coordinate vector as the decoder keeps it: at least one entry per dimension,
     * none negative, and every entry that indexes a dimension either inside it or still
     * at its initial zero. Entries past the last dimension are scratch slots that the
     * address computation never reads.
     */
    predicate CoordsOk(coords: seq<int>)
    {
      |coords| >= |dims| &&
      forall k :: 0 <= k < |coords| ==> 0 <= coords[k] && (k < |dims| ==> coords[k] == 0 || coords[k] < dims[k])
    }
  }

  /**
   * The byte offset of the slot at `coords`: the sum of `coords[k] * stride[k]` over the
   * dimensions, where the C-order stride of dimension `k` is `itemsize` times the number of
   * slots in the dimensions after it.
   */
  function Offset(dims: seq<nat>, itemsize: nat, coords: seq<int>): (r: int)
    requires |coords| >= |dims|
    ensures (forall k :: 0 <= k < |dims| ==> 0 <= coords[k]) ==> 0 <= r
  {
    if dims == [] then 0
    else coords[0] * (itemsize * Prod(dims[1..])) + Offset(dims[1..], itemsize, coords[1..])
  }

  /** The slot a valid coordinate vector selects lies wholly inside the buffer. */
  lemma {:induction false} OffsetInBounds(g: Geometry, coords: seq<int>)
    requires g.CoordsOk(coords) && g.Inhabited()
    ensures 0 <= Offset(g.dims, g.itemsize, coords)
    ensures Offset(g.dims, g.itemsize, coords) + g.itemsize <= g.Size()
    decreases |g.dims|
  {
    if g.dims != [] {
      var rest := Geometry(g.dims[1..], g.itemsize);
      InnerGeometry(g, coords);
      OffsetInBounds(rest, coords[1..]);
      var stride := g.itemsize * Prod(g.dims[1..]);
      SlotInsideRow(coords[0], g.dims[0], stride, Offset(rest.dims, g.itemsize, coords[1..]), g.itemsize);
      SizeByRows(g.dims[0], g.itemsize, Prod(g.dims[1..]));
    }
  }

  /** Dropping the outermost dimension keeps the coordinates valid and the shape inhabited. */
  lemma InnerGeometry(g: Geometry, coords: seq<int>)
    requires g.CoordsOk(coords) && g.Inhabited() && g.dims != []
    ensures Geometry(g.dims[1..], g.itemsize).CoordsOk(coords[1..])
    ensures Geometry(g.dims[1..], g.itemsize).Inhabited()
  {
    var rest := Geometry(g.dims[1..], g.itemsize);
    forall k | 0 <= k < |coords[1..]|
      ensures 0 <= coords[1..][k] && (k < |rest.dims| ==> coords[1..][k] == 0 || coords[1..][k] < rest.dims[k])
    {
      assert coords[1..][k] == coords[k + 1];
    }
    forall k | 0 <= k < |rest.dims| ensures rest.dims[k] > 0 {
      assert rest.dims[k] == g.dims[k + 1];
    }
  }

  /**
   * Distinct coordinate vectors select slots that do not overlap: the offsets of two valid
   * vectors that differ in some dimension are at least `itemsize` bytes apart.
   */
  lemma {:induction false} OffsetSeparates(g: Geometry, a: seq<int>, b: seq<int>)
    requires g.CoordsOk(a) && g.CoordsOk(b) && g.Inhabited()
    ensures a[..|g.dims|] != b[..|g.dims|] ==>
              || Offset(g.dims, g.itemsize, a) + g.itemsize <= Offset(g.dims, g.itemsize, b)
              || Offset(g.dims, g.itemsize, b) + g.itemsize <= Offset(g.dims, g.itemsize, a)
    decreases |g.dims|
  {
    if g.dims != [] {
      var rest := Geometry(g.dims[1..], g.itemsize);
      InnerGeometry(g, a);
      InnerGeometry(g, b);
      OffsetInBounds(rest, a[1..]);
      OffsetInBounds(rest, b[1..]);
      var stride := g.itemsize * Prod(g.dims[1..]);
      var ia, ib := Offset(rest.dims, g.itemsize, a[1..]), Offset(rest.dims, g.itemsize, b[1..]);
      if a[0] == b[0] {
        OffsetSeparates(rest, a[1..], b[1..]);
        assert a[..|g.dims|] == [a[0]] + a[1..][..|rest.dims|];
        assert b[..|g.dims|] == [b[0]] + b[1..][..|rest.dims|];
      } else if a[0] < b[0] {
        RowsApart(a[0], b[0], stride, ia, ib, g.itemsize);
      } else {
        RowsApart(b[0], a[0], stride, ib, ia, g.itemsize);
      }
    }
  }

  /** A slot in an earlier row ends before any slot of a later row begins. */
  lemma RowsApart(c: int, e: int, stride: int, ic: int, ie: int, itemsize: nat)
    requires 0 <= c < e && 0 <= ic && ic + itemsize <= stride && 0 <= ie
    ensures c * stride + ic + itemsize <= e * stride + ie
  {
    MulMonotone(c + 1, e, stride);
  }

  /** Row `c` of `d` rows of `stride` bytes, with an inner slot fitting the row, stays inside the rows. */
  lemma SlotInsideRow(c: int, d: int, stride: int, inner: int, itemsize: nat)
    requires 0 <= c < d && 0 <= inner && inner + itemsize <= stride
    ensures 0 <= c * stride + inner
    ensures c * stride + inner + itemsize <= d * stride
  {
    MulNonNegative(c, stride);
    MulMonotone(c + 1, d, stride);
  }

  lemma SizeByRows(d: nat, itemsize: nat, p: nat)
    ensures itemsize * (d * p) == d * (itemsize * p)
  {
  }

  lemma MulNonNegative(a: int, b: int)
    requires 0 <= a && 0 <= b
    ensures 0 <= a * b
  {
  }

  lemma MulMonotone(a: int, b: int, m: int)
    requires a <= b && 0 <= m
    ensures a * m <= b * m
  {
  }
}
