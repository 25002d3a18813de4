/** Flat-index addressing: a cell (x, y, z) of a grid whose x extent is W and
    whose y extent is H lives at position x + W * (y + H * z) of a dense array. */
module VoxelTools {
  import opened VoxelTypes

  /** The flat position of `pos` in a grid of extent `size` (the overload taking two
      Index values). The z extent of `size` plays no part. For an x inside the row,
      dividing by the row length recovers x as the remainder and the row number
      y + H * z as the quotient. */
  function GetFlatIndexFromXYZ(size: Index, pos: Index): (i: int)
    ensures 0 <= pos.x < size.x ==> i % size.x == pos.x && i / size.x == pos.y + size.y * pos.z
  {
    var i := pos.x + size.x * (pos.y + size.y * pos.z);
    if 0 <= pos.x < size.x then
      DivModOf(i, size.x, pos.y + size.y * pos.z, pos.x);
      i
    else
      i
  }

  /** The five-argument overload: it builds a size with z extent 0 and defers to the
      Index overload, so it agrees with that overload for every z extent. */
  function GetFlatIndexFromXYZ5(xSize: int, ySize: int, x: int, y: int, z: int): (i: int)
    ensures forall zSize :: i == GetFlatIndexFromXYZ(Index(xSize, ySize, zSize), Index(x, y, z))
  {
    GetFlatIndexFromXYZ(Index(xSize, ySize, 0), Index(x, y, z))
  }

  /** The coordinates a flat position decodes to: the inverse of the flat index on a
      grid of extent `size`. */
  function PositionOfFlatIndex(size: Index, i: int): Index
    requires size.x > 0 && size.y > 0
  {
    Index(i % size.x, (i / size.x) % size.y, i / (size.x * size.y))
  }

  /** `pos` lies inside a grid of extent `size`. */
  predicate InExtent(size: Index, pos: Index)
  {
    0 <= pos.x < size.x && 0 <= pos.y < size.y && 0 <= pos.z < size.z
  }

  /** Euclidean division is determined by the quotient and remainder it must produce. */
  lemma DivModOf(a: int, b: int, q: int, r: int)
    requires 0 < b && 0 <= r < b && a == q * b + r
    ensures a / b == q && a % b == r
  {
    var q0, r0 := a / b, a % b;
    assert a == q0 * b + r0;
    if q0 < q {
      assert (q - q0) * b == r0 - r;
      MulAtLeast(q - q0, b);
    } else if q0 > q {
      assert (q0 - q) * b == r - r0;
      MulAtLeast(q0 - q, b);
    }
  }

  /** A positive multiple of b is at least b. */
  lemma MulAtLeast(k: int, b: int)
    requires k >= 1 && b > 0
    ensures k * b >= b
  {
    assert k * b == (k - 1) * b + b;
    assert (k - 1) * b >= 0;
  }

  /** y + H * z stays below H * D for in-extent y and z. */
  lemma RowBelowProduct(h: int, d: int, y: int, z: int)
    requires 0 <= y < h && 0 <= z < d
    ensures 0 <= y + h * z < h * d
  {
    MulNonNegative(h, z);
    MulNonNegative(h, d - 1 - z);
    assert h * (d - 1 - z) == h * d - h * (z + 1);
    assert h * (z + 1) == h * z + h;
  }

  /** The product of two non-negative numbers is non-negative. */
  lemma MulNonNegative(a: int, b: int)
    requires a >= 0 && b >= 0
    ensures a * b >= 0
  {
  }

  /** In-extent coordinates land inside the dense array of W * H * D cells. */
  lemma {:induction false} FlatIndexInRange(size: Index, pos: Index)
    requires InExtent(size, pos)
    ensures 0 <= GetFlatIndexFromXYZ(size, pos) < size.x * size.y * size.z
  {
    var q := pos.y + size.y * pos.z;
    RowBelowProduct(size.y, size.z, pos.y, pos.z);
    RowBelowProduct(size.x, size.y * size.z, pos.x, q);
    assert size.x * (size.y * size.z) == size.x * size.y * size.z;
  }

  /** Decoding the flat index of in-extent x and y (and any z >= 0) gives back the
      coordinates. */
  lemma {:induction false} FlatIndexRoundTrip(size: Index, pos: Index)
    requires 0 <= pos.x < size.x && 0 <= pos.y < size.y && 0 <= pos.z
    ensures PositionOfFlatIndex(size, GetFlatIndexFromXYZ(size, pos)) == pos
  {
    var w, h := size.x, size.y;
    var q := pos.y + h * pos.z;
    var i := GetFlatIndexFromXYZ(size, pos);
    assert i == q * w + pos.x;
    DivModOf(i, w, q, pos.x);
    DivModOf(q, h, pos.z, pos.y);
    var low := pos.x + w * pos.y;
    RowBelowProduct(w, h, pos.x, pos.y);
    assert i == pos.z * (w * h) + low by {
      assert w * (pos.y + h * pos.z) == w * pos.y + (w * h) * pos.z;
    }
    assert w * h > 0;
    DivModOf(i, w * h, pos.z, low);
  }

  /** Encoding the decoded coordinates of a non-negative flat index gives it back. */
  lemma {:induction false} PositionRoundTrip(size: Index, i: int)
    requires size.x > 0 && size.y > 0 && i >= 0
    ensures GetFlatIndexFromXYZ(size, PositionOfFlatIndex(size, i)) == i
  {
    var w, h := size.x, size.y;
    var q := i / w;
    assert i == q * w + i % w;
    assert q == (q / h) * h + q % h;
    DivOfDiv(i, w, h);
    assert i / (w * h) == q / h;
    assert w * (q % h + h * (q / h)) == w * q;
  }

  /** Dividing by w and then by h is dividing by w * h. */
  lemma DivOfDiv(i: int, w: int, h: int)
    requires w > 0 && h > 0 && i >= 0
    ensures (i / w) / h == i / (w * h)
  {
    var q := i / w;
    var low := i % w + w * (q % h);
    assert i == (q / h) * (w * h) + low by {
      assert i == q * w + i % w;
      assert q == (q / h) * h + q % h;
      assert q * w == (q / h) * (w * h) + w * (q % h);
    }
    RowBelowProduct(w, h, i % w, q % h);
    assert w * h > 0;
    DivModOf(i, w * h, q / h, low);
  }

  /** On in-extent coordinates the flat index is injective. */
  lemma FlatIndexInjective(size: Index, p: Index, q: Index)
    requires InExtent(size, p) && InExtent(size, q)
    requires GetFlatIndexFromXYZ(size, p) == GetFlatIndexFromXYZ(size, q)
    ensures p == q
  {
    FlatIndexRoundTrip(size, p);
    FlatIndexRoundTrip(size, q);
  }

  /** Out-of-extent coordinates alias in-extent ones: an x overflow by the x extent
      lands one row further, a y overflow by the y extent one layer further. */
  lemma FlatIndexAliases(size: Index, pos: Index)
    ensures GetFlatIndexFromXYZ(size, Index(pos.x + size.x, pos.y, pos.z))
         == GetFlatIndexFromXYZ(size, Index(pos.x, pos.y + 1, pos.z))
    ensures GetFlatIndexFromXYZ(size, Index(pos.x, pos.y + size.y, pos.z))
         == GetFlatIndexFromXYZ(size, Index(pos.x, pos.y, pos.z + 1))
  {
    assert size.x * (pos.y + 1 + size.y * pos.z) == size.x * (pos.y + size.y * pos.z) + size.x;
    assert size.y * (pos.z + 1) == size.y * pos.z + size.y;
  }
}
