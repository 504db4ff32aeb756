/**
  Linearisation of a cluster cell `(sliceX, sliceY, sliceZ)` of the `xSlices x ySlices x zSlices`
  view-frustum grid into the cluster texture's record index:
  `sliceX + sliceY * xSlices + sliceZ * (xSlices * ySlices)`.
  The slice counts are the integer values the shader's float uniforms hold.
*/
module Cluster {

  function ClusterIndex(sliceX: int, sliceY: int, sliceZ: int, xSlices: int, ySlices: int): int {
    sliceX + sliceY * xSlices + sliceZ * (xSlices * ySlices)
  }

  /** The cell lies inside the slicing volume. */
  predicate InVolume(sliceX: int, sliceY: int, sliceZ: int, xSlices: int, ySlices: int, zSlices: int) {
    0 <= sliceX < xSlices && 0 <= sliceY < ySlices && 0 <= sliceZ < zSlices
  }

  /** The inverse of the linearisation: the cell a record index stands for. */
  function ClusterCell(index: int, xSlices: int, ySlices: int): (cell: (int, int, int))
    requires xSlices > 0 && ySlices > 0
    ensures 0 <= cell.0 < xSlices && 0 <= cell.1 < ySlices
    ensures index >= 0 ==> cell.2 >= 0
  {
    (index % xSlices, (index / xSlices) % ySlices, index / (xSlices * ySlices))
  }

  /** Multiplying by a non-negative factor keeps the order. */
  lemma MulLe(a: int, b: int, c: int)
    requires a <= b && 0 <= c
    ensures a * c <= b * c
  {
    assert b * c == a * c + (b - a) * c;
  }

  /** Euclidean division is determined by a quotient and a remainder in `[0, d)`. */
  lemma DivModUnique(n: int, d: int, q: int, r: int)
    requires d > 0 && 0 <= r < d && n == q * d + r
    ensures n / d == q && n % d == r
  {
    var q', r' := n / d, n % d;
    assert n == q' * d + r';
    assert (q - q') * d == r' - r;
    if q > q' {
      MulLe(1, q - q', d);
    } else if q < q' {
      MulLe(1, q' - q, d);
    }
  }

  /** A cell of one `xSlices x ySlices` plane has an in-plane offset in `[0, xSlices * ySlices)`. */
  lemma InPlaneOffset(sliceX: int, sliceY: int, xSlices: int, ySlices: int)
    requires 0 <= sliceX < xSlices && 0 <= sliceY < ySlices
    ensures 0 <= sliceX + sliceY * xSlices < xSlices * ySlices
  {
    MulLe(0, sliceY, xSlices);
    MulLe(sliceY, ySlices - 1, xSlices);
    assert (ySlices - 1) * xSlices == xSlices * ySlices - xSlices;
  }

  /** Inside the volume the index lies in `[0, xSlices * ySlices * zSlices)`. */
  lemma ClusterIndexInRange(sliceX: int, sliceY: int, sliceZ: int, xSlices: int, ySlices: int, zSlices: int)
    requires InVolume(sliceX, sliceY, sliceZ, xSlices, ySlices, zSlices)
    ensures 0 <= ClusterIndex(sliceX, sliceY, sliceZ, xSlices, ySlices) < xSlices * ySlices * zSlices
  {
    var plane := xSlices * ySlices;
    InPlaneOffset(sliceX, sliceY, xSlices, ySlices);
    MulLe(0, sliceZ, plane);
    MulLe(sliceZ, zSlices - 1, plane);
    assert (zSlices - 1) * plane == plane * zSlices - plane;
  }

  /** Recovering the cell from its index gives back the cell, for every cell of the volume. */
  lemma ClusterCellOfIndex(sliceX: int, sliceY: int, sliceZ: int, xSlices: int, ySlices: int, zSlices: int)
    requires InVolume(sliceX, sliceY, sliceZ, xSlices, ySlices, zSlices)
    ensures ClusterCell(ClusterIndex(sliceX, sliceY, sliceZ, xSlices, ySlices), xSlices, ySlices)
         == (sliceX, sliceY, sliceZ)
  {
    var n := ClusterIndex(sliceX, sliceY, sliceZ, xSlices, ySlices);
    var column := sliceY + sliceZ * ySlices;
    assert n == column * xSlices + sliceX by {
      assert column * xSlices == sliceY * xSlices + sliceZ * ySlices * xSlices;
    }
    DivModUnique(n, xSlices, column, sliceX);
    DivModUnique(column, ySlices, sliceZ, sliceY);
    InPlaneOffset(sliceX, sliceY, xSlices, ySlices);
    DivModUnique(n, xSlices * ySlices, sliceZ, sliceX + sliceY * xSlices);
  }

  /** Every non-negative index is the linearisation of its cell. */
  lemma IndexOfClusterCell(index: int, xSlices: int, ySlices: int)
    requires index >= 0 && xSlices > 0 && ySlices > 0
    ensures var cell := ClusterCell(index, xSlices, ySlices);
            ClusterIndex(cell.0, cell.1, cell.2, xSlices, ySlices) == index
  {
    var x := index % xSlices;
    var column := index / xSlices;
    var y := column % ySlices;
    var z := column / ySlices;
    assert index == column * xSlices + x;
    assert column == z * ySlices + y;
    var inPlane := x + y * xSlices;
    assert index == z * (xSlices * ySlices) + inPlane by {
      assert column * xSlices == z * ySlices * xSlices + y * xSlices;
    }
    InPlaneOffset(x, y, xSlices, ySlices);
    DivModUnique(index, xSlices * ySlices, z, inPlane);
  }

  /** Distinct cells of the volume have distinct indices. */
  lemma ClusterIndexInjective(a: (int, int, int), b: (int, int, int), xSlices: int, ySlices: int, zSlices: int)
    requires InVolume(a.0, a.1, a.2, xSlices, ySlices, zSlices)
    requires InVolume(b.0, b.1, b.2, xSlices, ySlices, zSlices)
    requires a != b
    ensures ClusterIndex(a.0, a.1, a.2, xSlices, ySlices) != ClusterIndex(b.0, b.1, b.2, xSlices, ySlices)
  {
    ClusterCellOfIndex(a.0, a.1, a.2, xSlices, ySlices, zSlices);
    ClusterCellOfIndex(b.0, b.1, b.2, xSlices, ySlices, zSlices);
  }
}
