/** `cube::cubeToframe` and `cube::loadCube`: a cube's values, stored as dx
    slices of dy*dz values, copied cell by cell into a `Frame3D` of the same
    dimensions, which stores dz slices of dx*dy values. */
module CubeUtil {
  import opened Common
  import opened Grid
  import opened CubeData

  /** Position of value (i, j, k) in the cube's data list. */
  function CubeIndex(dy: nat, dz: nat, i: nat, j: nat, k: nat): nat
  {
    i * dy * dz + j * dz + k
  }

  /** The index of every in-range cell lies below dx*dy*dz. */
  lemma CubeIndexBound(dx: nat, dy: nat, dz: nat, i: nat, j: nat, k: nat)
    requires i < dx && j < dy && k < dz
    ensures CubeIndex(dy, dz, i, j, k) < dx * dy * dz
  {
    assert j * dz + k < dy * dz by {
      MulLe(dz, j + 1, dy);
      assert dz * (j + 1) == j * dz + dz;
    }
    assert i * dy * dz + j * dz + k < (i + 1) * (dy * dz);
    MulLe(dy * dz, i + 1, dx);
    assert dx * dy * dz == (dy * dz) * dx;
  }

  /** The cell stored at position `n` of the cube's data list. */
  function CubeCoords(dy: nat, dz: nat, n: nat): (c: (nat, nat, nat))
    requires dy > 0 && dz > 0
    ensures c.1 < dy && c.2 < dz
  {
    (n / (dy * dz), (n / dz) % dy, n % dz)
  }

  /** `CubeCoords` undoes `CubeIndex` ... */
  lemma CubeCoordsOfIndex(dy: nat, dz: nat, i: nat, j: nat, k: nat)
    requires j < dy && k < dz
    ensures CubeCoords(dy, dz, CubeIndex(dy, dz, i, j, k)) == (i, j, k)
  {
    var n := CubeIndex(dy, dz, i, j, k);
    var q := i * dy + j;
    assert n == q * dz + k;
    DivModUnique(n, dz, q, k);
    DivModUnique(q, dy, i, j);
    assert j * dz + k < dy * dz by {
      MulLe(dz, j + 1, dy);
    }
    assert n == i * (dy * dz) + (j * dz + k);
    DivModUnique(n, dy * dz, i, j * dz + k);
  }

  /** ... and every position below dx*dy*dz is the index of an in-range
      cell, so the index map is a bijection and each value is copied into
      exactly one cell. */
  lemma CubeIndexOfCoords(dx: nat, dy: nat, dz: nat, n: nat)
    requires n < dx * dy * dz
    ensures dy > 0 && dz > 0
    ensures var c := CubeCoords(dy, dz, n);
      c.0 < dx && CubeIndex(dy, dz, c.0, c.1, c.2) == n
  {
    assert dy > 0 && dz > 0 && dx > 0 by {
      if dx == 0 || dy == 0 || dz == 0 { assert false; }
    }
    var q := n / dz;
    assert n == q * dz + n % dz;
    assert q == (q / dy) * dy + q % dy;
    var i := q / dy;
    assert q / dy == n / (dy * dz) by {
      DivDiv(n, dz, dy);
    }
    assert n == (i * dy + q % dy) * dz + n % dz;
    assert (i * dy + q % dy) * dz == i * dy * dz + (q % dy) * dz;
  }

  /** Dividing by `a` and then `b` is dividing by `a*b`. */
  lemma DivDiv(n: nat, a: nat, b: nat)
    requires a > 0 && b > 0
    ensures n / a / b == n / (a * b)
  {
    var q, r := n / a, n % a;
    var q2, r2 := q / b, q % b;
    assert n == (q2 * b + r2) * a + r;
    assert n == q2 * (a * b) + (r2 * a + r);
    assert r2 * a + r < a * b by {
      MulLe(a, r2 + 1, b);
      assert a * (r2 + 1) == r2 * a + a;
    }
    DivModUnique(n, a * b, q2, r2 * a + r);
  }

  /** Value (i, j, k) of the cube. */
  function CubeValue(data: Cube, i: nat, j: nat, k: nat): real
    requires data.WellFormed() && |data.data| == CellCount(data.dim)
    requires i < data.dim[0] && j < data.dim[1] && k < data.dim[2]
  {
    CubeIndexBound(data.dim[0], data.dim[1], data.dim[2], i, j, k);
    data.data[CubeIndex(data.dim[1], data.dim[2], i, j, k)]
  }

  /** `cubeToframe(data)` before its final `normalize()`: a frame of the
      cube's dimensions whose cell (i, j, k) holds cube value (i, j, k).
      The length of the data list is what the source's `assert` checks. */
  method CubeToFrame(data: Cube) returns (frame: Frame3D<real>)
    requires data.WellFormed() && |data.data| == CellCount(data.dim)
    ensures fresh(frame.data) && frame.Valid()
    ensures frame.width == data.dim[0] && frame.height == data.dim[1] && frame.depth == data.dim[2]
    ensures forall i: nat, j: nat, k: nat :: i < frame.width && j < frame.height && k < frame.depth
              ==> frame.At(i, j, k) == CubeValue(data, i, j, k)
  {
    var dx, dy, dz := data.dim[0], data.dim[1], data.dim[2];
    frame := new Frame3D(dx, dy, dz, 0.0);
    var i := 0;
    while i < dx
      invariant 0 <= i <= dx && frame.Valid() && fresh(frame.data)
      invariant frame.width == dx && frame.height == dy && frame.depth == dz
      invariant forall x: nat, y: nat, z: nat :: x < i && y < dy && z < dz
                  ==> frame.At(x, y, z) == CubeValue(data, x, y, z)
    {
      var j := 0;
      while j < dy
        invariant 0 <= j <= dy && frame.Valid() && fresh(frame.data)
        invariant frame.width == dx && frame.height == dy && frame.depth == dz
        invariant forall x: nat, y: nat, z: nat :: (x < i || (x == i && y < j)) && y < dy && z < dz
                    ==> frame.At(x, y, z) == CubeValue(data, x, y, z)
      {
        var k := 0;
        while k < dz
          invariant 0 <= k <= dz && frame.Valid() && fresh(frame.data)
          invariant frame.width == dx && frame.height == dy && frame.depth == dz
          invariant forall x: nat, y: nat, z: nat ::
                      (x < i || (x == i && y < j) || (x == i && y == j && z < k)) && y < dy && z < dz
                      ==> frame.At(x, y, z) == CubeValue(data, x, y, z)
        {
          CubeIndexBound(dx, dy, dz, i, j, k);
          var index := i * dy * dz + j * dz + k;
          frame.SetAt(i, j, k, data.data[index]);
          k := k + 1;
        }
        j := j + 1;
      }
      i := i + 1;
    }
  }

  /** `loadCube(filename)`: `readCubeFile` followed by `cubeToframe`. */
  method LoadCube(files: map<string, CubeText>, filename: string) returns (r: Result<Frame3D<real>, string>)
    ensures r.Err? <==> filename !in files
    ensures r.Err? ==> r.error == "Cannot open " + filename
    ensures r.Ok? ==>
      var d := ParseCube(files[filename]);
      && fresh(r.value.data) && r.value.Valid()
      && r.value.width == d.dim[0] && r.value.height == d.dim[1] && r.value.depth == d.dim[2]
      && forall i: nat, j: nat, k: nat :: i < d.dim[0] && j < d.dim[1] && k < d.dim[2]
           ==> r.value.At(i, j, k) == CubeValue(d, i, j, k)
  {
    var data := ReadCubeFile(files, filename);
    if data.Err? {
      return Err(data.error);
    }
    var frame := CubeToFrame(data.value);
    return Ok(frame);
  }
}
