/** The volume grid `Frame3D<T>`: three dimensions fixed at construction and a
    dense storage of exactly width*height*depth elements. */
module Grid {
  import opened Common

  /** Position of cell (x, y, z) in the storage: depth slices of
      width*height row-major images. */
  function Index(width: nat, height: nat, depth: nat, x: nat, y: nat, z: nat): (i: nat)
    requires x < width && y < height && z < depth
    ensures i < width * height * depth
  {
    IndexBound(width, height, depth, x, y, z);
    x + width * (y + height * z)
  }

  lemma IndexBound(width: nat, height: nat, depth: nat, x: nat, y: nat, z: nat)
    requires x < width && y < height && z < depth
    ensures x + width * (y + height * z) < width * height * depth
  {
    assert y + height * z < height * depth by {
      MulLe(height, z + 1, depth);
    }
    assert x + width * (y + height * z) < width * (y + height * z + 1);
    MulLe(width, y + height * z + 1, height * depth);
  }


  /** The cell stored at position `i`. */
  function Coords(width: nat, height: nat, i: nat): (c: (nat, nat, nat))
    requires width > 0 && height > 0
    ensures c.0 < width && c.1 < height
  {
    (i % width, (i / width) % height, (i / width) / height)
  }

  /** `Index` is a bijection from the in-range cells onto [0, width*height*depth):
      `Coords` undoes it, and it undoes `Coords`. */
  lemma IndexCoords(width: nat, height: nat, depth: nat, x: nat, y: nat, z: nat)
    requires x < width && y < height && z < depth
    ensures Coords(width, height, Index(width, height, depth, x, y, z)) == (x, y, z)
  {
    var q := y + height * z;
    DivModUnique(x + width * q, width, q, x);
    DivModUnique(q, height, z, y);
  }

  lemma CoordsIndex(width: nat, height: nat, depth: nat, i: nat)
    requires i < width * height * depth
    ensures width > 0 && height > 0
    ensures Coords(width, height, i).2 < depth
    ensures Index(width, height, depth, Coords(width, height, i).0, Coords(width, height, i).1,
                  Coords(width, height, i).2) == i
  {
    assert width > 0 && height > 0 && depth > 0 by {
      if width == 0 || height == 0 || depth == 0 { assert false; }
    }
    var q := i / width;
    assert i == i % width + width * q;
    assert q == q % height + height * (q / height);
    if q / height >= depth {
      MulLe(height, depth, q / height);
      MulLe(width, height * depth, q);
      assert false;
    }
  }

  lemma IndexInjective(width: nat, height: nat, depth: nat,
                       x: nat, y: nat, z: nat, x': nat, y': nat, z': nat)
    requires x < width && y < height && z < depth
    requires x' < width && y' < height && z' < depth
    ensures Index(width, height, depth, x, y, z) == Index(width, height, depth, x', y', z')
            <==> (x, y, z) == (x', y', z')
  {
    IndexCoords(width, height, depth, x, y, z);
    IndexCoords(width, height, depth, x', y', z');
  }

  /** Value of a frame: its dimensions and its cells in storage order. */
  datatype GridValue<T> = GridValue(width: nat, height: nat, depth: nat, cells: seq<T>)
  {
    predicate WellSized() { |cells| == width * height * depth }
  }

  /** `Frame3D<T>`: the dimensions never change after construction (they are
      `const`); the storage array is allocated once and written in place. */
  class Frame3D<T> {
    const width: nat
    const height: nat
    const depth: nat
    const data: array<T>

    ghost predicate Valid()
      reads this
    {
      data.Length == width * height * depth
    }

    /** `Frame3D(width, height, depth)`: storage of width*height*depth
        value-initialised elements (`zero` stands for `T()`). */
    constructor (width: nat, height: nat, depth: nat, zero: T)
      ensures Valid() && fresh(data)
      ensures this.width == width && this.height == height && this.depth == depth
      ensures data.Length == width * height * depth
      ensures forall i :: 0 <= i < data.Length ==> data[i] == zero
    {
      this.width := width;
      this.height := height;
      this.depth := depth;
      data := new T[width * height * depth](_ => zero);
    }

    /** `Frame3D(width, height)`: depth defaults to 1, a single slice. */
    constructor Slice(width: nat, height: nat, zero: T)
      ensures Valid() && fresh(data)
      ensures this.width == width && this.height == height && depth == 1
      ensures data.Length == width * height
      ensures forall i :: 0 <= i < data.Length ==> data[i] == zero
    {
      this.width := width;
      this.height := height;
      depth := 1;
      data := new T[width * height](_ => zero);
    }

    /** `size()`: the product of the dimensions, which is the storage length. */
    function Size(): (n: nat)
      reads this
      requires Valid()
      ensures n == data.Length
    {
      width * height * depth
    }

    /** `data()`, const and non-const alike: the one storage of the frame. */
    function Data(): (a: array<T>)
      reads this
      requires Valid()
      ensures a == data && a.Length == Size()
    {
      data
    }

    function Value(): (g: GridValue<T>)
      reads this, data
      requires Valid()
      ensures g.WellSized() && g.cells == data[..]
      ensures g.width == width && g.height == height && g.depth == depth
    {
      GridValue(width, height, depth, data[..])
    }

    /** Cell (x, y, z). */
    function At(x: nat, y: nat, z: nat): T
      reads this, data
      requires Valid() && x < width && y < height && z < depth
    {
      data[Index(width, height, depth, x, y, z)]
    }

    /** `at(x, y, z) = v`: only that cell changes. */
    method SetAt(x: nat, y: nat, z: nat, v: T)
      requires Valid() && x < width && y < height && z < depth
      modifies data
      ensures At(x, y, z) == v
      ensures forall x': nat, y': nat, z': nat :: x' < width && y' < height && z' < depth && (x', y', z') != (x, y, z)
                ==> At(x', y', z') == old(At(x', y', z'))
      ensures data[..] == old(data[..])[Index(width, height, depth, x, y, z) := v]
    {
      data[Index(width, height, depth, x, y, z)] := v;
      forall x': nat, y': nat, z': nat | x' < width && y' < height && z' < depth && (x', y', z') != (x, y, z)
        ensures At(x', y', z') == old(At(x', y', z'))
      {
        IndexInjective(width, height, depth, x, y, z, x', y', z');
      }
    }

    /** `fill(begin, end)`: the values, in order, become the storage. */
    method Fill(values: seq<T>)
      requires Valid() && |values| == Size()
      modifies data
      ensures data[..] == values
    {
      var i := 0;
      while i < data.Length
        invariant 0 <= i <= data.Length
        invariant data[..i] == values[..i]
      {
        data[i] := values[i];
        i := i + 1;
      }
    }

    /** `fill(f)`: every cell (x, y, z) receives `f(x, y, z)`. */
    method FillWith(f: (nat, nat, nat) -> T)
      requires Valid()
      modifies data
      ensures forall x: nat, y: nat, z: nat :: x < width && y < height && z < depth ==> At(x, y, z) == f(x, y, z)
    {
      var i := 0;
      while i < data.Length
        invariant 0 <= i <= data.Length
        invariant forall j :: 0 <= j < i ==> width > 0 && height > 0 && data[j] == f(Coords(width, height, j).0, Coords(width, height, j).1, Coords(width, height, j).2)
      {
        CoordsIndex(width, height, depth, i);
        var c := Coords(width, height, i);
        data[i] := f(c.0, c.1, c.2);
        i := i + 1;
      }
      forall x: nat, y: nat, z: nat | x < width && y < height && z < depth
        ensures At(x, y, z) == f(x, y, z)
      {
        IndexCoords(width, height, depth, x, y, z);
      }
    }
  }
}
