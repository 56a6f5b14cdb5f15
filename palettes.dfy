/** Transfer-function tables: the sampled opacity tables of
    `makeOpacityPalette` and the fixed colour palettes. Colour and opacity
    values are modelled as reals. */
module Palettes {

  /** An RGB colour (`QVector3D`). */
  datatype Color = Color(r: real, g: real, b: real)

  const Black := Color(0.0, 0.0, 0.0)
  const White := Color(1.0, 1.0, 1.0)
  const Red := Color(1.0, 0.0, 0.0)

  /** Every component of `c` is exactly 0 or 1. */
  predicate Binary(c: Color)
  {
    (c.r == 0.0 || c.r == 1.0) && (c.g == 0.0 || c.g == 1.0) && (c.b == 0.0 || c.b == 1.0)
  }

  /** The argument of sample `i` of a table with `size` steps. */
  function SampleArg(i: nat, size: nat): (x: real)
    requires size > 0
    ensures i <= size ==> 0.0 <= x <= 1.0
  {
    i as real / size as real
  }

  /** `makeOpacityPalette(size, func)`: `func` sampled at 0, 1/size, ...,
      size/size, in that order, with its results stored unclamped. */
  method MakeOpacityPalette(size: nat, f: real -> real) returns (values: seq<real>)
    requires size > 0
    ensures |values| == size + 1
    ensures forall i :: 0 <= i <= size ==> values[i] == f(SampleArg(i, size))
  {
    values := [];
    var i := 0;
    while i <= size
      invariant 0 <= i <= size + 1 && |values| == i
      invariant forall k :: 0 <= k < i ==> values[k] == f(SampleArg(k, size))
    {
      values := values + [f(i as real / size as real)];
      i := i + 1;
    }
  }

  /** The sample arguments strictly increase and run from 0 to 1. */
  lemma SampleArgsIncreasing(i: nat, j: nat, size: nat)
    requires size > 0 && i < j
    ensures SampleArg(i, size) < SampleArg(j, size)
    ensures SampleArg(0, size) == 0.0 && SampleArg(size, size) == 1.0
  {
    var s := size as real;
    assert i as real < j as real;
    assert i as real / s < j as real / s by {
      assert (j as real - i as real) / s > 0.0;
    }
  }

  /** A table built from the identity holds its own sample arguments. */
  method IdentityOpacityPalette(size: nat) returns (values: seq<real>)
    requires size > 0
    ensures |values| == size + 1
    ensures values[0] == 0.0 && values[size] == 1.0
    ensures forall i, j :: 0 <= i < j <= size ==> values[i] < values[j]
  {
    values := MakeOpacityPalette(size, x => x);
    forall i, j | 0 <= i < j <= size
      ensures values[i] < values[j]
    {
      SampleArgsIncreasing(i, j, size);
    }
    SampleArgsIncreasing(0, size, size);
  }

  /** `std::pow(x, n)` for a non-negative integer exponent. */
  function Pow(x: real, n: nat): real
  {
    if n == 0 then 1.0 else x * Pow(x, n - 1)
  }

  /** Powers of 0 and 1, and monotonicity on [0, 1]. */
  lemma {:induction false} PowFacts(x: real, y: real, n: nat)
    requires 0.0 <= x <= y
    ensures n >= 1 ==> Pow(0.0, n) == 0.0
    ensures Pow(1.0, n) == 1.0
    ensures 0.0 <= Pow(x, n) <= Pow(y, n)
  {
    if n > 0 {
      PowFacts(x, y, n - 1);
      var px, py := Pow(x, n - 1), Pow(y, n - 1);
      MulMono(px, x, y);
      MulMono(y, px, py);
      MulMono(x, 0.0, px);
    }
  }

  /** Multiplying by a non-negative factor keeps the order. */
  lemma MulMono(c: real, a: real, b: real)
    requires 0.0 <= c && a <= b
    ensures c * a <= c * b && a * c <= b * c
  {
    assert c * b - c * a == c * (b - a);
  }

  /** `powOpacityPalette(n)`: 1025 samples of x^n, nondecreasing, from 0 to 1
      when n >= 1. */
  method PowOpacityPalette(n: nat) returns (values: seq<real>)
    ensures |values| == 1025
    ensures forall i :: 0 <= i <= 1024 ==> values[i] == Pow(SampleArg(i, 1024), n)
    ensures forall i, j :: 0 <= i <= j <= 1024 ==> values[i] <= values[j]
    ensures n >= 1 ==> values[0] == 0.0
    ensures values[1024] == 1.0
  {
    values := MakeOpacityPalette(1024, x => Pow(x, n));
    forall i, j | 0 <= i <= j <= 1024
      ensures values[i] <= values[j]
    {
      if i < j {
        SampleArgsIncreasing(i, j, 1024);
      }
      PowFacts(SampleArg(i, 1024), SampleArg(j, 1024), n);
    }
    SampleArgsIncreasing(0, 1024, 1024);
    PowFacts(0.0, 1.0, n);
  }

  /** `defaultOpacityPalette()`. */
  function DefaultOpacityPalette(): (r: seq<real>)
    ensures |r| == 8 && r[0] == 0.0 && r[7] == 1.0
    ensures forall i, j :: 0 <= i <= j < |r| ==> 0.0 <= r[i] <= r[j] <= 1.0
  {
    [0.0, 0.001, 0.002, 0.003, 0.01, 0.02, 0.05, 1.0]
  }

  /** The "None" opacity table: everything fully opaque. */
  function NoneOpacityPalette(): (r: seq<real>)
    ensures |r| == 1 && r[0] == 1.0
  {
    [1.0]
  }

  /** `makeRainbowPalette()` of palette_util.cpp. */
  function RainbowPalette(): (r: seq<Color>)
    ensures |r| == 7 && r[0] == Black && r[6] == Red
    ensures forall i :: 0 <= i < |r| ==> Binary(r[i])
  {
    [Black, Color(1.0, 0.0, 1.0), Color(0.0, 0.0, 1.0), Color(0.0, 1.0, 1.0),
     Color(0.0, 1.0, 0.0), Color(1.0, 1.0, 0.0), Red]
  }

  /** `makeMonochromePalette()`. */
  function MonochromePalette(): (r: seq<Color>)
    ensures |r| == 2 && r[0] == Black && r[1] == White
    ensures forall i :: 0 <= i < |r| ==> Binary(r[i])
  {
    [Black, White]
  }

  /** The older `makeRainbowPalette()` of util.cpp, whose interpolating
      loop is commented out. */
  function UtilRainbowPalette(): seq<Color>
  {
    [Color(0.0, 0.0, 0.0), Color(1.0, 0.0, 1.0), Color(0.0, 0.0, 1.0), Color(0.0, 1.0, 1.0),
     Color(0.0, 1.0, 0.0), Color(1.0, 1.0, 0.0), Color(1.0, 0.0, 0.0)]
  }

  /** Both rainbow definitions give the same list. */
  lemma RainbowVariantsAgree()
    ensures UtilRainbowPalette() == RainbowPalette()
  {
  }
}
