/** Procedural volumes and value helpers: the linear interpolation and the
    Hounsfield transfer used for CT values, the bucket histogram, and the
    generators that fill a cubic `Frame3D` cell by cell from the cell's
    coordinates (implicit and analytical surfaces, sector, sphere, bubbles,
    random noise). Square roots, the random engine and the trigonometric
    surfaces are supplied by the caller as parameters. */
module FrameUtil {
  import opened Common
  import opened Grid
  import opened Meshes

  // ------------------------------------------------------------ lerp

  /** `lerp(start, end, u_start, u_end, u)`: the value at `u` on the line
      through (u_start, start) and (u_end, end). */
  function Lerp(start: real, end: real, uStart: int, uEnd: int, u: int): real
    requires uStart != uEnd
  {
    var ind := (u - uStart) as real / (uEnd - uStart) as real;
    start * (1.0 - ind) + ind * end
  }

  /** The interpolation hits both end points ... */
  lemma LerpEnds(start: real, end: real, uStart: int, uEnd: int)
    requires uStart != uEnd
    ensures Lerp(start, end, uStart, uEnd, uStart) == start
    ensures Lerp(start, end, uStart, uEnd, uEnd) == end
  {
  }

  /** ... and on the half-open interval [uStart, uEnd) stays in
      [start, end), reaching `start` only at `uStart`. */
  lemma LerpWithin(start: real, end: real, uStart: int, uEnd: int, u: int)
    requires uStart <= u < uEnd && start < end
    ensures start <= Lerp(start, end, uStart, uEnd, u) < end
    ensures Lerp(start, end, uStart, uEnd, u) == start <==> u == uStart
  {
    var d := (uEnd - uStart) as real;
    var ind := (u - uStart) as real / d;
    assert 0.0 <= ind < 1.0 by {
      assert (u - uStart) as real < d;
    }
    var w := end - start;
    assert Lerp(start, end, uStart, uEnd, u) == start + ind * w;
    assert (1.0 - ind) * w > 0.0 by {
      MulPositive(1.0 - ind, w);
    }
    assert ind * w < w by {
      assert w - ind * w == (1.0 - ind) * w;
    }
    if u != uStart {
      assert ind > 0.0;
      MulPositive(ind, w);
    }
  }

  // ------------------------------------------------------------ hounsfield

  /** One row of the Hounsfield table: values in [rs, re) are mapped
      linearly onto [vs, ve). */
  datatype Band = Band(rs: int, re: int, vs: real, ve: real)

  predicate Covers(b: Band, v: int)
  {
    b.rs <= v < b.re
  }

  /** Every band has a non-empty value range. */
  predicate WellFormedBands(bands: seq<Band>)
  {
    forall i :: 0 <= i < |bands| ==> bands[i].rs < bands[i].re
  }

  /** The table of `hounsfield`, in listed order. */
  function HounsfieldBands(): (bands: seq<Band>)
    ensures WellFormedBands(bands)
  {
    [Band(900, 1200, 0.8, 1.0), Band(1200, 2000, 0.3, 0.5),
     Band(2000, 4000, 0.2, 0.3), Band(0, 1200, 0.01, 0.1)]
  }

  /** The interpolation of the first band covering `v`, or 0 if none does. */
  function FirstMatch(bands: seq<Band>, v: int): real
    requires WellFormedBands(bands)
  {
    if bands == [] then 0.0
    else if Covers(bands[0], v) then Lerp(bands[0].vs, bands[0].ve, bands[0].rs, bands[0].re, v)
    else FirstMatch(bands[1..], v)
  }

  /** The first covering band decides, whatever the bands after it say ... */
  lemma {:induction false} FirstMatchIsFirst(bands: seq<Band>, v: int, i: nat)
    requires WellFormedBands(bands) && i < |bands| && Covers(bands[i], v)
    requires forall j :: 0 <= j < i ==> !Covers(bands[j], v)
    ensures FirstMatch(bands, v) == Lerp(bands[i].vs, bands[i].ve, bands[i].rs, bands[i].re, v)
  {
    if i > 0 {
      FirstMatchIsFirst(bands[1..], v, i - 1);
    }
  }

  /** ... and a value no band covers maps to 0. */
  lemma {:induction false} FirstMatchNone(bands: seq<Band>, v: int)
    requires WellFormedBands(bands)
    requires forall j :: 0 <= j < |bands| ==> !Covers(bands[j], v)
    ensures FirstMatch(bands, v) == 0.0
  {
    if bands != [] {
      FirstMatchNone(bands[1..], v);
    }
  }

  /** The range-for over the table with its early return. */
  method ScanBands(bands: seq<Band>, v: int) returns (r: real)
    requires WellFormedBands(bands)
    ensures r == FirstMatch(bands, v)
  {
    var i := 0;
    while i < |bands|
      invariant 0 <= i <= |bands|
      invariant FirstMatch(bands[i..], v) == FirstMatch(bands, v)
    {
      var b := bands[i];
      if v >= b.rs && v < b.re {
        return Lerp(b.vs, b.ve, b.rs, b.re, v);
      }
      assert bands[i..][1..] == bands[i + 1..];
      i := i + 1;
    }
    return 0.0;
  }

  function HounsfieldValue(v: int): real
  {
    FirstMatch(HounsfieldBands(), v)
  }

  /** `hounsfield(value)`. */
  method Hounsfield(v: int) returns (r: real)
    ensures r == HounsfieldValue(v)
  {
    r := ScanBands(HounsfieldBands(), v);
  }

  /** The bands as the scan sees them: [900, 1200) wins over the later
      [0, 1200), so only 0..899 reach the last band; outside [0, 4000) the
      result is 0. */
  lemma HounsfieldCases(v: int)
    ensures 900 <= v < 1200 ==> 0.8 <= HounsfieldValue(v) < 1.0
    ensures 1200 <= v < 2000 ==> 0.3 <= HounsfieldValue(v) < 0.5
    ensures 2000 <= v < 4000 ==> 0.2 <= HounsfieldValue(v) < 0.3
    ensures 0 <= v < 900 ==> 0.01 <= HounsfieldValue(v) < 0.1
    ensures v < 0 || v >= 4000 ==> HounsfieldValue(v) == 0.0
  {
    var bands := HounsfieldBands();
    if 900 <= v < 1200 {
      FirstMatchIsFirst(bands, v, 0);
      LerpWithin(0.8, 1.0, 900, 1200, v);
    } else if 1200 <= v < 2000 {
      FirstMatchIsFirst(bands, v, 1);
      LerpWithin(0.3, 0.5, 1200, 2000, v);
    } else if 2000 <= v < 4000 {
      FirstMatchIsFirst(bands, v, 2);
      LerpWithin(0.2, 0.3, 2000, 4000, v);
    } else if 0 <= v < 900 {
      FirstMatchIsFirst(bands, v, 3);
      LerpWithin(0.01, 0.1, 0, 1200, v);
      assert Lerp(0.01, 0.1, 0, 1200, v) < 0.1 * 0.75 + 0.01 * 0.25 + 0.01 by {
        assert (v as real) / 1200.0 < 0.75;
      }
    } else {
      FirstMatchNone(bands, v);
    }
  }

  /** Every Hounsfield value lies in [0, 1). */
  lemma HounsfieldRange(v: int)
    ensures 0.0 <= HounsfieldValue(v) < 1.0
  {
    HounsfieldCases(v);
  }

  // ------------------------------------------------------------ histogram

  /** The largest element (`*std::max_element`). */
  function SeqMax(s: seq<int>): (m: int)
    requires |s| > 0
    ensures forall i :: 0 <= i < |s| ==> s[i] <= m
    ensures exists i :: 0 <= i < |s| && s[i] == m
  {
    if |s| == 1 then s[0]
    else
      var m := SeqMax(s[..|s| - 1]);
      assert forall i :: 0 <= i < |s| - 1 ==> s[..|s| - 1][i] == s[i];
      if s[|s| - 1] > m then s[|s| - 1] else m
  }

  /** `std::ceil(float(a)/b)` for a positive `b`. */
  function CeilDiv(a: int, b: int): (q: int)
    requires b > 0
    ensures (q - 1) * b < a <= q * b
  {
    var q := (a + b - 1) / b;
    assert q * b <= a + b - 1 < q * b + b;
    q
  }

  /** Bucket `i` of size `size`: the pair (i*size, (i+1)*size). */
  function BucketKey(i: int, size: int): (int, int)
  {
    (i * size, (i + 1) * size)
  }

  /** The bucket a value falls into: `floor(v/size)*size` and the next
      multiple of `size`. */
  function BucketOf(v: int, size: int): (int, int)
    requires size > 0
  {
    BucketKey(v / size, size)
  }

  /** Each value lies inside its own bucket. */
  lemma BucketContains(v: int, size: int)
    requires size > 0
    ensures BucketOf(v, size).0 <= v < BucketOf(v, size).1
  {
    assert v == (v / size) * size + v % size;
  }

  /** The `num_of_buckets` pre-created buckets, all zero. */
  function InitialBuckets(n: nat, size: int): map<(int, int), nat>
  {
    if n == 0 then map[] else InitialBuckets(n - 1, size)[BucketKey(n - 1, size) := 0]
  }

  /** Bucket i starts at the i-th multiple of the size. */
  lemma BucketKeyIndex(i: int, size: int)
    requires size > 0
    ensures BucketKey(i, size).0 / size == i
  {
    DivModUnique(i * size, size, i, 0);
  }

  /** For a positive size the pre-created map holds exactly buckets
      0 .. n-1, distinct and all zero. */
  lemma {:induction false} InitialBucketsShape(n: nat, size: int)
    requires size > 0
    ensures |InitialBuckets(n, size)| == n
    ensures forall k :: k in InitialBuckets(n, size) ==>
      InitialBuckets(n, size)[k] == 0 && 0 <= k.0 / size < n && k == BucketKey(k.0 / size, size)
    ensures forall i :: 0 <= i < n ==> BucketKey(i, size) in InitialBuckets(n, size)
  {
    if n > 0 {
      InitialBucketsShape(n - 1, size);
      var prev := InitialBuckets(n - 1, size);
      var key := BucketKey(n - 1, size);
      BucketKeyIndex(n - 1, size);
      assert key !in prev;
    }
  }

  /** The bucket keys of all values, one occurrence per value. */
  function BucketKeys(values: seq<int>, size: int): (ms: multiset<(int, int)>)
    requires size > 0
    ensures |ms| == |values|
  {
    if values == [] then multiset{}
    else BucketKeys(values[..|values| - 1], size) + multiset{BucketOf(values[|values| - 1], size)}
  }

  /** `histo[key]`, with the zero that `operator[]` inserts for a new key. */
  function Lookup(h: map<(int, int), nat>, key: (int, int)): nat
  {
    if key in h then h[key] else 0
  }

  /** The counts after `values` were added to `h` one at a time. */
  function Counted(h: map<(int, int), nat>, values: seq<int>, size: int): map<(int, int), nat>
    requires size > 0
  {
    if values == [] then h
    else
      var rest := Counted(h, values[..|values| - 1], size);
      var key := BucketOf(values[|values| - 1], size);
      rest[key := Lookup(rest, key) + 1]
  }

  /** Counting adds each value to exactly its own bucket: every count grows
      by the number of values in that bucket, and new keys are exactly the
      buckets of some value. */
  lemma {:induction false} CountedSpec(h: map<(int, int), nat>, values: seq<int>, size: int)
    requires size > 0
    ensures forall k :: k in Counted(h, values, size) <==> k in h || k in BucketKeys(values, size)
    ensures forall k :: Lookup(Counted(h, values, size), k) == Lookup(h, k) + BucketKeys(values, size)[k]
  {
    if values != [] {
      CountedSpec(h, values[..|values| - 1], size);
    }
  }

  /** Both loops of `histogramm` for a given bucket size: pre-create
      `num` zero buckets, then increment each value's bucket. */
  method CountBuckets(values: seq<int>, num: nat, size: int) returns (histo: map<(int, int), nat>)
    requires size > 0
    ensures forall k :: k in histo <==> k in InitialBuckets(num, size) || k in BucketKeys(values, size)
    ensures forall k :: k in histo ==> histo[k] == BucketKeys(values, size)[k]
  {
    histo := CreateBuckets(num, size);
    histo := AddValues(histo, values, size);
    InitialBucketsShape(num, size);
    CountedSpec(InitialBuckets(num, size), values, size);
    forall k | k in histo
      ensures histo[k] == BucketKeys(values, size)[k]
    {
      assert Lookup(histo, k) == Lookup(InitialBuckets(num, size), k) + BucketKeys(values, size)[k];
    }
  }

  /** The first loop of `histogramm`: `num` zero buckets. */
  method CreateBuckets(num: nat, size: int) returns (histo: map<(int, int), nat>)
    ensures histo == InitialBuckets(num, size)
  {
    histo := map[];
    var i := 0;
    while i < num
      invariant 0 <= i <= num && histo == InitialBuckets(i, size)
    {
      histo := histo[BucketKey(i, size) := 0];
      i := i + 1;
    }
  }

  /** The second loop of `histogramm`: each value's bucket incremented,
      created at zero first when missing. */
  method AddValues(h: map<(int, int), nat>, values: seq<int>, size: int) returns (histo: map<(int, int), nat>)
    requires size > 0
    ensures histo == Counted(h, values, size)
  {
    histo := h;
    var n := 0;
    while n < |values|
      invariant 0 <= n <= |values|
      invariant histo == Counted(h, values[..n], size)
    {
      var key := BucketOf(values[n], size);
      assert values[..n + 1][..n] == values[..n];
      histo := histo[key := Lookup(histo, key) + 1];
      n := n + 1;
    }
    assert values[..|values|] == values;
  }

  /** The bucket size `histogramm` uses: `ceil(max/num_of_buckets)`. */
  function BucketSize(values: seq<int>, num: int): int
    requires |values| > 0 && num > 0
  {
    CeilDiv(SeqMax(values), num)
  }

  /** `histogramm(values, num_of_buckets)` for a positive maximum (a zero
      maximum makes the bucket size 0 and the bucket bounds NaN). */
  method Histogram(values: seq<int>, num: nat) returns (histo: map<(int, int), nat>)
    requires |values| > 0 && num > 0 && SeqMax(values) > 0
    ensures BucketSize(values, num) > 0
    ensures forall k :: k in histo <==>
      k in InitialBuckets(num, BucketSize(values, num)) || k in BucketKeys(values, BucketSize(values, num))
    ensures forall k :: k in histo ==> histo[k] == BucketKeys(values, BucketSize(values, num))[k]
  {
    var max := SeqMax(values);
    var size := CeilDiv(max, num);
    histo := CountBuckets(values, num, size);
  }

  /** The maximum lands in one of the pre-created buckets exactly when
      `num` does not divide it; otherwise it opens bucket `num`, one past
      the last. */
  lemma MaxBucketPreCreated(max: int, num: int)
    requires max > 0 && num > 0
    ensures CeilDiv(max, num) > 0
    ensures BucketOf(max, CeilDiv(max, num)) in InitialBuckets(num, CeilDiv(max, num)) <==> max % num != 0
  {
    var size := CeilDiv(max, num);
    var q := max / size;
    CeilBucketIndex(max, num);
    InitialBucketsShape(num, size);
    if BucketKey(q, size) in InitialBuckets(num, size) {
      BucketKeyIndex(q, size);
    }
  }

  /** The bucket index of the maximum under `ceil(max/num)`: below `num`
      exactly when `num` does not divide the maximum. */
  lemma CeilBucketIndex(max: int, num: int)
    requires max > 0 && num > 0
    ensures CeilDiv(max, num) > 0
    ensures 0 <= max / CeilDiv(max, num)
    ensures max / CeilDiv(max, num) < num <==> max % num != 0
  {
    var size := CeilDiv(max, num);
    var t, r := max / num, max % num;
    assert max == t * num + r;
    if r == 0 {
      DivModUnique(max + num - 1, num, t, num - 1);
      assert size == t;
      DivModUnique(max, size, num, 0);
    } else {
      DivModUnique(max + num - 1, num, t + 1, r - 1);
      assert size == t + 1;
      assert max < num * size;
      BucketIndexBelow(max, size, num);
    }
  }

  /** A value of [0, num*size) falls into one of buckets 0 .. num-1. */
  lemma BucketIndexBelow(v: int, size: int, num: int)
    requires size > 0 && 0 <= v < num * size
    ensures 0 <= v / size < num
  {
    var q := v / size;
    assert v == q * size + v % size;
    if q >= num {
      MulLe(size, num, q);
    }
  }

  /** The bucket size that keeps every value of [0, max] inside the
      pre-created buckets. */
  function IntendedBucketSize(values: seq<int>, num: int): (size: int)
    requires |values| > 0 && num > 0 && SeqMax(values) >= 0
    ensures size > 0 && SeqMax(values) < num * size
  {
    var max := SeqMax(values);
    var t := max / num;
    assert max == t * num + max % num;
    assert num * (t + 1) == t * num + num;
    t + 1
  }

  /** `histogramm` with the intended bucket size: exactly `num` buckets,
      and every non-negative value lands in one of them. */
  method IntendedHistogram(values: seq<int>, num: nat) returns (histo: map<(int, int), nat>)
    requires |values| > 0 && num > 0 && forall i :: 0 <= i < |values| ==> values[i] >= 0
    ensures SeqMax(values) >= 0
    ensures histo.Keys == InitialBuckets(num, IntendedBucketSize(values, num)).Keys
    ensures |histo| == num
    ensures forall k :: k in histo ==> histo[k] == BucketKeys(values, IntendedBucketSize(values, num))[k]
  {
    assert values[0] <= SeqMax(values);
    var size := IntendedBucketSize(values, num);
    histo := CountBuckets(values, num, size);
    InitialBucketsShape(num, size);
    BucketKeysPreCreated(values, num, size);
  }

  /** With `max < num*size`, the bucket of every value of [0, max] is
      pre-created. */
  lemma BucketKeysPreCreated(values: seq<int>, num: nat, size: int)
    requires size > 0 && |values| > 0 && SeqMax(values) < num * size
    requires forall i :: 0 <= i < |values| ==> values[i] >= 0
    ensures forall k :: k in BucketKeys(values, size) ==> k in InitialBuckets(num, size)
  {
    InitialBucketsShape(num, size);
    forall k | k in BucketKeys(values, size)
      ensures k in InitialBuckets(num, size)
    {
      var i := BucketKeyOrigin(values, size, k);
      BucketIndexBelow(values[i], size, num);
    }
  }

  /** Every bucket key comes from some value. */
  lemma {:induction false} BucketKeyOrigin(values: seq<int>, size: int, k: (int, int)) returns (i: nat)
    requires size > 0 && k in BucketKeys(values, size)
    ensures i < |values| && k == BucketOf(values[i], size)
  {
    var last := |values| - 1;
    if k == BucketOf(values[last], size) {
      i := last;
    } else {
      i := BucketKeyOrigin(values[..last], size, k);
    }
  }

  // ------------------------------------------------------------ generators

  /** `1 - 2*i/(n - 1)`: cell indices 0 .. n-1 mapped onto [1, -1]. */
  function Coordinate(i: nat, n: nat): real
    requires n >= 2
  {
    1.0 - 2.0 * (i as real / (n - 1) as real)
  }

  /** `i/(n - 1)`: cell indices mapped onto [0, 1]. */
  function UnitCoordinate(i: nat, n: nat): real
    requires n >= 2
  {
    i as real / (n - 1) as real
  }

  /** The unit map runs from 0 at the first cell to 1 at the last,
      strictly increasing. */
  lemma UnitCoordinateRange(i: nat, j: nat, n: nat)
    requires n >= 2 && i < j < n
    ensures UnitCoordinate(0, n) == 0.0 && UnitCoordinate(n - 1, n) == 1.0
    ensures 0.0 <= UnitCoordinate(i, n) < UnitCoordinate(j, n) <= 1.0
  {
    var d := (n - 1) as real;
    DivLess(0.0, i as real, d);
    DivLess(i as real, j as real, d);
    DivLess(j as real, d, d);
    assert d / d == 1.0;
  }

  lemma UnitCoordinateBounds(i: nat, n: nat)
    requires n >= 2 && i < n
    ensures 0.0 <= UnitCoordinate(i, n) <= 1.0
  {
    DivLess(0.0, i as real, (n - 1) as real);
    DivLess(i as real, (n - 1) as real, (n - 1) as real);
  }

  /** Dividing by a positive number keeps the order. */
  lemma DivLess(a: real, b: real, d: real)
    requires d > 0.0 && a <= b
    ensures a / d <= b / d
    ensures a < b ==> a / d < b / d
  {
    assert b / d - a / d == (b - a) / d;
  }

  /** The signed map runs from 1 at the first cell to -1 at the last,
      strictly decreasing. */
  lemma CoordinateRange(i: nat, j: nat, n: nat)
    requires n >= 2 && i < j < n
    ensures Coordinate(0, n) == 1.0 && Coordinate(n - 1, n) == -1.0
    ensures -1.0 <= Coordinate(j, n) < Coordinate(i, n) <= 1.0
  {
    UnitCoordinateRange(i, j, n);
  }

  function Abs(x: real): real
  {
    if x < 0.0 then -x else x
  }

  /** `diff <= cutoff ? 1 - diff/cutoff : 0` for a distance `diff`; the
      division is reached only when `cutoff >= diff >= 0`, so `cutoff` may be
      zero only where `diff` is positive. */
  function Falloff(diff: real, cutoff: real): real
    requires diff >= 0.0 && (diff > 0.0 || cutoff != 0.0)
  {
    if diff <= cutoff then 1.0 - diff / cutoff else 0.0
  }

  /** The falloff lies in [0, 1]; it is 1 exactly on the surface (diff 0)
      when the cutoff is positive, and positive exactly when diff < cutoff. */
  lemma FalloffRange(diff: real, cutoff: real)
    requires diff >= 0.0 && (diff > 0.0 || cutoff != 0.0)
    ensures 0.0 <= Falloff(diff, cutoff) <= 1.0
    ensures cutoff > 0.0 ==> (Falloff(diff, cutoff) == 1.0 <==> diff == 0.0)
    ensures Falloff(diff, cutoff) > 0.0 <==> diff < cutoff
  {
    if diff <= cutoff {
      assert cutoff > 0.0;
      assert 0.0 <= diff / cutoff <= 1.0;
      if diff < cutoff {
        assert diff / cutoff < 1.0;
      }
      if diff > 0.0 {
        assert diff / cutoff > 0.0;
      }
    }
  }

  /** Cell (i, j, k) of an implicit-surface frame: the falloff of
      `|f(x, y, z)|`. */
  function ImplicitCell(f: (real, real, real) -> real, cutoff: real, n: nat, i: nat, j: nat, k: nat): real
    requires n >= 2 && cutoff != 0.0
  {
    Falloff(Abs(f(Coordinate(i, n), Coordinate(j, n), Coordinate(k, n))), cutoff)
  }

  /** `makeImplicitSurfaceFrame(dim_size, cutoff, surface_func)` (named
      `makeQuadraticSurfaceFrame` in the older generators). */
  method MakeImplicitSurfaceFrame(n: nat, cutoff: real, f: (real, real, real) -> real) returns (frame: Frame3D<real>)
    requires n != 1 && cutoff != 0.0
    ensures fresh(frame.data) && frame.Valid()
    ensures frame.width == n && frame.height == n && frame.depth == n
    ensures forall i: nat, j: nat, k: nat :: i < n && j < n && k < n ==> frame.At(i, j, k) == ImplicitCell(f, cutoff, n, i, j, k)
  {
    frame := new Frame3D(n, n, n, 0.0);
    frame.FillWith((i: nat, j: nat, k: nat) => if n >= 2 then ImplicitCell(f, cutoff, n, i, j, k) else 0.0);
  }

  function Paraboloid(x: real, y: real, z: real): real { x * x + y * y - z }
  function Hyperboloid(x: real, y: real, z: real): real { 2.0 * x * x + 2.0 * y * y - 2.0 * z * z - 1.0 }
  function HyperbolicParaboloid(x: real, y: real, z: real): real { x * x - y * y - z }

  /** `torus(R, r)`: `(x²+y²+z²+R²-r²)² - 4R²(x²+y²)`. */
  function Torus(bigR: real, r: real, x: real, y: real, z: real): real
  {
    var t := x * x + y * y + z * z + bigR * bigR - r * r;
    t * t - 4.0 * bigR * bigR * (x * x + y * y)
  }

  method MakeParaboloidFrame(n: nat, cutoff: real) returns (frame: Frame3D<real>)
    requires n != 1 && cutoff != 0.0
    ensures fresh(frame.data) && frame.Valid()
    ensures frame.width == n && frame.height == n && frame.depth == n
    ensures forall i: nat, j: nat, k: nat :: i < n && j < n && k < n ==> frame.At(i, j, k) == ImplicitCell(Paraboloid, cutoff, n, i, j, k)
  {
    frame := MakeImplicitSurfaceFrame(n, cutoff, Paraboloid);
  }

  method MakeHyperboloidFrame(n: nat, cutoff: real) returns (frame: Frame3D<real>)
    requires n != 1 && cutoff != 0.0
    ensures fresh(frame.data) && frame.Valid()
    ensures frame.width == n && frame.height == n && frame.depth == n
    ensures forall i: nat, j: nat, k: nat :: i < n && j < n && k < n ==> frame.At(i, j, k) == ImplicitCell(Hyperboloid, cutoff, n, i, j, k)
  {
    frame := MakeImplicitSurfaceFrame(n, cutoff, Hyperboloid);
  }

  method MakeHyperbolicParaboloidFrame(n: nat, cutoff: real) returns (frame: Frame3D<real>)
    requires n != 1 && cutoff != 0.0
    ensures fresh(frame.data) && frame.Valid()
    ensures frame.width == n && frame.height == n && frame.depth == n
    ensures forall i: nat, j: nat, k: nat :: i < n && j < n && k < n ==> frame.At(i, j, k) == ImplicitCell(HyperbolicParaboloid, cutoff, n, i, j, k)
  {
    frame := MakeImplicitSurfaceFrame(n, cutoff, HyperbolicParaboloid);
  }

  method MakeTorusFrame(n: nat, cutoff: real, bigR: real, r: real) returns (frame: Frame3D<real>)
    requires n != 1 && cutoff != 0.0
    ensures fresh(frame.data) && frame.Valid()
    ensures frame.width == n && frame.height == n && frame.depth == n
    ensures forall i: nat, j: nat, k: nat :: i < n && j < n && k < n ==>
      frame.At(i, j, k) == ImplicitCell((x, y, z) => Torus(bigR, r, x, y, z), cutoff, n, i, j, k)
  {
    frame := MakeImplicitSurfaceFrame(n, cutoff, (x, y, z) => Torus(bigR, r, x, y, z));
  }

  /** Every implicit-surface cell lies in [0, 1], and equals 1 exactly on
      the surface when the cutoff is positive. */
  lemma ImplicitCellRange(f: (real, real, real) -> real, cutoff: real, n: nat, i: nat, j: nat, k: nat)
    requires n >= 2 && cutoff != 0.0
    ensures 0.0 <= ImplicitCell(f, cutoff, n, i, j, k) <= 1.0
    ensures cutoff > 0.0 ==>
      (ImplicitCell(f, cutoff, n, i, j, k) == 1.0 <==> f(Coordinate(i, n), Coordinate(j, n), Coordinate(k, n)) == 0.0)
  {
    FalloffRange(Abs(f(Coordinate(i, n), Coordinate(j, n), Coordinate(k, n))), cutoff);
  }

  /** For an odd size the middle cell sits at the origin, which lies on the
      paraboloid and the hyperbolic paraboloid but not on the hyperboloid. */
  lemma CentreCells(n: nat, cutoff: real)
    requires n >= 3 && n % 2 == 1 && cutoff > 0.0
    ensures var m := (n - 1) / 2;
      && ImplicitCell(Paraboloid, cutoff, n, m, m, m) == 1.0
      && ImplicitCell(HyperbolicParaboloid, cutoff, n, m, m, m) == 1.0
      && ImplicitCell(Hyperboloid, cutoff, n, m, m, m) == Falloff(1.0, cutoff)
  {
    var m := (n - 1) / 2;
    assert 2 * m == n - 1;
    assert Coordinate(m, n) == 0.0 by {
      assert 2.0 * m as real == (n - 1) as real;
    }
  }

  /** Cell (i, j, k) of an analytical-surface frame: the falloff of the
      height difference `|z - f(x, y)|`. */
  function AnalyticalCell(f: (real, real) -> real, cutoff: real, n: nat, i: nat, j: nat, k: nat): real
    requires n >= 2 && cutoff != 0.0
  {
    Falloff(Abs(Coordinate(k, n) - f(Coordinate(i, n), Coordinate(j, n))), cutoff)
  }

  /** `makeAnalyticalSurfaceFrame(dim_size, cutoff, surface_func)`. */
  method MakeAnalyticalSurfaceFrame(n: nat, cutoff: real, f: (real, real) -> real) returns (frame: Frame3D<real>)
    requires n != 1 && cutoff != 0.0
    ensures fresh(frame.data) && frame.Valid()
    ensures frame.width == n && frame.height == n && frame.depth == n
    ensures forall i: nat, j: nat, k: nat :: i < n && j < n && k < n ==> frame.At(i, j, k) == AnalyticalCell(f, cutoff, n, i, j, k)
  {
    frame := new Frame3D(n, n, n, 0.0);
    frame.FillWith((i: nat, j: nat, k: nat) => if n >= 2 then AnalyticalCell(f, cutoff, n, i, j, k) else 0.0);
  }

  /** An analytical-surface cell lies in [0, 1] and, for a positive cutoff,
      is 1 exactly where the cell's z equals the surface height. */
  lemma AnalyticalCellRange(f: (real, real) -> real, cutoff: real, n: nat, i: nat, j: nat, k: nat)
    requires n >= 2 && cutoff != 0.0
    ensures 0.0 <= AnalyticalCell(f, cutoff, n, i, j, k) <= 1.0
    ensures cutoff > 0.0 ==>
      (AnalyticalCell(f, cutoff, n, i, j, k) == 1.0 <==> Coordinate(k, n) == f(Coordinate(i, n), Coordinate(j, n)))
  {
    FalloffRange(Abs(Coordinate(k, n) - f(Coordinate(i, n), Coordinate(j, n))), cutoff);
  }

  /** `norm` is the Euclidean length (`std::sqrt(x*x + y*y + z*z)`). */
  ghost predicate IsNorm(norm: (real, real, real) -> real)
  {
    forall x, y, z :: norm(x, y, z) >= 0.0 && norm(x, y, z) * norm(x, y, z) == x * x + y * y + z * z
  }

  /** Cell (i, j, k) of the sector frame: the length of the cell's
      [0, 1]-coordinates over sqrt(3), the length of (1, 1, 1). */
  function SectorCell(norm: (real, real, real) -> real, n: nat, i: nat, j: nat, k: nat): real
    requires n >= 2 && norm(1.0, 1.0, 1.0) != 0.0
  {
    norm(UnitCoordinate(i, n), UnitCoordinate(j, n), UnitCoordinate(k, n)) / norm(1.0, 1.0, 1.0)
  }

  /** `makeSectorFrame(dim_size)`. */
  method MakeSectorFrame(n: nat, norm: (real, real, real) -> real) returns (frame: Frame3D<real>)
    requires n != 1 && norm(1.0, 1.0, 1.0) != 0.0
    ensures fresh(frame.data) && frame.Valid()
    ensures frame.width == n && frame.height == n && frame.depth == n
    ensures forall i: nat, j: nat, k: nat :: i < n && j < n && k < n ==> frame.At(i, j, k) == SectorCell(norm, n, i, j, k)
  {
    frame := new Frame3D(n, n, n, 0.0);
    frame.FillWith((i: nat, j: nat, k: nat) => if n >= 2 then SectorCell(norm, n, i, j, k) else 0.0);
  }

  /** Of two non-negative numbers the one with the larger square is larger. */
  lemma SquareOrder(a: real, b: real)
    requires a >= 0.0 && b >= 0.0 && a * a <= b * b
    ensures a <= b
  {
    if a > b {
      MulPositive(a - b, a + b);
    }
  }

  lemma MulPositive(x: real, y: real)
    requires x > 0.0 && y > 0.0
    ensures x * y > 0.0
  {
  }

  /** A coordinate in [0, 1] has its square in [0, 1]. */
  lemma UnitSquare(x: real)
    requires 0.0 <= x <= 1.0
    ensures 0.0 <= x * x <= 1.0
  {
    assert x * x <= x * 1.0;
  }

  /** Sector values stay within [0, 1] ... */
  lemma SectorCellRange(norm: (real, real, real) -> real, n: nat, i: nat, j: nat, k: nat)
    requires IsNorm(norm) && n >= 2 && i < n && j < n && k < n
    ensures norm(1.0, 1.0, 1.0) > 0.0
    ensures 0.0 <= SectorCell(norm, n, i, j, k) <= 1.0
  {
    var one := NormOfOnes(norm);
    var x, y, z := UnitCoordinate(i, n), UnitCoordinate(j, n), UnitCoordinate(k, n);
    UnitCoordinateBounds(i, n);
    UnitCoordinateBounds(j, n);
    UnitCoordinateBounds(k, n);
    UnitSquare(x);
    UnitSquare(y);
    UnitSquare(z);
    var d := norm(x, y, z);
    assert d >= 0.0 && d * d <= one * one;
    SquareOrder(d, one);
    DivLess(0.0, d, one);
    DivLess(d, one, one);
  }

  /** ... running from 0 at the first corner to 1 at the opposite one. */
  lemma SectorCorners(norm: (real, real, real) -> real, n: nat)
    requires IsNorm(norm) && n >= 2
    ensures norm(1.0, 1.0, 1.0) > 0.0
    ensures SectorCell(norm, n, 0, 0, 0) == 0.0 && SectorCell(norm, n, n - 1, n - 1, n - 1) == 1.0
  {
    var one := NormOfOnes(norm);
    UnitCoordinateRange(0, n - 1, n);
    var zero := norm(0.0, 0.0, 0.0);
    assert zero * zero == 0.0;
  }

  /** The length of (1, 1, 1) is positive, with square 3. */
  lemma NormOfOnes(norm: (real, real, real) -> real) returns (one: real)
    requires IsNorm(norm)
    ensures one == norm(1.0, 1.0, 1.0) && one > 0.0 && one * one == 3.0
  {
    one := norm(1.0, 1.0, 1.0);
    assert one * one == 3.0;
  }

  /** Cell (i, j, k) of the sphere frame: 0 below the z = 0 plane, otherwise
      `1 - dist` inside the unit ball and 0 outside. */
  function SphereCell(norm: (real, real, real) -> real, n: nat, i: nat, j: nat, k: nat): real
    requires n >= 2
  {
    var x, y, z := Coordinate(i, n), Coordinate(j, n), Coordinate(k, n);
    if z < 0.0 then 0.0
    else
      var dist := norm(x, y, z);
      if dist <= 1.0 then 1.0 - dist else 0.0
  }

  /** `makeSphereFrame(dim_size)`. */
  method MakeSphereFrame(n: nat, norm: (real, real, real) -> real) returns (frame: Frame3D<real>)
    requires n != 1
    ensures fresh(frame.data) && frame.Valid()
    ensures frame.width == n && frame.height == n && frame.depth == n
    ensures forall i: nat, j: nat, k: nat :: i < n && j < n && k < n ==> frame.At(i, j, k) == SphereCell(norm, n, i, j, k)
  {
    frame := new Frame3D(n, n, n, 0.0);
    frame.FillWith((i: nat, j: nat, k: nat) => if n >= 2 then SphereCell(norm, n, i, j, k) else 0.0);
  }

  /** The sphere frame is the upper half of a unit ball: zero for every
      cell with z < 0, and in [0, 1] everywhere, positive exactly inside
      the open ball. */
  lemma SphereCellRange(norm: (real, real, real) -> real, n: nat, i: nat, j: nat, k: nat)
    requires IsNorm(norm) && n >= 2
    ensures Coordinate(k, n) < 0.0 ==> SphereCell(norm, n, i, j, k) == 0.0
    ensures 0.0 <= SphereCell(norm, n, i, j, k) <= 1.0
    ensures SphereCell(norm, n, i, j, k) > 0.0 <==>
      var x, y, z := Coordinate(i, n), Coordinate(j, n), Coordinate(k, n);
      z >= 0.0 && x * x + y * y + z * z < 1.0
  {
    var x, y, z := Coordinate(i, n), Coordinate(j, n), Coordinate(k, n);
    var d := norm(x, y, z);
    assert d * d == x * x + y * y + z * z;
    if d < 1.0 {
      assert d * d < 1.0 by {
        assert d * d <= d * 1.0;
      }
    } else {
      assert d * d >= 1.0 by {
        assert d * d >= d * 1.0;
      }
    }
  }

  /** A bubble: its centre and radius. */
  datatype BubbleSpec = BubbleSpec(pos: Vec3, rad: real)

  /** `dist` is a distance: never negative (`distanceToPoint`). */
  ghost predicate IsDistance(dist: (Vec3, Vec3) -> real)
  {
    forall p, q :: dist(p, q) >= 0.0
  }

  predicate PositiveRadii(bubbles: seq<BubbleSpec>)
  {
    forall b :: b in bubbles ==> b.rad > 0.0
  }

  /** The summed contributions `1 - dist/rad` of the bubbles that contain
      the point. */
  function BubbleSum(bubbles: seq<BubbleSpec>, point: Vec3, dist: (Vec3, Vec3) -> real): real
    requires IsDistance(dist) && PositiveRadii(bubbles)
  {
    if bubbles == [] then 0.0
    else
      var b := bubbles[|bubbles| - 1];
      BubbleSum(bubbles[..|bubbles| - 1], point, dist) + Falloff(dist(b.pos, point), b.rad)
  }

  lemma {:induction false} BubbleSumNonNegative(bubbles: seq<BubbleSpec>, point: Vec3, dist: (Vec3, Vec3) -> real)
    requires IsDistance(dist) && PositiveRadii(bubbles)
    ensures BubbleSum(bubbles, point, dist) >= 0.0
  {
    if bubbles != [] {
      var b := bubbles[|bubbles| - 1];
      BubbleSumNonNegative(bubbles[..|bubbles| - 1], point, dist);
      FalloffRange(dist(b.pos, point), b.rad);
    }
  }

  function RealMin(a: real, b: real): real
  {
    if a <= b then a else b
  }

  /** The per-cell loop of `makeBubblesFrame`: the contributions summed and
      clamped to 1, so every cell lies in [0, 1]. */
  method BubbleValue(bubbles: seq<BubbleSpec>, point: Vec3, dist: (Vec3, Vec3) -> real) returns (value: real)
    requires IsDistance(dist) && PositiveRadii(bubbles)
    ensures value == RealMin(BubbleSum(bubbles, point, dist), 1.0)
    ensures 0.0 <= value <= 1.0
  {
    var sum := 0.0;
    var i := 0;
    while i < |bubbles|
      invariant 0 <= i <= |bubbles|
      invariant sum == BubbleSum(bubbles[..i], point, dist)
    {
      var b := bubbles[i];
      var d := dist(b.pos, point);
      assert bubbles[..i + 1][..i] == bubbles[..i];
      if d <= b.rad {
        sum := sum + (1.0 - d / b.rad);
      }
      i := i + 1;
    }
    assert bubbles[..i] == bubbles;
    BubbleSumNonNegative(bubbles, point, dist);
    value := RealMin(sum, 1.0);
  }

  /** Cell (i, j, k) of the bubbles frame, at the point of [0, 1]³ the
      cell maps to. */
  function BubbleCell(bubbles: seq<BubbleSpec>, dist: (Vec3, Vec3) -> real, n: nat, i: nat, j: nat, k: nat): real
    requires n >= 2 && IsDistance(dist) && PositiveRadii(bubbles)
  {
    RealMin(BubbleSum(bubbles, Vec3(UnitCoordinate(i, n), UnitCoordinate(j, n), UnitCoordinate(k, n)), dist), 1.0)
  }

  /** `makeBubblesFrame(dim_size, ...)` with the bubbles drawn by the caller. */
  method MakeBubblesFrame(n: nat, bubbles: seq<BubbleSpec>, dist: (Vec3, Vec3) -> real) returns (frame: Frame3D<real>)
    requires n != 1 && IsDistance(dist) && PositiveRadii(bubbles)
    ensures fresh(frame.data) && frame.Valid()
    ensures frame.width == n && frame.height == n && frame.depth == n
    ensures forall i: nat, j: nat, k: nat :: i < n && j < n && k < n ==> frame.At(i, j, k) == BubbleCell(bubbles, dist, n, i, j, k)
  {
    frame := new Frame3D(n, n, n, 0.0);
    frame.FillWith((i: nat, j: nat, k: nat) => if n >= 2 then BubbleCell(bubbles, dist, n, i, j, k) else 0.0);
  }

  /** Every bubbles cell lies in [0, 1]. */
  lemma BubbleCellRange(bubbles: seq<BubbleSpec>, dist: (Vec3, Vec3) -> real, n: nat, i: nat, j: nat, k: nat)
    requires n >= 2 && IsDistance(dist) && PositiveRadii(bubbles)
    ensures 0.0 <= BubbleCell(bubbles, dist, n, i, j, k) <= 1.0
  {
    BubbleSumNonNegative(bubbles, Vec3(UnitCoordinate(i, n), UnitCoordinate(j, n), UnitCoordinate(k, n)), dist);
  }

  /** `makeRandomFrame(dim_size)`: the `draws` of the uniform distribution
      on [0, 1), in the order `fill` asks for them, become the cells. */
  method MakeRandomFrame(n: nat, draws: seq<real>) returns (frame: Frame3D<real>)
    requires |draws| == n * n * n
    ensures fresh(frame.data) && frame.Valid()
    ensures frame.width == n && frame.height == n && frame.depth == n
    ensures frame.data[..] == draws
  {
    frame := new Frame3D(n, n, n, 0.0);
    frame.Fill(draws);
  }
}
