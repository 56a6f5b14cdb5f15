/** The triangle meshes: the hemisphere built ring by ring, and the
    constant cube and plane tables. Vertex positions of the hemisphere
    come from sines and cosines and are represented by the ring and segment
    they are computed from. */
module Meshes {
  import opened Palettes
  import opened Grid
  import opened Common

  /** A point in space (`QVector3D`). */
  datatype Vec3 = Vec3(x: real, y: real, z: real)

  // ------------------------------------------------------------ hemisphere

  /** A hemisphere vertex: the pole, or the point of segment `segment` on
      ring `ring` (ring 1 is nearest the pole). */
  datatype HemiVertex = Pole | RingPoint(ring: nat, segment: nat)

  /** The vertices of ring `r`, segment by segment. */
  function RingPoints(r: nat, n: nat): (v: seq<HemiVertex>)
    ensures |v| == n && forall i :: 0 <= i < n ==> v[i] == RingPoint(r, i)
  {
    if n == 0 then [] else RingPoints(r, n - 1) + [RingPoint(r, n - 1)]
  }

  /** Rings 2..r, in order. */
  function OuterRings(s: nat, r: nat): (v: seq<HemiVertex>)
    ensures r >= 1 ==> |v| == s * (r - 1)
  {
    if r <= 1 then [] else OuterRings(s, r - 1) + RingPoints(r, s)
  }

  /** The vertex list: the pole, the first ring (always built), then the
      other rings. */
  function HemiVertices(s: nat, rings: nat): seq<HemiVertex>
  {
    [Pole] + RingPoints(1, s) + OuterRings(s, rings)
  }

  /** Where ring r >= 1 starts in the vertex list. */
  function RingBase(s: nat, r: nat): nat
    requires r >= 1
  {
    1 + s * (r - 1)
  }

  /** Triangle i of the fan around the pole. */
  function FanTriangle(s: nat, i: nat): seq<nat>
    requires i < s
  {
    [i + 1, (i + 1) % s + 1, 0]
  }

  /** The first `n` fan triangles. */
  function Fan(s: nat, n: nat): (ix: seq<nat>)
    requires n <= s
    ensures |ix| == 3 * n
  {
    if n == 0 then [] else Fan(s, n - 1) + FanTriangle(s, n - 1)
  }

  /** The two triangles joining segment i of a ring to the previous ring,
      which starts at `prevBase`. */
  function RingQuad(s: nat, prevBase: nat, i: nat): seq<nat>
    requires i < s
  {
    var ind, next := prevBase + s + i, prevBase + s + (i + 1) % s;
    [ind, next, prevBase + i, next, prevBase + (i + 1) % s, prevBase + i]
  }

  /** The first `n` quads of the ring after the one at `prevBase`. */
  function RingQuads(s: nat, prevBase: nat, n: nat): (ix: seq<nat>)
    requires n <= s
    ensures |ix| == 6 * n
  {
    if n == 0 then [] else RingQuads(s, prevBase, n - 1) + RingQuad(s, prevBase, n - 1)
  }

  /** The quads of rings 2..r. */
  function OuterQuads(s: nat, r: nat): (ix: seq<nat>)
    ensures r >= 1 ==> |ix| == 6 * s * (r - 1)
  {
    if r <= 1 then [] else OuterQuads(s, r - 1) + RingQuads(s, RingBase(s, r - 1), s)
  }

  function HemiIndices(s: nat, rings: nat): seq<nat>
  {
    Fan(s, s) + OuterQuads(s, rings)
  }

  /** `HemiSphere(radius, num_of_segments, num_of_rings)`: the vertex and
      index lists the constructor builds and hands to its buffers. */
  method HemiSphere(segments: nat, rings: nat) returns (vertices: seq<HemiVertex>, indices: seq<nat>)
    ensures vertices == HemiVertices(segments, rings)
    ensures indices == HemiIndices(segments, rings)
  {
    var s := segments;
    vertices := AddRing([Pole], s, 1);
    indices := AddFan(s);
    var r := 2;
    while r <= rings
      invariant 2 <= r && (r <= rings + 1 || r == 2)
      invariant vertices == HemiVertices(s, r - 1) && indices == HemiIndices(s, r - 1)
    {
      vertices, indices := AddOuterRing(vertices, indices, s, r);
      r := r + 1;
    }
  }

  /** One pass of the outer loop: ring r's vertices, then the quads joining
      it to ring r - 1. */
  method AddOuterRing(vertices: seq<HemiVertex>, indices: seq<nat>, s: nat, r: nat)
    returns (vertices': seq<HemiVertex>, indices': seq<nat>)
    requires r >= 2
    requires vertices == HemiVertices(s, r - 1) && indices == HemiIndices(s, r - 1)
    ensures vertices' == HemiVertices(s, r) && indices' == HemiIndices(s, r)
  {
    var prevSize := |vertices|;
    PrefixLength(s, r - 1);
    assert prevSize - s == RingBase(s, r - 1);
    vertices' := AddRing(vertices, s, r);
    indices' := AddRingQuads(indices, s, prevSize);
    NextRing(s, r);
  }

  /** The vertex list built up to ring q ends where ring q + 1 will start. */
  lemma PrefixLength(s: nat, q: nat)
    requires q >= 1
    ensures |HemiVertices(s, q)| == RingBase(s, q) + s
  {
  }

  /** One more ring of vertices and quads. */
  lemma NextRing(s: nat, r: nat)
    requires r >= 2
    ensures HemiVertices(s, r) == HemiVertices(s, r - 1) + RingPoints(r, s)
    ensures HemiIndices(s, r) == HemiIndices(s, r - 1) + RingQuads(s, RingBase(s, r - 1), s)
  {
  }

  /** The fan around the pole, triangle by triangle. */
  method AddFan(s: nat) returns (ix: seq<nat>)
    ensures ix == Fan(s, s)
  {
    ix := [];
    var i := 0;
    while i < s
      invariant 0 <= i <= s && ix == Fan(s, i)
    {
      ix := ix + [i + 1, (i + 1) % s + 1, 0];
      i := i + 1;
    }
  }

  /** The vertices of ring r appended, segment by segment. */
  method AddRing(vertices: seq<HemiVertex>, s: nat, r: nat) returns (v: seq<HemiVertex>)
    ensures v == vertices + RingPoints(r, s)
  {
    v := vertices;
    var i := 0;
    while i < s
      invariant 0 <= i <= s && v == vertices + RingPoints(r, i)
    {
      v := v + [RingPoint(r, i)];
      i := i + 1;
    }
  }

  /** The triangles joining the ring that starts at `prevSize` to the ring
      before it, computed as `ind - num_of_segments` from the new ring. */
  method AddRingQuads(indices: seq<nat>, s: nat, prevSize: nat) returns (ix: seq<nat>)
    requires prevSize >= s
    ensures ix == indices + RingQuads(s, prevSize - s, s)
  {
    ix := indices;
    var i := 0;
    while i < s
      invariant 0 <= i <= s && ix == indices + RingQuads(s, prevSize - s, i)
    {
      var ind := prevSize + i;
      var indNext := prevSize + (i + 1) % s;
      var indPrev := ind - s;
      var indPrevNext := indNext - s;
      ix := ix + [ind, indNext, indPrev, indNext, indPrevNext, indPrev];
      i := i + 1;
    }
  }

  /** Vertex and index counts: 1 + segments*rings vertices and
      3*segments + 6*segments*(rings - 1) indices. */
  lemma HemiCounts(s: nat, rings: nat)
    requires rings >= 1
    ensures |HemiVertices(s, rings)| == 1 + s * rings
    ensures |HemiIndices(s, rings)| == 3 * s + 6 * s * (rings - 1)
  {
    assert s + s * (rings - 1) == s * rings;
  }

  /** Ring r occupies the block [1 + s*(r-1), 1 + s*r) of the vertex list,
      in segment order. */
  lemma RingBlock(s: nat, rings: nat, r: nat, i: nat)
    requires 1 <= r && (r <= rings || r == 1) && i < s
    ensures RingBase(s, r) + i < |HemiVertices(s, rings)|
    ensures HemiVertices(s, rings)[RingBase(s, r) + i] == RingPoint(r, i)
  {
    if r == 1 {
      assert HemiVertices(s, rings)[1 + i] == RingPoints(1, s)[i];
    } else {
      OuterRingsBlock(s, rings, r, i);
      assert HemiVertices(s, rings)[RingBase(s, r) + i] == OuterRings(s, rings)[s * (r - 2) + i];
    }
  }

  lemma {:induction false} OuterRingsBlock(s: nat, q: nat, r: nat, i: nat)
    requires 2 <= r <= q && i < s
    ensures s * (r - 2) + i < |OuterRings(s, q)|
    ensures OuterRings(s, q)[s * (r - 2) + i] == RingPoint(r, i)
  {
    MulLe(s, r - 1, q - 1);
    if r < q {
      OuterRingsBlock(s, q - 1, r, i);
      assert OuterRings(s, q) == OuterRings(s, q - 1) + RingPoints(q, s);
    } else {
      assert |OuterRings(s, q - 1)| == s * (r - 2);
    }
  }

  /** Fan triangle i runs from segment i to the next segment, wrapping
      round, and ends at the pole. */
  lemma {:induction false} FanTriangles(s: nat, n: nat, i: nat)
    requires i < n <= s
    ensures Fan(s, n)[3 * i] == i + 1
    ensures Fan(s, n)[3 * i + 1] == (i + 1) % s + 1
    ensures Fan(s, n)[3 * i + 2] == 0
  {
    if i < n - 1 {
      FanTriangles(s, n - 1, i);
    }
  }

  /** Every index names a vertex that exists. */
  lemma HemiIndicesInRange(s: nat, rings: nat)
    ensures forall k :: 0 <= k < |HemiIndices(s, rings)| ==> HemiIndices(s, rings)[k] < |HemiVertices(s, rings)|
  {
    var q := if rings >= 1 then rings else 1;
    var n := 1 + s * q;
    assert |HemiVertices(s, rings)| == n by {
      assert s + s * (q - 1) == s * q;
    }
    FanBelow(s, s, n);
    OuterQuadsBelow(s, rings, n);
    var ix := HemiIndices(s, rings);
    forall k | 0 <= k < |ix|
      ensures ix[k] < n
    {
      if k >= 3 * s {
        assert ix[k] == OuterQuads(s, rings)[k - 3 * s];
      } else {
        assert ix[k] == Fan(s, s)[k];
      }
    }
  }

  lemma {:induction false} FanBelow(s: nat, m: nat, bound: nat)
    requires m <= s && bound >= s + 1
    ensures forall k :: 0 <= k < |Fan(s, m)| ==> Fan(s, m)[k] < bound
  {
    if m > 0 {
      FanBelow(s, m - 1, bound);
      var prev, t := Fan(s, m - 1), FanTriangle(s, m - 1);
      forall k | 0 <= k < |prev + t|
        ensures (prev + t)[k] < bound
      {
        if k >= |prev| {
          assert (prev + t)[k] == t[k - |prev|];
        }
      }
    }
  }

  /** The quads of the ring after `prevBase` stay below the end of that ring. */
  lemma {:induction false} RingQuadsBelow(s: nat, prevBase: nat, m: nat, bound: nat)
    requires m <= s && bound >= prevBase + 2 * s
    ensures forall k :: 0 <= k < |RingQuads(s, prevBase, m)| ==> RingQuads(s, prevBase, m)[k] < bound
  {
    if m > 0 {
      RingQuadsBelow(s, prevBase, m - 1, bound);
      var prev, t := RingQuads(s, prevBase, m - 1), RingQuad(s, prevBase, m - 1);
      forall k | 0 <= k < |prev + t|
        ensures (prev + t)[k] < bound
      {
        if k >= |prev| {
          assert (prev + t)[k] == t[k - |prev|];
        }
      }
    }
  }

  lemma {:induction false} OuterQuadsBelow(s: nat, r: nat, bound: nat)
    requires r >= 1 ==> bound >= 1 + s * r
    requires bound >= 1
    ensures forall k :: 0 <= k < |OuterQuads(s, r)| ==> OuterQuads(s, r)[k] < bound
  {
    if r > 1 {
      MulLe(s, r - 1, r);
      OuterQuadsBelow(s, r - 1, bound);
      var pb := RingBase(s, r - 1);
      assert pb + 2 * s == 1 + s * r by {
        assert s * (r - 2) + 2 * s == s * r;
      }
      RingQuadsBelow(s, pb, s, bound);
      var prev, t := OuterQuads(s, r - 1), RingQuads(s, pb, s);
      forall k | 0 <= k < |prev + t|
        ensures (prev + t)[k] < bound
      {
        if k >= |prev| {
          assert (prev + t)[k] == t[k - |prev|];
        }
      }
    }
  }

  // ------------------------------------------------------------ cube

  function CubeVertices(): (v: seq<Vec3>)
    ensures |v| == 8
  {
    [Vec3(-1.0, -1.0, -1.0), Vec3(1.0, -1.0, -1.0), Vec3(1.0, 1.0, -1.0), Vec3(-1.0, 1.0, -1.0),
     Vec3(-1.0, -1.0, 1.0), Vec3(1.0, -1.0, 1.0), Vec3(1.0, 1.0, 1.0), Vec3(-1.0, 1.0, 1.0)]
  }

  function CubeTexCoords(): (t: seq<Vec3>)
    ensures |t| == 8
  {
    [Vec3(0.0, 0.0, 0.0), Vec3(1.0, 0.0, 0.0), Vec3(1.0, 1.0, 0.0), Vec3(0.0, 1.0, 0.0),
     Vec3(0.0, 0.0, 1.0), Vec3(1.0, 0.0, 1.0), Vec3(1.0, 1.0, 1.0), Vec3(0.0, 1.0, 1.0)]
  }

  function CubeColors(): (c: seq<Color>)
    ensures |c| == 8 && forall i :: 0 <= i < 8 ==> Binary(c[i])
  {
    [Color(1.0, 0.0, 0.0), Color(0.0, 1.0, 0.0), Color(0.0, 0.0, 1.0), Color(1.0, 1.0, 1.0),
     Color(1.0, 1.0, 0.0), Color(0.0, 1.0, 1.0), Color(1.0, 0.0, 1.0), Color(0.0, 0.0, 0.0)]
  }

  /** Two triangles per face: front, right, back, left, bottom, top. */
  function CubeIndices(): (ix: seq<nat>)
    ensures |ix| == 36
  {
    [0, 1, 2, 2, 3, 0,
     1, 5, 6, 6, 2, 1,
     7, 6, 5, 5, 4, 7,
     4, 0, 3, 3, 7, 4,
     4, 5, 1, 1, 0, 4,
     3, 2, 6, 6, 7, 3]
  }

  /** The texture coordinate of each vertex is (v + 1)/2 componentwise, so
      the cube [-1, 1]^3 is mapped onto the texture cube [0, 1]^3. */
  lemma CubeTexCoordsFollowVertices(v: nat)
    requires v < 8
    ensures var p, t := CubeVertices()[v], CubeTexCoords()[v];
      t == Vec3((p.x + 1.0) / 2.0, (p.y + 1.0) / 2.0, (p.z + 1.0) / 2.0)
  {
  }

  /** Coordinate `axis` (0, 1, 2 for x, y, z) of a point. */
  function Coord(p: Vec3, axis: nat): real
  {
    if axis == 0 then p.x else if axis == 1 then p.y else p.z
  }

  /** The axis and the side of each face, in index-list order. */
  function FaceAxis(f: nat): nat
  {
    if f == 1 || f == 3 then 0 else if f == 4 || f == 5 then 1 else 2
  }

  function FaceSide(f: nat): real
  {
    if f == 1 || f == 2 || f == 5 then 1.0 else -1.0
  }

  /** Every cube index names one of the 8 vertices, and every vertex is
      used. */
  lemma CubeIndicesCoverVertices()
    ensures forall k :: 0 <= k < 36 ==> CubeIndices()[k] < 8
    ensures (set k | 0 <= k < 36 :: CubeIndices()[k]) == {0, 1, 2, 3, 4, 5, 6, 7}
  {
    CubeIndicesInRange();
    CubeVerticesAllIndexed();
  }

  lemma CubeIndicesInRange()
    ensures forall k :: 0 <= k < 36 ==> CubeIndices()[k] < 8
    ensures (set k | 0 <= k < 36 :: CubeIndices()[k]) <= {0, 1, 2, 3, 4, 5, 6, 7}
  {
    var ix := CubeIndices();
    assert forall k :: 0 <= k < 36 ==> ix[k] in {0, 1, 2, 3, 4, 5, 6, 7};
  }

  lemma CubeVerticesAllIndexed()
    ensures {0, 1, 2, 3, 4, 5, 6, 7} <= (set k | 0 <= k < 36 :: CubeIndices()[k])
  {
    var ix := CubeIndices();
    assert ix[0] == 0 && ix[1] == 1 && ix[2] == 2 && ix[4] == 3;
    assert ix[7] == 5 && ix[8] == 6 && ix[12] == 7 && ix[16] == 4;
  }

  /** The vertices a face's six indices name. */
  function FaceIndices(f: nat): set<nat>
    requires f < 6
  {
    set k | 6 * f <= k < 6 * f + 6 :: CubeIndices()[k]
  }

  /** The vertices lying on face f. */
  function OnFace(f: nat): set<nat>
  {
    set v | 0 <= v < 8 && Coord(CubeVertices()[v], FaceAxis(f)) == FaceSide(f)
  }

  /** Each face's two triangles cover exactly the four vertices that share
      that face's coordinate. */
  lemma CubeFaces(f: nat)
    requires f < 6
    ensures FaceIndices(f) == OnFace(f)
  {
    if f == 0 { FrontFace(); }
    else if f == 1 { RightFace(); }
    else if f == 2 { BackFace(); }
    else if f == 3 { LeftFace(); }
    else if f == 4 { BottomFace(); }
    else { TopFace(); }
  }

  lemma FrontFace() ensures FaceIndices(0) == OnFace(0)
  {
    TwoTrianglesCover(CubeIndices(), 0);
    OnFaceIs(0, 0, 1, 2, 3);
  }

  lemma RightFace() ensures FaceIndices(1) == OnFace(1)
  {
    TwoTrianglesCover(CubeIndices(), 6);
    OnFaceIs(1, 1, 5, 6, 2);
  }

  lemma BackFace() ensures FaceIndices(2) == OnFace(2)
  {
    TwoTrianglesCover(CubeIndices(), 12);
    OnFaceIs(2, 7, 6, 5, 4);
  }

  lemma LeftFace() ensures FaceIndices(3) == OnFace(3)
  {
    TwoTrianglesCover(CubeIndices(), 18);
    OnFaceIs(3, 4, 0, 3, 7);
  }

  lemma BottomFace() ensures FaceIndices(4) == OnFace(4)
  {
    TwoTrianglesCover(CubeIndices(), 24);
    OnFaceIs(4, 4, 5, 1, 0);
  }

  lemma TopFace() ensures FaceIndices(5) == OnFace(5)
  {
    TwoTrianglesCover(CubeIndices(), 30);
    OnFaceIs(5, 3, 2, 6, 7);
  }

  /** Two triangles (a, b, c) and (c, d, a) stored from `base` on use the
      four corners a, b, c and d. */
  lemma TwoTrianglesCover(ix: seq<nat>, base: nat)
    requires base + 6 <= |ix|
    requires ix[base + 3] == ix[base + 2] && ix[base + 5] == ix[base]
    ensures (set k | base <= k < base + 6 :: ix[k]) == {ix[base], ix[base + 1], ix[base + 2], ix[base + 4]}
  {
    var corners := {ix[base], ix[base + 1], ix[base + 2], ix[base + 4]};
    forall k | base <= k < base + 6
      ensures ix[k] in corners
    {
      assert k == base || k == base + 1 || k == base + 2 || k == base + 3 || k == base + 4 || k == base + 5;
    }
  }

  predicate OnFaceAt(f: nat, v: nat)
    requires v < 8
  {
    Coord(CubeVertices()[v], FaceAxis(f)) == FaceSide(f)
  }

  /** `corners` holds exactly the vertices on face f, checked vertex by
      vertex. */
  predicate ExactlyOnFace(f: nat, corners: set<nat>)
  {
    && (0 in corners <==> OnFaceAt(f, 0)) && (1 in corners <==> OnFaceAt(f, 1))
    && (2 in corners <==> OnFaceAt(f, 2)) && (3 in corners <==> OnFaceAt(f, 3))
    && (4 in corners <==> OnFaceAt(f, 4)) && (5 in corners <==> OnFaceAt(f, 5))
    && (6 in corners <==> OnFaceAt(f, 6)) && (7 in corners <==> OnFaceAt(f, 7))
  }

  lemma OnFaceIs(f: nat, a: nat, b: nat, c: nat, d: nat)
    requires a < 8 && b < 8 && c < 8 && d < 8
    requires ExactlyOnFace(f, {a, b, c, d})
    ensures OnFace(f) == {a, b, c, d}
  {
    var corners := {a, b, c, d};
    forall v: nat | v < 8
      ensures v in OnFace(f) <==> v in corners
    {
      assert v == 0 || v == 1 || v == 2 || v == 3 || v == 4 || v == 5 || v == 6 || v == 7;
    }
  }

  // ------------------------------------------------------------ plane

  function PlaneVertices(): (v: seq<Vec3>)
    ensures |v| == 4 && forall i :: 0 <= i < 4 ==> v[i].z == 0.0
  {
    [Vec3(-1.0, -1.0, 0.0), Vec3(1.0, -1.0, 0.0), Vec3(1.0, 1.0, 0.0), Vec3(-1.0, 1.0, 0.0)]
  }

  function PlaneIndices(): (ix: seq<nat>)
    ensures |ix| == 6 && forall k :: 0 <= k < 6 ==> ix[k] < 4
  {
    [0, 1, 2, 2, 3, 0]
  }

  /** The plane's corners are (±1, ±1, 0); its two triangles share the
      diagonal 0–2 and together use all four corners. */
  lemma PlaneTriangles()
    ensures forall i :: 0 <= i < 4 ==>
      var p := PlaneVertices()[i]; (p.x == 1.0 || p.x == -1.0) && (p.y == 1.0 || p.y == -1.0)
    ensures 0 in PlaneIndices()[..3] && 2 in PlaneIndices()[..3]
    ensures 0 in PlaneIndices()[3..] && 2 in PlaneIndices()[3..]
    ensures (set k | 0 <= k < 6 :: PlaneIndices()[k]) == {0, 1, 2, 3}
  {
    var ix := PlaneIndices();
    assert ix[..3] == [0, 1, 2] && ix[3..] == [2, 3, 0];
    assert ix[0] == 0 && ix[1] == 1 && ix[2] == 2 && ix[4] == 3;
  }
}
