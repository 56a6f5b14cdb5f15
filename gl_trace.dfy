/** OpenGL calls seen as an ordered trace of events, and the part of the
    fixed-function state (capabilities, blending, culling) that the
    renderers' `doInit` sets. */
module GlTrace {

  /** A texture object with its three dimensions. */
  datatype Texture = Texture(id: nat, width: nat, height: nat, depth: nat)

  datatype Cap = DepthTest | CullFace | Blend
  datatype BlendFactor = One | Zero | SrcAlpha | OneMinusSrcAlpha
  datatype Face = Front | Back
  datatype Winding = Cw | Ccw

  /** One call on the GL context or on the bound shader program. Matrix and
      vector uniforms are recorded by name only. */
  datatype GlEvent =
    | Enable(cap: Cap)
    | Disable(cap: Cap)
    | BlendFunc(src: BlendFactor, dst: BlendFactor)
    | CullFaceMode(face: Face)
    | FrontFaceMode(winding: Winding)
    | BindProgram
    | ReleaseProgram
    | RealUniform(name: string, r: real)
    | IntUniform(name: string, i: int)
    | BoolUniform(name: string, b: bool)
    | MatrixUniform(name: string)
    | VectorUniform(name: string)
    | ActiveTexture(unit: nat)
    | BindTexture(tex: Texture)
    | ReleaseTexture(tex: Texture)
    | DrawPlane(z: real)
    | DrawCube

  /** The GL context: everything issued on it so far, in order. */
  class GlContext {
    var events: seq<GlEvent>

    constructor ()
      ensures events == []
    {
      events := [];
    }

    method Emit(e: GlEvent)
      modifies this
      ensures events == old(events) + [e]
    {
      events := events + [e];
    }
  }

  /** Capability, blending and culling state. */
  datatype GlState = GlState(depthTest: bool, cullFace: bool, blend: bool,
                             blendSrc: BlendFactor, blendDst: BlendFactor,
                             cullMode: Face, frontFace: Winding)

  /** The state of a fresh context: everything disabled, blending (ONE, ZERO),
      back faces culled when culling is on, counter-clockwise front faces. */
  const InitialGlState := GlState(false, false, false, One, Zero, Back, Ccw)

  /** The effect of one event on the state. */
  function Step(g: GlState, e: GlEvent): GlState
  {
    match e
    case Enable(c) =>
      if c == DepthTest then g.(depthTest := true)
      else if c == CullFace then g.(cullFace := true)
      else g.(blend := true)
    case Disable(c) =>
      if c == DepthTest then g.(depthTest := false)
      else if c == CullFace then g.(cullFace := false)
      else g.(blend := false)
    case BlendFunc(s, d) => g.(blendSrc := s, blendDst := d)
    case CullFaceMode(f) => g.(cullMode := f)
    case FrontFaceMode(w) => g.(frontFace := w)
    case _ => g
  }

  /** The state after replaying `events` from `g`. */
  function Replay(g: GlState, events: seq<GlEvent>): GlState
    decreases |events|
  {
    if events == [] then g else Replay(Step(g, events[0]), events[1..])
  }

  /** Replaying a concatenation replays its parts in turn. */
  lemma {:induction false} ReplayConcat(g: GlState, a: seq<GlEvent>, b: seq<GlEvent>)
    ensures Replay(g, a + b) == Replay(Replay(g, a), b)
    decreases |a|
  {
    if a == [] {
      assert a + b == b;
    } else {
      assert (a + b)[0] == a[0] && (a + b)[1..] == a[1..] + b;
      ReplayConcat(Step(g, a[0]), a[1..], b);
    }
  }

  /** Events that are not state calls leave the state alone. */
  predicate NoStateCall(e: GlEvent)
  {
    !(e.Enable? || e.Disable? || e.BlendFunc? || e.CullFaceMode? || e.FrontFaceMode?)
  }

  lemma {:induction false} ReplayNoStateCalls(g: GlState, events: seq<GlEvent>)
    requires forall i :: 0 <= i < |events| ==> NoStateCall(events[i])
    ensures Replay(g, events) == g
    decreases |events|
  {
    if events != [] {
      ReplayNoStateCalls(Step(g, events[0]), events[1..]);
    }
  }

  /** The positions of the plane draws in a trace, in order. */
  function PlaneDraws(events: seq<GlEvent>): (zs: seq<real>)
    ensures |zs| <= |events|
  {
    if events == [] then []
    else (if events[0].DrawPlane? then [events[0].z] else []) + PlaneDraws(events[1..])
  }

  /** How many cube draws a trace holds. */
  function CubeDraws(events: seq<GlEvent>): (n: nat)
    ensures n <= |events|
  {
    if events == [] then 0
    else (if events[0].DrawCube? then 1 else 0) + CubeDraws(events[1..])
  }

  lemma {:induction false} DrawsConcat(a: seq<GlEvent>, b: seq<GlEvent>)
    ensures PlaneDraws(a + b) == PlaneDraws(a) + PlaneDraws(b)
    ensures CubeDraws(a + b) == CubeDraws(a) + CubeDraws(b)
    decreases |a|
  {
    if a == [] {
      assert a + b == b;
    } else {
      assert (a + b)[0] == a[0] && (a + b)[1..] == a[1..] + b;
      DrawsConcat(a[1..], b);
      var head := if a[0].DrawPlane? then [a[0].z] else [];
      assert PlaneDraws(a + b) == head + (PlaneDraws(a[1..]) + PlaneDraws(b));
      assert head + (PlaneDraws(a[1..]) + PlaneDraws(b)) == (head + PlaneDraws(a[1..])) + PlaneDraws(b);
    }
  }

  predicate IsDraw(e: GlEvent)
  {
    e.DrawPlane? || e.DrawCube?
  }

  /** A trace without draw calls draws nothing. */
  lemma {:induction false} NoDraws(events: seq<GlEvent>)
    requires forall i :: 0 <= i < |events| ==> !IsDraw(events[i])
    ensures PlaneDraws(events) == [] && CubeDraws(events) == 0
    decreases |events|
  {
    if events != [] {
      NoDraws(events[1..]);
    }
  }

  lemma SingleDraw(e: GlEvent)
    ensures PlaneDraws([e]) == (if e.DrawPlane? then [e.z] else [])
    ensures CubeDraws([e]) == (if e.DrawCube? then 1 else 0)
  {
    assert [e][1..] == [];
  }
}
