/** The renderers: the shared `Renderer` state and its setters, the gated
    `render` sequence, shader loading, and the two `doInit`/`doRender`
    variants (slice stacking and ray casting) with their step arithmetic.
    GL calls are recorded on a `GlContext` trace; sqrt(3) is a parameter
    `s` with s > 0 and s*s == 3; the view distance is a parameter. */
module Rendering {
  import opened Common
  import opened GlTrace
  import Palettes

  /** Which subclass a renderer is. */
  datatype Kind = SliceKind | RayCastKind

  /** A 4x4 matrix, row by row; only passed around, never computed with. */
  datatype Matrix = Matrix(entries: seq<real>)

  /** `QMatrix4x4()`: the identity. */
  function IdentityMatrix(): (m: Matrix)
    ensures |m.entries| == 16
    ensures forall i :: 0 <= i < 16 ==> m.entries[i] == if i % 5 == 0 then 1.0 else 0.0
  {
    Matrix(seq(16, i => if i % 5 == 0 then 1.0 else 0.0))
  }

  /** A linked shader program, remembered by its source files. */
  datatype Program = Program(vertexFile: string, fragmentFile: string)

  /** One axis of a matrix built from scalings and translations only:
      t is sent to scale*t + offset. */
  datatype Affine = Affine(scale: real, offset: real)

  function Apply(m: Affine, t: real): real
  {
    m.scale * t + m.offset
  }

  const IdentityAffine := Affine(1.0, 0.0)

  /** `m.scale(k)`: the scaling is applied before `m`. */
  function Scaled(m: Affine, k: real): (r: Affine)
    ensures forall t :: Apply(r, t) == Apply(m, k * t)
  {
    Affine(m.scale * k, m.offset)
  }

  /** `m.translate(d)`: the translation is applied before `m`. */
  function Translated(m: Affine, d: real): (r: Affine)
    ensures forall t :: Apply(r, t) == Apply(m, t + d)
  {
    Affine(m.scale, m.offset + m.scale * d)
  }

  /** The slice renderer's `texture_matrix`: identity, scaled by 2, then
      translated by -0.5 on every axis. */
  function SliceTextureMatrix(): Affine
  {
    Translated(Scaled(IdentityAffine, 2.0), -0.5)
  }

  /** The texture matrix sends each texture coordinate t to 2t - 1, so the
      unit texture cube [0, 1] covers the model cube [-1, 1]. */
  lemma SliceTextureMatrixMapsToCube(t: real)
    ensures Apply(SliceTextureMatrix(), t) == 2.0 * t - 1.0
    ensures Apply(SliceTextureMatrix(), 0.0) == -1.0 && Apply(SliceTextureMatrix(), 1.0) == 1.0
  {
    var m := SliceTextureMatrix();
    assert Apply(m, t) == Apply(Scaled(IdentityAffine, 2.0), t - 0.5);
    assert Apply(Scaled(IdentityAffine, 2.0), t - 0.5) == Apply(IdentityAffine, 2.0 * (t - 0.5));
  }

  // ------------------------------------------------------ shader loading

  /** What the shader compiler and linker do with the two source files:
      whether each stage succeeds, and the program log. */
  datatype ShaderBuild = ShaderBuild(vertexOk: bool, fragmentOk: bool, linkOk: bool, log: string)

  /** `Renderer::loadProgram`: compile the vertex shader, then the fragment
      shader, then link; the first failing stage throws with the log. */
  function LoadProgram(vertexFile: string, fragmentFile: string, build: ShaderBuild): (r: Result<Program, string>)
    ensures r.Ok? <==> build.vertexOk && build.fragmentOk && build.linkOk
    ensures r.Ok? ==> r.value == Program(vertexFile, fragmentFile)
  {
    if !build.vertexOk then
      Err("Failed to load vertex shaders from " + vertexFile + ":\n" + build.log)
    else if !build.fragmentOk then
      Err("Failed to load fragment shaders from " + fragmentFile + ":\n" + build.log)
    else if !build.linkOk then
      Err("Failed to link program:\n" + build.log)
    else
      Ok(Program(vertexFile, fragmentFile))
  }

  /** The first failing stage decides the error and its message, whatever
      the later stages would have done; the log always ends the message. */
  lemma LoadProgramFirstFailure(vertexFile: string, fragmentFile: string, b: ShaderBuild, b': ShaderBuild)
    requires b.log == b'.log && b.vertexOk == b'.vertexOk
    requires b.vertexOk ==> b.fragmentOk == b'.fragmentOk
    requires b.vertexOk && b.fragmentOk ==> b.linkOk == b'.linkOk
    ensures LoadProgram(vertexFile, fragmentFile, b) == LoadProgram(vertexFile, fragmentFile, b')
    ensures var r := LoadProgram(vertexFile, fragmentFile, b);
      r.Err? ==> |r.error| >= |b.log| && r.error[|r.error| - |b.log|..] == b.log
  {
    var r := LoadProgram(vertexFile, fragmentFile, b);
    if r.Err? {
      var prefix := r.error[..|r.error| - |b.log|];
      if !b.vertexOk {
        assert r.error == ("Failed to load vertex shaders from " + vertexFile + ":\n") + b.log;
      } else if !b.fragmentOk {
        assert r.error == ("Failed to load fragment shaders from " + fragmentFile + ":\n") + b.log;
      }
    }
  }

  /** The shader files each renderer loads. */
  function VertexShader(kind: Kind): string
  {
    if kind == SliceKind then "shaders/slice.vert" else "shaders/raycast.vert"
  }

  function FragmentShader(kind: Kind): string
  {
    if kind == SliceKind then "shaders/slice.frag" else "shaders/raycast.frag"
  }

  // ------------------------------------------------------ renderer state

  /** A snapshot of every field of a renderer. */
  datatype RendererState = RendererState(
    kind: Kind,
    model: Matrix, view: Matrix, projection: Matrix,
    dataTexture: Option<Texture>, colorTexture: Option<Texture>, opacityTexture: Option<Texture>,
    jitterTexture: Option<Texture>,
    program: Option<Program>,
    cutoffLow: real, cutoffHigh: real,
    stepMultiplier: int, jitterSize: int,
    lightingEnabled: bool, jitterEnabled: bool,
    textureMatrix: Affine,
    castLightingEnabled: bool)

  /** The member initialisers of `Renderer` and its subclasses. */
  function DefaultState(kind: Kind): (st: RendererState)
    ensures st.dataTexture.None? && st.colorTexture.None? && st.opacityTexture.None?
    ensures st.jitterTexture.None? && st.program.None?
    ensures st.cutoffLow == 0.0 && st.cutoffHigh == 1.0
    ensures st.stepMultiplier == 1 && st.jitterSize == 64
    ensures !st.lightingEnabled && !st.jitterEnabled && !st.castLightingEnabled
  {
    RendererState(kind, IdentityMatrix(), IdentityMatrix(), IdentityMatrix(),
                  None, None, None, None, None, 0.0, 1.0, 1, 64, false, false,
                  IdentityAffine, false)
  }

  /** Everything `render` needs is present. */
  predicate Configured(st: RendererState)
  {
    st.program.Some? && st.dataTexture.Some? && st.colorTexture.Some? && st.opacityTexture.Some?
  }

  /** The largest dimension of the data texture. */
  function MaxDim(t: Texture): (m: nat)
    ensures m >= t.width && m >= t.height && m >= t.depth
    ensures m == t.width || m == t.height || m == t.depth
  {
    var hd := if t.height >= t.depth then t.height else t.depth;
    if t.width >= hd then t.width else hd
  }

  /** The distance between consecutive samples, `1/(max_dim*step_multiplier)`. */
  function StepOf(maxDim: nat, mult: int): real
    requires maxDim * mult != 0
  {
    1.0 / (maxDim * mult) as real
  }

  /** `max_dim*step_multiplier` steps make one unit, and the step is
      positive for a positive multiplier. */
  lemma StepOfIsReciprocal(maxDim: nat, mult: int)
    requires maxDim * mult != 0
    ensures StepOf(maxDim, mult) * (maxDim * mult) as real == 1.0
    ensures mult > 0 ==> StepOf(maxDim, mult) > 0.0
  {
    if mult > 0 {
      StepOfPositive(maxDim, mult);
    }
  }

  lemma StepOfPositive(maxDim: nat, mult: int)
    requires maxDim * mult != 0 && mult > 0
    ensures StepOf(maxDim, mult) > 0.0
  {
    assert (maxDim * mult) as real > 0.0;
  }

  /** `static_cast<int>` of a real: rounding toward zero. */
  function Trunc(x: real): int
  {
    if x >= 0.0 then x.Floor else -((-x).Floor)
  }

  /** Truncation keeps the sign and drops the fraction, toward zero. */
  lemma TruncTowardZero(x: real)
    ensures x >= 0.0 ==> Trunc(x) >= 0 && Trunc(x) as real <= x < Trunc(x) as real + 1.0
    ensures x < 0.0 ==> Trunc(x) <= 0 && Trunc(x) as real - 1.0 < x <= Trunc(x) as real
  {
  }

  /** `num_of_steps = static_cast<int>(2*sqrt(3)/step)`: how many steps of
      length `step` fit in the cube's diameter. */
  function StepCount(s: real, maxDim: nat, mult: int): int
    requires maxDim * mult != 0
  {
    Trunc(2.0 * s / StepOf(maxDim, mult))
  }

  /** The step count is the diameter times the sample density, truncated... */
  lemma StepCountFormula(s: real, maxDim: nat, mult: int)
    requires maxDim * mult != 0 && s > 0.0
    ensures StepCount(s, maxDim, mult) == Trunc(2.0 * s * (maxDim * mult) as real)
  {
    var p := (maxDim * mult) as real;
    var step := StepOf(maxDim, mult);
    StepOfIsReciprocal(maxDim, mult);
    assert 2.0 * s / step == 2.0 * s * p;
  }

  /** ... so for fixed dimensions it strictly increases with the step
      multiplier. */
  lemma StepCountIncreasing(s: real, maxDim: nat, mult: int, mult': int)
    requires s > 0.0 && s * s == 3.0
    requires maxDim >= 1 && 1 <= mult < mult'
    ensures StepCount(s, maxDim, mult) < StepCount(s, maxDim, mult')
  {
    StepCountFormula(s, maxDim, mult);
    StepCountFormula(s, maxDim, mult');
    SqrtThreeAboveOne(s);
    ProductGap(maxDim, mult, mult');
    var p, p' := (maxDim * mult) as real, (maxDim * mult') as real;
    ScaledGap(2.0 * s, p, p');
    TruncIncreasing(2.0 * s * p, 2.0 * s * p');
  }

  lemma SqrtThreeAboveOne(s: real)
    requires s > 0.0 && s * s == 3.0
    ensures s > 1.0
  {
    var t := s + 1.0;
    assert (s - 1.0) * t == 2.0;
    assert s - 1.0 == 2.0 / t;
  }

  lemma ProductGap(maxDim: nat, mult: int, mult': int)
    requires maxDim >= 1 && 1 <= mult < mult'
    ensures maxDim * mult >= 1 && maxDim * mult' >= maxDim * mult + 1
  {
    MulMonotone(maxDim, mult);
    assert maxDim * mult' - maxDim * mult == maxDim * (mult' - mult);
    MulMonotone(maxDim, mult' - mult);
  }

  lemma ScaledGap(c: real, a: real, b: real)
    requires c > 1.0 && a >= 0.0 && b >= a + 1.0
    ensures c * a >= 0.0 && c * b >= c * a + 1.0
  {
    Palettes.MulMono(c, 0.0, a);
    Palettes.MulMono(c, a + 1.0, b);
    assert c * (a + 1.0) == c * a + c;
  }

  /** Truncation of non-negative reals at least one apart differs. */
  lemma TruncIncreasing(x: real, y: real)
    requires 0.0 <= x && y >= x + 1.0
    ensures Trunc(x) < Trunc(y)
  {
    TruncTowardZero(x);
    TruncTowardZero(y);
  }

  /** `cutoffCoeff`: the reciprocal of the cutoff window, or 1 when the
      window is empty (the two ends compare equal exactly). */
  function CutoffCoeff(low: real, high: real): (c: real)
    ensures low != high ==> c * (high - low) == 1.0
    ensures low == high ==> c == 1.0
  {
    if low != high then 1.0 / (high - low) else 1.0
  }

  /** The default window (0, 1) has coefficient 1. */
  lemma DefaultCutoffCoeff()
    ensures CutoffCoeff(0.0, 1.0) == 1.0
  {
    assert CutoffCoeff(0.0, 1.0) * (1.0 - 0.0) == 1.0;
  }

  // ------------------------------------------------------ event sequences

  /** The texture bound to each of the units 0, 1, 2, and the sampler
      uniform that refers to that unit. */
  function TextureOnUnit(st: RendererState, u: nat): Texture
    requires Configured(st) && u < 3
  {
    if u == 0 then st.dataTexture.value else if u == 1 then st.colorTexture.value else st.opacityTexture.value
  }

  function SamplerName(u: nat): string
  {
    if u == 0 then "texture3d" else if u == 1 then "palette" else "opacity"
  }

  /** The cutoff uniforms: the stored ends and the coefficient. */
  function CutoffUniforms(st: RendererState): (e: seq<GlEvent>)
    ensures |e| == 3
  {
    [RealUniform("cutoffLow", st.cutoffLow),
     RealUniform("cutoffHigh", st.cutoffHigh),
     RealUniform("cutoffCoeff", CutoffCoeff(st.cutoffLow, st.cutoffHigh))]
  }

  /** Units 0, 1, 2 made active in turn, each given its sampler uniform and
      its texture. */
  function TextureBinds(st: RendererState): (e: seq<GlEvent>)
    requires Configured(st)
    ensures |e| == 9
  {
    [ActiveTexture(0), IntUniform("texture3d", 0), BindTexture(st.dataTexture.value),
     ActiveTexture(1), IntUniform("palette", 1), BindTexture(st.colorTexture.value),
     ActiveTexture(2), IntUniform("opacity", 2), BindTexture(st.opacityTexture.value)]
  }

  /** `render` up to `doRender`. */
  function RenderPrologue(st: RendererState): (e: seq<GlEvent>)
    requires Configured(st)
    ensures |e| == 13
  {
    [BindProgram] + CutoffUniforms(st) + TextureBinds(st)
  }

  /** `render` after `doRender`. */
  function RenderEpilogue(st: RendererState): (e: seq<GlEvent>)
    requires Configured(st)
    ensures |e| == 4
  {
    [ReleaseTexture(st.dataTexture.value), ReleaseTexture(st.colorTexture.value),
     ReleaseTexture(st.opacityTexture.value), ReleaseProgram]
  }

  /** The step multiplier and the data texture allow a step to be computed. */
  predicate Renderable(st: RendererState)
  {
    Configured(st) ==> MaxDim(st.dataTexture.value) * st.stepMultiplier != 0
  }

  /** How many times `for (i = 0; i <= n; i++)` runs. */
  function LoopCount(n: int): nat
  {
    if n >= 0 then n + 1 else 0
  }

  /** The first `k` iterations of the slab loop, the plane starting at view
      depth z0 and moving by `step` each time. */
  function SlabEvents(z0: real, step: real, k: nat): (e: seq<GlEvent>)
    ensures |e| == 3 * k
  {
    if k == 0 then []
    else SlabEvents(z0, step, k - 1) + SlabDraw(SlabZ(z0, step, k - 1))
  }

  /** The view depth of the plane at iteration `i`. */
  function SlabZ(z0: real, step: real, i: nat): real
  {
    z0 + i as real * step
  }

  lemma SlabZNext(z0: real, step: real, i: nat)
    ensures SlabZ(z0, step, i) + step == SlabZ(z0, step, i + 1)
  {
    assert (i + 1) as real * step == i as real * step + step;
  }

  /** One iteration of the slab loop: the two matrix uniforms, then the
      plane at depth z. */
  function SlabDraw(z: real): seq<GlEvent>
  {
    [MatrixUniform("Proj"), MatrixUniform("TexInv"), DrawPlane(z)]
  }

  /** The slice renderer's `doRender`. */
  function SliceRenderEvents(st: RendererState, s: real, viewDistance: real): seq<GlEvent>
    requires Configured(st) && Renderable(st)
  {
    var maxDim := MaxDim(st.dataTexture.value);
    var step := StepOf(maxDim, st.stepMultiplier);
    [RealUniform("step", step), RealUniform("stepMultCoeff", 1.0 / st.stepMultiplier as real)]
      + SlabEvents(-viewDistance - s, step, LoopCount(StepCount(s, maxDim, st.stepMultiplier)))
  }

  /** The ray-casting renderer's `doRender`. */
  function RayCastRenderEvents(st: RendererState, s: real): seq<GlEvent>
    requires Configured(st) && Renderable(st)
  {
    var maxDim := MaxDim(st.dataTexture.value);
    [MatrixUniform("MVP"), VectorUniform("eyePosition"), VectorUniform("lightPosition"),
     BoolUniform("lightingEnabled", st.castLightingEnabled),
     RealUniform("step", StepOf(maxDim, st.stepMultiplier)),
     IntUniform("numSteps", StepCount(s, maxDim, st.stepMultiplier)),
     RealUniform("stepMultCoeff", 1.0 / st.stepMultiplier as real),
     DrawCube]
  }

  function DoRenderEvents(st: RendererState, s: real, viewDistance: real): seq<GlEvent>
    requires Configured(st) && Renderable(st)
  {
    if st.kind == SliceKind then SliceRenderEvents(st, s, viewDistance) else RayCastRenderEvents(st, s)
  }

  /** Everything one call of `render` issues. */
  function RenderEvents(st: RendererState, s: real, viewDistance: real): seq<GlEvent>
    requires Renderable(st)
  {
    if !Configured(st) then []
    else RenderPrologue(st) + DoRenderEvents(st, s, viewDistance) + RenderEpilogue(st)
  }

  /** `doInit`'s fixed-function state calls. */
  function InitEvents(kind: Kind): seq<GlEvent>
  {
    if kind == SliceKind then
      [Disable(DepthTest), Disable(CullFace), Enable(Blend), BlendFunc(SrcAlpha, OneMinusSrcAlpha)]
    else
      [Disable(DepthTest), Enable(CullFace), CullFaceMode(Back), FrontFaceMode(Cw),
       Enable(Blend), BlendFunc(SrcAlpha, OneMinusSrcAlpha)]
  }

  /** The renderer after a successful `doInit`. */
  function InitState(st: RendererState, p: Program): RendererState
  {
    st.(program := Some(p),
        textureMatrix := if st.kind == SliceKind then SliceTextureMatrix() else st.textureMatrix)
  }

  // ------------------------------------------------------ the class

  class Renderer {
    const kind: Kind
    var model: Matrix
    var view: Matrix
    var projection: Matrix
    var dataTexture: Option<Texture>
    var colorTexture: Option<Texture>
    var opacityTexture: Option<Texture>
    var jitterTexture: Option<Texture>
    var program: Option<Program>
    var cutoffLow: real
    var cutoffHigh: real
    var stepMultiplier: int
    var jitterSize: int
    var lightingEnabled: bool
    var jitterEnabled: bool
    /** `SliceRenderer::texture_matrix`, one axis. */
    var textureMatrix: Affine
    /** `RayCastRenderer::lightingEnabled`, which hides the base flag. */
    var castLightingEnabled: bool

    function State(): RendererState
      reads this
    {
      RendererState(kind, model, view, projection, dataTexture, colorTexture, opacityTexture,
                    jitterTexture, program, cutoffLow, cutoffHigh, stepMultiplier, jitterSize,
                    lightingEnabled, jitterEnabled, textureMatrix, castLightingEnabled)
    }

    /** `SliceRenderer()` or `RayCastRenderer()`. */
    constructor (kind: Kind)
      ensures State() == DefaultState(kind)
    {
      this.kind := kind;
      model, view, projection := IdentityMatrix(), IdentityMatrix(), IdentityMatrix();
      dataTexture, colorTexture, opacityTexture, jitterTexture := None, None, None, None;
      program := None;
      cutoffLow, cutoffHigh := 0.0, 1.0;
      stepMultiplier, jitterSize := 1, 64;
      lightingEnabled, jitterEnabled := false, false;
      textureMatrix := IdentityAffine;
      castLightingEnabled := false;
    }

    method EnableLighting(enabled: bool)
      modifies this
      ensures State() == old(State()).(lightingEnabled := enabled)
    {
      lightingEnabled := enabled;
    }

    /** `RayCastRenderer::enableLighting`, which sets the subclass's own flag. */
    method EnableRayCastLighting(enabled: bool)
      requires kind == RayCastKind
      modifies this
      ensures State() == old(State()).(castLightingEnabled := enabled)
    {
      castLightingEnabled := enabled;
    }

    method EnableJitter(enabled: bool)
      modifies this
      ensures State() == old(State()).(jitterEnabled := enabled)
    {
      jitterEnabled := enabled;
    }

    method SetDataTexture(tex: Option<Texture>)
      modifies this
      ensures State() == old(State()).(dataTexture := tex)
    {
      dataTexture := tex;
    }

    method SetColorTexture(tex: Option<Texture>)
      modifies this
      ensures State() == old(State()).(colorTexture := tex)
    {
      colorTexture := tex;
    }

    method SetOpacityTexture(tex: Option<Texture>)
      modifies this
      ensures State() == old(State()).(opacityTexture := tex)
    {
      opacityTexture := tex;
    }

    method SetMVP(model: Matrix, view: Matrix, proj: Matrix)
      modifies this
      ensures State() == old(State()).(model := model, view := view, projection := proj)
    {
      this.model, this.view, this.projection := model, view, proj;
    }

    /** Stored as given: no ordering or range check. */
    method SetCutoff(low: real, high: real)
      modifies this
      ensures State() == old(State()).(cutoffLow := low, cutoffHigh := high)
    {
      cutoffLow, cutoffHigh := low, high;
    }

    /** Stored as given: no validation. */
    method SetStepMultiplier(multiplier: int)
      modifies this
      ensures State() == old(State()).(stepMultiplier := multiplier)
    {
      stepMultiplier := multiplier;
    }

    /** `doInit`: load this renderer's shaders, then set the GL state. A
        failed load throws before anything is changed. */
    method DoInit(gl: GlContext, build: ShaderBuild) returns (error: Option<string>)
      modifies this, gl
      ensures var loaded := LoadProgram(VertexShader(kind), FragmentShader(kind), build);
        && (loaded.Err? ==> error == Some(loaded.error) && State() == old(State()) && gl.events == old(gl.events))
        && (loaded.Ok? ==> error == None && State() == InitState(old(State()), loaded.value)
                           && gl.events == old(gl.events) + InitEvents(kind))
    {
      var loaded := LoadProgram(VertexShader(kind), FragmentShader(kind), build);
      if loaded.Err? {
        return Some(loaded.error);
      }
      program := Some(loaded.value);
      if kind == SliceKind {
        var m := IdentityAffine;
        m := Scaled(m, 2.0);
        m := Translated(m, -0.5);
        textureMatrix := m;
        gl.Emit(Disable(DepthTest));
        gl.Emit(Disable(CullFace));
        gl.Emit(Enable(Blend));
        gl.Emit(BlendFunc(SrcAlpha, OneMinusSrcAlpha));
      } else {
        gl.Emit(Disable(DepthTest));
        gl.Emit(Enable(CullFace));
        gl.Emit(CullFaceMode(Back));
        gl.Emit(FrontFaceMode(Cw));
        gl.Emit(Enable(Blend));
        gl.Emit(BlendFunc(SrcAlpha, OneMinusSrcAlpha));
      }
      return None;
    }

    /** `render`: nothing unless the program and the three textures are
        present; otherwise bind, set the uniforms, bind the textures to
        units 0, 1, 2, let the subclass draw, and release in order. No field
        of the renderer changes. */
    method Render(gl: GlContext, s: real, viewDistance: real)
      requires s > 0.0 && s * s == 3.0
      requires Renderable(State())
      modifies gl
      ensures gl.events == old(gl.events) + RenderEvents(State(), s, viewDistance)
    {
      if program.None? || dataTexture.None? || colorTexture.None? || opacityTexture.None? {
        return;
      }
      ghost var start := gl.events;
      BindAll(gl);
      ghost var mid := gl.events;
      if kind == SliceKind {
        DoRenderSlice(gl, s, viewDistance);
      } else {
        DoRenderRayCast(gl, s);
      }
      assert gl.events == mid + DoRenderEvents(State(), s, viewDistance);
      ghost var late := gl.events;
      ReleaseAll(gl);
      ConcatAssoc(start, RenderPrologue(State()), DoRenderEvents(State(), s, viewDistance));
      ConcatAssoc(start, RenderPrologue(State()) + DoRenderEvents(State(), s, viewDistance), RenderEpilogue(State()));
    }

    /** The part of `render` before `doRender`. */
    method BindAll(gl: GlContext)
      requires Configured(State())
      modifies gl
      ensures gl.events == old(gl.events) + RenderPrologue(State())
    {
      gl.Emit(BindProgram);
      SetCutoffUniforms(gl);
      BindTextures(gl);
      ConcatAssoc(old(gl.events), [BindProgram] + CutoffUniforms(State()), TextureBinds(State()));
    }

    /** The three cutoff uniforms. */
    method SetCutoffUniforms(gl: GlContext)
      modifies gl
      ensures gl.events == old(gl.events) + CutoffUniforms(State())
    {
      gl.Emit(RealUniform("cutoffLow", cutoffLow));
      gl.Emit(RealUniform("cutoffHigh", cutoffHigh));
      var coeff := if cutoffLow != cutoffHigh then 1.0 / (cutoffHigh - cutoffLow) else 1.0;
      gl.Emit(RealUniform("cutoffCoeff", coeff));
    }

    /** Each texture on its unit, with its sampler uniform. */
    method BindTextures(gl: GlContext)
      requires Configured(State())
      modifies gl
      ensures gl.events == old(gl.events) + TextureBinds(State())
    {
      gl.Emit(ActiveTexture(0));
      gl.Emit(IntUniform("texture3d", 0));
      gl.Emit(BindTexture(dataTexture.value));
      gl.Emit(ActiveTexture(1));
      gl.Emit(IntUniform("palette", 1));
      gl.Emit(BindTexture(colorTexture.value));
      gl.Emit(ActiveTexture(2));
      gl.Emit(IntUniform("opacity", 2));
      gl.Emit(BindTexture(opacityTexture.value));
    }

    /** The part of `render` after `doRender`. */
    method ReleaseAll(gl: GlContext)
      requires Configured(State())
      modifies gl
      ensures gl.events == old(gl.events) + RenderEpilogue(State())
    {
      gl.Emit(ReleaseTexture(dataTexture.value));
      gl.Emit(ReleaseTexture(colorTexture.value));
      gl.Emit(ReleaseTexture(opacityTexture.value));
      gl.Emit(ReleaseProgram);
    }

    /** `SliceRenderer::doRender`: the plane is moved from behind the cube
        towards the viewer by one step per draw. */
    method DoRenderSlice(gl: GlContext, s: real, viewDistance: real)
      requires kind == SliceKind && Configured(State()) && Renderable(State())
      modifies gl
      ensures gl.events == old(gl.events) + SliceRenderEvents(State(), s, viewDistance)
    {
      var maxDim := MaxDim(dataTexture.value);
      var step := 1.0 / (maxDim * stepMultiplier) as real;
      var numOfSteps := Trunc(2.0 * s / step);
      gl.Emit(RealUniform("step", step));
      gl.Emit(RealUniform("stepMultCoeff", 1.0 / stepMultiplier as real));
      var plane := Scaled(IdentityAffine, 1.0);
      plane := Translated(plane, -viewDistance - s);
      DrawSlabs(gl, plane, step, numOfSteps);
    }

    /** The slab loop of `SliceRenderer::doRender`, from the plane matrix
        `plane` on. */
    method DrawSlabs(gl: GlContext, plane: Affine, step: real, numOfSteps: int)
      requires plane.scale == 1.0
      modifies gl
      ensures gl.events == old(gl.events) + SlabEvents(plane.offset, step, LoopCount(numOfSteps))
    {
      var m := plane;
      var i := 0;
      while i <= numOfSteps
        invariant 0 <= i <= LoopCount(numOfSteps)
        invariant m == Affine(1.0, SlabZ(plane.offset, step, i))
        invariant gl.events == old(gl.events) + SlabEvents(plane.offset, step, i)
      {
        gl.Emit(MatrixUniform("Proj"));
        gl.Emit(MatrixUniform("TexInv"));
        gl.Emit(DrawPlane(Apply(m, 0.0)));
        SlabZNext(plane.offset, step, i);
        m := Translated(m, step);
        i := i + 1;
      }
    }

    /** `RayCastRenderer::doRender`: uniforms, then one cube draw. */
    method DoRenderRayCast(gl: GlContext, s: real)
      requires kind == RayCastKind && Configured(State()) && Renderable(State())
      modifies gl
      ensures gl.events == old(gl.events) + RayCastRenderEvents(State(), s)
    {
      gl.Emit(MatrixUniform("MVP"));
      gl.Emit(VectorUniform("eyePosition"));
      gl.Emit(VectorUniform("lightPosition"));
      gl.Emit(BoolUniform("lightingEnabled", castLightingEnabled));
      var maxDim := MaxDim(dataTexture.value);
      var step := 1.0 / (maxDim * stepMultiplier) as real;
      var numOfSteps := Trunc(2.0 * s / step);
      gl.Emit(RealUniform("step", step));
      gl.Emit(IntUniform("numSteps", numOfSteps));
      gl.Emit(RealUniform("stepMultCoeff", 1.0 / stepMultiplier as real));
      gl.Emit(DrawCube);
    }
  }

  // ------------------------------------------------------ properties

  /** A renderer that has not been given its program and all three
      textures issues nothing; in particular a fresh one. */
  lemma RenderGate(st: RendererState, s: real, viewDistance: real)
    requires !Configured(st)
    ensures Renderable(st) && RenderEvents(st, s, viewDistance) == []
  {
  }

  predicate NoProgramCall(e: GlEvent)
  {
    !e.BindProgram? && !e.ReleaseProgram?
  }

  /** The order of a configured `render`: the program is bound first and
      released last and never in between; the cutoff uniforms carry the
      stored values; texture unit u gets sampler value u and its texture;
      the textures are released in binding order after the subclass has
      drawn. */
  lemma RenderOrder(st: RendererState, s: real, viewDistance: real, u: nat)
    requires Configured(st) && Renderable(st) && u < 3
    ensures var e := RenderEvents(st, s, viewDistance);
      && |e| >= 17
      && e[0] == BindProgram && e[|e| - 1] == ReleaseProgram
      && (forall i :: 0 < i < |e| - 1 ==> NoProgramCall(e[i]))
      && e[1] == RealUniform("cutoffLow", st.cutoffLow)
      && e[2] == RealUniform("cutoffHigh", st.cutoffHigh)
      && e[3] == RealUniform("cutoffCoeff", CutoffCoeff(st.cutoffLow, st.cutoffHigh))
      && e[4 + 3 * u] == ActiveTexture(u)
      && e[5 + 3 * u] == IntUniform(SamplerName(u), u)
      && e[6 + 3 * u] == BindTexture(TextureOnUnit(st, u))
      && e[|e| - 4 + u] == ReleaseTexture(TextureOnUnit(st, u))
      && e[13..|e| - 4] == DoRenderEvents(st, s, viewDistance)
  {
    var pro, mid, epi := RenderPrologue(st), DoRenderEvents(st, s, viewDistance), RenderEpilogue(st);
    assert RenderEvents(st, s, viewDistance) == pro + mid + epi;
    PrologueOrder(st, u);
    EpilogueOrder(st, u);
    DoRenderPassive(st, s, viewDistance);
    Bracketed(pro, mid, epi);
  }

  /** `render` up to `doRender`: the program, the cutoffs, then unit `u`'s
      activation, sampler value and texture. */
  lemma PrologueOrder(st: RendererState, u: nat)
    requires Configured(st) && u < 3
    ensures var pro := RenderPrologue(st);
      && pro[0] == BindProgram
      && (forall i :: 0 < i < 13 ==> NoProgramCall(pro[i]))
      && pro[1] == RealUniform("cutoffLow", st.cutoffLow)
      && pro[2] == RealUniform("cutoffHigh", st.cutoffHigh)
      && pro[3] == RealUniform("cutoffCoeff", CutoffCoeff(st.cutoffLow, st.cutoffHigh))
      && pro[4 + 3 * u] == ActiveTexture(u)
      && pro[5 + 3 * u] == IntUniform(SamplerName(u), u)
      && pro[6 + 3 * u] == BindTexture(TextureOnUnit(st, u))
  {
    var pro := RenderPrologue(st);
    assert pro == [BindProgram] + CutoffUniforms(st) + TextureBinds(st);
    if u == 0 {
    } else if u == 1 {
    } else {
    }
  }

  /** `render` after `doRender`: the textures in binding order, then the
      program. */
  lemma EpilogueOrder(st: RendererState, u: nat)
    requires Configured(st) && u < 3
    ensures var epi := RenderEpilogue(st);
      && epi[3] == ReleaseProgram
      && (forall i :: 0 <= i < 3 ==> NoProgramCall(epi[i]))
      && epi[u] == ReleaseTexture(TextureOnUnit(st, u))
  {
  }

  /** Events between a 13-event prologue that binds the program first and a
      4-event epilogue that releases it last, with no other program call. */
  lemma Bracketed(pro: seq<GlEvent>, mid: seq<GlEvent>, epi: seq<GlEvent>)
    requires |pro| == 13 && |epi| == 4
    requires pro[0] == BindProgram && epi[3] == ReleaseProgram
    requires forall i :: 0 < i < 13 ==> NoProgramCall(pro[i])
    requires forall i :: 0 <= i < 3 ==> NoProgramCall(epi[i])
    requires AllPassive(mid)
    ensures var e := pro + mid + epi;
      && |e| == 17 + |mid| && e[0] == BindProgram && e[|e| - 1] == ReleaseProgram
      && (forall i :: 0 < i < |e| - 1 ==> NoProgramCall(e[i]))
      && e[..13] == pro && e[13..|e| - 4] == mid && e[|e| - 4..] == epi
  {
    var e := pro + mid + epi;
    forall i | 0 < i < |e| - 1
      ensures NoProgramCall(e[i])
    {
      if i < 13 {
        assert e[i] == pro[i];
      } else if i < |e| - 4 {
        assert e[i] == mid[i - 13];
      } else {
        assert e[i] == epi[i - 13 - |mid|];
      }
    }
    assert e[..13] == pro;
    assert e[13..|e| - 4] == mid;
    assert e[|e| - 4..] == epi;
  }

  /** Neither a program call nor a state call. */
  predicate Passive(e: GlEvent)
  {
    NoProgramCall(e) && NoStateCall(e)
  }

  predicate AllPassive(m: seq<GlEvent>)
  {
    forall i :: 0 <= i < |m| ==> Passive(m[i])
  }

  lemma AllPassiveConcat(a: seq<GlEvent>, b: seq<GlEvent>)
    requires AllPassive(a) && AllPassive(b)
    ensures AllPassive(a + b)
  {
    forall i | 0 <= i < |a + b|
      ensures Passive((a + b)[i])
    {
      if i >= |a| {
        assert (a + b)[i] == b[i - |a|];
      }
    }
  }

  /** The subclasses never bind or release the program themselves, and
      change no GL state while drawing. */
  lemma DoRenderPassive(st: RendererState, s: real, viewDistance: real)
    requires Configured(st) && Renderable(st)
    ensures AllPassive(DoRenderEvents(st, s, viewDistance))
  {
    if st.kind == SliceKind {
      var maxDim := MaxDim(st.dataTexture.value);
      var step := StepOf(maxDim, st.stepMultiplier);
      var k := LoopCount(StepCount(s, maxDim, st.stepMultiplier));
      var head := [RealUniform("step", step), RealUniform("stepMultCoeff", 1.0 / st.stepMultiplier as real)];
      SlabEventsPassive(-viewDistance - s, step, k);
      AllPassiveConcat(head, SlabEvents(-viewDistance - s, step, k));
    }
  }

  /** The slab loop issues only uniforms and draws. */
  lemma {:induction false} SlabEventsPassive(z0: real, step: real, k: nat)
    ensures AllPassive(SlabEvents(z0, step, k))
  {
    if k > 0 {
      SlabEventsPassive(z0, step, k - 1);
      AllPassiveConcat(SlabEvents(z0, step, k - 1), SlabDraw(SlabZ(z0, step, k - 1)));
    }
  }

  /** The slab loop draws the plane at z0, z0 + step, z0 + 2*step, ... */
  lemma {:induction false} SlabDraws(z0: real, step: real, k: nat)
    ensures |PlaneDraws(SlabEvents(z0, step, k))| == k
    ensures forall i :: 0 <= i < k ==> PlaneDraws(SlabEvents(z0, step, k))[i] == SlabZ(z0, step, i)
    ensures CubeDraws(SlabEvents(z0, step, k)) == 0
  {
    if k > 0 {
      SlabDraws(z0, step, k - 1);
      var z := SlabZ(z0, step, k - 1);
      SlabDrawDraws(z);
      var prev := SlabEvents(z0, step, k - 1);
      DrawsConcat(prev, SlabDraw(z));
      var zs := PlaneDraws(SlabEvents(z0, step, k));
      assert zs == PlaneDraws(prev) + [z];
      forall i | 0 <= i < k
        ensures zs[i] == SlabZ(z0, step, i)
      {
        if i < k - 1 {
          assert zs[i] == PlaneDraws(prev)[i];
        }
      }
    }
  }

  /** One iteration of the slab loop draws the plane once, at `z`. */
  lemma SlabDrawDraws(z: real)
    ensures PlaneDraws(SlabDraw(z)) == [z] && CubeDraws(SlabDraw(z)) == 0
  {
    var uniforms := [MatrixUniform("Proj"), MatrixUniform("TexInv")];
    NoDraws(uniforms);
    SingleDraw(DrawPlane(z));
    DrawsConcat(uniforms, [DrawPlane(z)]);
    assert SlabDraw(z) == uniforms + [DrawPlane(z)];
  }

  /** Neither end of `render` draws anything. */
  lemma PrologueEpilogueDrawNothing(st: RendererState)
    requires Configured(st)
    ensures PlaneDraws(RenderPrologue(st)) == [] && CubeDraws(RenderPrologue(st)) == 0
    ensures PlaneDraws(RenderEpilogue(st)) == [] && CubeDraws(RenderEpilogue(st)) == 0
  {
    var pro := RenderPrologue(st);
    var epi := RenderEpilogue(st);
    assert forall i :: 0 <= i < |pro| ==> !IsDraw(pro[i]);
    NoDraws(pro);
    NoDraws(epi);
  }

  /** The draws of a configured render are those of the subclass. */
  lemma RenderDraws(st: RendererState, s: real, viewDistance: real)
    requires Configured(st) && Renderable(st)
    ensures PlaneDraws(RenderEvents(st, s, viewDistance)) == PlaneDraws(DoRenderEvents(st, s, viewDistance))
    ensures CubeDraws(RenderEvents(st, s, viewDistance)) == CubeDraws(DoRenderEvents(st, s, viewDistance))
  {
    var pro, mid, epi := RenderPrologue(st), DoRenderEvents(st, s, viewDistance), RenderEpilogue(st);
    PrologueEpilogueDrawNothing(st);
    DrawsConcat(pro, mid);
    DrawsConcat(pro + mid, epi);
    assert PlaneDraws(pro + mid) == PlaneDraws(mid);
  }

  /** A slice render draws the plane `num_of_steps + 1` times, starting
      sqrt(3) behind the cube's centre and moving one positive step nearer
      the viewer each time, and never draws the cube; `SlabPlanesAscend`
      gives the back-to-front order that follows. */
  lemma SliceRenderDraws(st: RendererState, s: real, viewDistance: real)
    requires st.kind == SliceKind && Configured(st) && Renderable(st) && st.stepMultiplier > 0
    ensures var maxDim := MaxDim(st.dataTexture.value);
      var step := StepOf(maxDim, st.stepMultiplier);
      var zs := PlaneDraws(RenderEvents(st, s, viewDistance));
      && step > 0.0
      && zs == PlaneDraws(SlabEvents(-viewDistance - s, step, LoopCount(StepCount(s, maxDim, st.stepMultiplier))))
      && |zs| == LoopCount(StepCount(s, maxDim, st.stepMultiplier))
      && (forall i :: 0 <= i < |zs| ==> zs[i] == -viewDistance - s + i as real * step)
      && CubeDraws(RenderEvents(st, s, viewDistance)) == 0
  {
    var maxDim := MaxDim(st.dataTexture.value);
    var step := StepOf(maxDim, st.stepMultiplier);
    StepOfPositive(maxDim, st.stepMultiplier);
    RenderDraws(st, s, viewDistance);
    SliceDoRenderDraws(st, s, viewDistance);
    SlabDraws(-viewDistance - s, step, LoopCount(StepCount(s, maxDim, st.stepMultiplier)));
  }

  /** The slice renderer's `doRender` draws what its slab loop draws. */
  lemma SliceDoRenderDraws(st: RendererState, s: real, viewDistance: real)
    requires st.kind == SliceKind && Configured(st) && Renderable(st)
    ensures var maxDim := MaxDim(st.dataTexture.value);
      var slabs := SlabEvents(-viewDistance - s, StepOf(maxDim, st.stepMultiplier),
                              LoopCount(StepCount(s, maxDim, st.stepMultiplier)));
      && PlaneDraws(DoRenderEvents(st, s, viewDistance)) == PlaneDraws(slabs)
      && CubeDraws(DoRenderEvents(st, s, viewDistance)) == CubeDraws(slabs)
  {
    var maxDim := MaxDim(st.dataTexture.value);
    var step := StepOf(maxDim, st.stepMultiplier);
    var head := [RealUniform("step", step), RealUniform("stepMultCoeff", 1.0 / st.stepMultiplier as real)];
    var slabs := SlabEvents(-viewDistance - s, step, LoopCount(StepCount(s, maxDim, st.stepMultiplier)));
    NoDraws(head);
    DrawsConcat(head, slabs);
  }

  /** With a positive step the planes the slab loop draws strictly ascend:
      back to front. */
  lemma SlabPlanesAscend(z0: real, step: real, k: nat)
    requires step > 0.0
    ensures var zs := PlaneDraws(SlabEvents(z0, step, k));
      forall i, j :: 0 <= i < j < |zs| ==> zs[i] < zs[j]
  {
    SlabDraws(z0, step, k);
    var zs := PlaneDraws(SlabEvents(z0, step, k));
    forall i, j | 0 <= i < j < |zs|
      ensures zs[i] < zs[j]
    {
      SlabZIncreasing(z0, step, i, j);
    }
  }

  lemma SlabZIncreasing(z0: real, step: real, i: nat, j: nat)
    requires step > 0.0 && i < j
    ensures SlabZ(z0, step, i) < SlabZ(z0, step, j)
  {
    assert SlabZ(z0, step, j) - SlabZ(z0, step, i) == (j - i) as real * step;
    Palettes.MulMono(step, 1.0, (j - i) as real);
  }

  /** A ray-casting render draws the cube exactly once and no plane, and
      its `lightingEnabled` uniform is the subclass's own flag. */
  lemma RayCastRenderDraws(st: RendererState, s: real, viewDistance: real)
    requires st.kind == RayCastKind && Configured(st) && Renderable(st)
    ensures CubeDraws(RenderEvents(st, s, viewDistance)) == 1
    ensures PlaneDraws(RenderEvents(st, s, viewDistance)) == []
    ensures RenderEvents(st, s, viewDistance)[16] == BoolUniform("lightingEnabled", st.castLightingEnabled)
  {
    var mid := RayCastRenderEvents(st, s);
    RenderDraws(st, s, viewDistance);
    assert mid == mid[..7] + [DrawCube];
    NoDraws(mid[..7]);
    SingleDraw(DrawCube);
    DrawsConcat(mid[..7], [DrawCube]);
  }

  /** Whatever state the context was in and whatever was issued before,
      the slice renderer's `doInit` leaves depth testing and culling off
      and alpha blending on... */
  lemma SliceInitGlState(g: GlState, before: seq<GlEvent>)
    ensures var r := Replay(g, before + InitEvents(SliceKind));
      !r.depthTest && !r.cullFace && r.blend && r.blendSrc == SrcAlpha && r.blendDst == OneMinusSrcAlpha
  {
    ReplayConcat(g, before, InitEvents(SliceKind));
  }

  /** ... and the ray-casting renderer's leaves depth testing off, culls
      back faces with clockwise front faces, and blends the same way. */
  lemma RayCastInitGlState(g: GlState, before: seq<GlEvent>)
    ensures var r := Replay(g, before + InitEvents(RayCastKind));
      && !r.depthTest && r.cullFace && r.cullMode == Back && r.frontFace == Cw
      && r.blend && r.blendSrc == SrcAlpha && r.blendDst == OneMinusSrcAlpha
  {
    ReplayConcat(g, before, InitEvents(RayCastKind));
  }

  /** Rendering changes no GL capability or blending state. */
  lemma RenderKeepsGlState(g: GlState, st: RendererState, s: real, viewDistance: real)
    requires Renderable(st)
    ensures Replay(g, RenderEvents(st, s, viewDistance)) == g
  {
    var e := RenderEvents(st, s, viewDistance);
    if Configured(st) {
      var pro, mid, epi := RenderPrologue(st), DoRenderEvents(st, s, viewDistance), RenderEpilogue(st);
      DoRenderPassive(st, s, viewDistance);
      assert e == pro + mid + epi;
      forall i | 0 <= i < |e|
        ensures NoStateCall(e[i])
      {
        if i < 13 {
          assert e[i] == pro[i];
        } else if i < |e| - 4 {
          assert e[i] == mid[i - 13];
        } else {
          assert e[i] == epi[i - 13 - |mid|];
        }
      }
    }
    ReplayNoStateCalls(g, e);
  }
}
