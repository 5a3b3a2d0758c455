/** The graphics device as the render core sees it: an abstract record of the
    OpenGL state it sets and restores, the stereo fields of the shader
    manager, and a trace of the externally visible calls it makes. */
module Device {
  import opened Geometry

  /** The draw buffer selected with `glDrawBuffer` / `OrthoDrawBuffer`. */
  datatype DrawBuffer = Back | BackLeft | BackRight | ColorAttachment0

  /** The bound draw framebuffer. */
  datatype Framebuffer =
    | DefaultFb                 // the window's own framebuffer
    | OrthoOffscreen            // `offscreen_ortho_rt`, used for offscreen renders
    | SceneOffscreen            // `bindOffscreen`: colour + depth texture of the scene size
    | OitTarget(drawbuf: int)   // `bindOffscreenOIT`: order-independent transparency accumulation
    | External(id: int)         // a framebuffer handed in by the caller

  /** `GLFramebufferConfig`: a framebuffer together with its draw buffer. */
  datatype FbConfig = FbConfig(fb: Framebuffer, drawBuffer: DrawBuffer)

  datatype ColorMask = ColorMask(r: bool, g: bool, b: bool, a: bool)

  const AllColors := ColorMask(true, true, true, true)

  datatype StencilFunc = StencilAlways(ref: int) | StencilEqual(ref: int)

  /** The abstract device-state record. `emission` is true while the
      material emission holds the stereo tint of the dynamic modes.
      `colorMask` is the write mask of draw buffer 0 and `colorMaskRest`
      that of the other draw buffers (the second attachment of the
      order-independent-transparency target): `glColorMask` sets both,
      `glColorMaski(0, ...)` only the first. */
  datatype Gl = Gl(
    viewport: Rect,
    fb: Framebuffer,
    drawBuffer: DrawBuffer,
    stencilTest: bool,
    stencilFunc: StencilFunc,
    colorMask: ColorMask,
    colorMaskRest: ColorMask,
    depthMask: bool,
    depthTest: bool,
    blend: bool,
    scissorTest: bool,
    scissorBox: Rect,
    fog: bool,
    emission: bool)

  /** The three draw passes of every frame. */
  datatype Pass = Opaque | Antialias | Transparent

  /** `SceneRenderOrder`. */
  datatype Order = Undefined | GadgetsLast

  /** The post-processing shader stages (`GL_FXAA_SHADER`, `GL_SMAA1_SHADER`, ...). */
  datatype AAStage = FXAA | SMAA1 | SMAA2 | SMAA3

  /** A stencil-pattern line from (x0, y0) to (x1, y1). */
  datatype Line = Line(x0: int, y0: int, x1: int, y1: int)

  /** `glAccum` operations the stereo modes issue. */
  datatype AccumOp = AccumAddHalf | AccumHalf | AccumMinusHalf | AccumReturn

  /** One-shot device operations (clears, accumulation, diagnostics). */
  datatype GlOp =
    | ClearDepth
    | ClearColorDepth
    | ClearAccum
    | Accum(op: AccumOp)
    | DrawTo(buffer: DrawBuffer)   // an `OrthoDrawBuffer` that a later operation of the same step overrides
    | StereoError(mode: int)   // the "Stereo Error ... requires access to the accumulation buffer" diagnostic

  /** The trace of calls into collaborators and one-shot device operations. */
  datatype Event =
    | RenderAll(pass: Pass, which: bv8, order: Order)     // `SceneRenderAll`
    | RenderSelections(slot: int)                          // `ExecutiveRenderSelections`
    | EditorRender
    | DebugRender                                          // the debugging CGO
    | BeginDoRendering(times: int, stereoFlag: int, stereoBlend: int)
    | EndDoRendering
    | Setup(position: int, ops: seq<GlOp>)                 // `PrepareViewPortForStereoImpl` for one eye
    | Teardown(ops: seq<GlOp>)                             // `SetDrawBufferForStereo`
    | Op(op: GlOp)
    | BgGradient                                           // `bg_grad`
    | BindOffscreen
    | BindOit(drawbuf: int)
    | OitCopy
    | OitResolve
    | PostProcessStack                                     // `SceneRenderPostProcessStack`
    | PostProcess(stages: seq<AAStage>)                    // the anti-aliasing render of `SceneRenderAA`
    | StencilPattern(lines: seq<Line>)
    | Picking
    | ViewportInitError

  class Device {
    var gl: Gl
    var trace: seq<Event>
    /** Shader-manager fields read by the shaders for anaglyph stereo. */
    var stereoFlag: int
    var stereoBlend: int
    var stereoDrawBufferPass: int
    /** Whether `glAccum` succeeds; without an accumulation buffer `glGetError` reports an error after it. */
    const hasAccumBuffer: bool
    /** `G->StereoCapable`: the context has hardware stereo buffers. */
    const stereoCapable: bool
    /** Whether `GenerateUnitScreenCGO` manages to build the full-screen quad. */
    const canBuildUnitQuad: bool
    /** `GLEW_VERSION_3_0`: per-buffer colour masks (`glColorMaski`) exist. */
    const hasGl30: bool

    constructor (gl0: Gl, accum: bool, capable: bool, quad: bool, gl30: bool)
      ensures gl == gl0 && trace == []
      ensures stereoFlag == 0 && stereoBlend == 0 && stereoDrawBufferPass == 0
      ensures hasAccumBuffer == accum && stereoCapable == capable && canBuildUnitQuad == quad
      ensures hasGl30 == gl30
    {
      gl := gl0;
      trace := [];
      stereoFlag, stereoBlend, stereoDrawBufferPass := 0, 0, 0;
      hasAccumBuffer, stereoCapable, canBuildUnitQuad, hasGl30 := accum, capable, quad, gl30;
    }

    /** `SceneSetViewport`. */
    method SetViewport(r: Rect)
      modifies this`gl
      ensures gl == old(gl).(viewport := r)
    {
      gl := gl.(viewport := r);
    }

    method Emit(e: Event)
      modifies this`trace
      ensures trace == old(trace) + [e]
    {
      trace := trace + [e];
    }
  }
}
