/** The stereo modes and the per-frame stereo decisions `SceneRender` takes
    before it renders (layer1/SceneRender.cpp:78-103, 255-313, 481-486). */
module Stereo {
  import opened Device

  /* The `cStereo_*` values of the `stereo_mode` setting. */
  const Mono := 0
  const Quadbuffer := 1
  const Crosseye := 2
  const Walleye := 3
  const Geowall := 4
  const Sidebyside := 5
  const StencilByRow := 6
  const StencilByColumn := 7
  const StencilCheckerboard := 8
  const StencilCustom := 9
  const Anaglyph := 10
  const Dynamic := 11
  const CloneDynamic := 12
  const OpenVR := 13

  /** `stereo_via_stencil`: the modes that interleave the eyes through a
      stencil pattern. */
  predicate ViaStencil(mode: int)
  {
    mode == StencilByRow || mode == StencilByColumn ||
    mode == StencilCheckerboard || mode == StencilCustom
  }

  /** `render_stereo_blend_into_full_screen`: the modes whose second eye is
      blended over the first in one full-screen image. */
  predicate BlendIntoFullScreen(mode: int)
  {
    ViaStencil(mode) || mode == Anaglyph || mode == Dynamic || mode == CloneDynamic
  }

  /** Stencil modes blend into the full screen; the side-by-side family and
      the hardware modes do not. */
  lemma StencilModesBlend(mode: int)
    ensures ViaStencil(mode) ==> BlendIntoFullScreen(mode)
    ensures mode in {Mono, Quadbuffer, Crosseye, Walleye, Geowall, Sidebyside, OpenVR} ==>
              !BlendIntoFullScreen(mode) && !ViaStencil(mode)
  {
  }

  /** Whether a frame is drawn once per eye, and whether that is a forced
      "double-pumped" mono frame. */
  datatype Decision = Decision(mustRender: bool, doublePumpMono: bool)

  /** The stereo decision of `SceneRender`: stereo when the `stereo` setting
      is on with a non-zero mode; otherwise double-pumped mono when the
      context is stereo capable and `stereo_double_pump_mono` is set; and in
      either case mono after all when a hardware mode (below crosseye) is
      asked of a context without stereo buffers. */
  function Decide(stereo: bool, mode: int, capable: bool, doublePumpSetting: bool): (d: Decision)
    ensures d.mustRender <==>
              ((stereo && mode != 0) || (capable && doublePumpSetting)) &&
              (mode >= Crosseye || capable)
    ensures d.doublePumpMono <==> !(stereo && mode != 0) && capable && doublePumpSetting
    ensures d.doublePumpMono ==> d.mustRender
  {
    var must0 := stereo && mode != 0;
    var pump := !must0 && capable && doublePumpSetting;
    var must1 := must0 || pump;
    var must := if must1 && mode < Crosseye && !capable then false else must1;
    Decision(must, pump)
  }

  /** A context without stereo buffers never renders a hardware stereo mode,
      and never double-pumps. */
  lemma NoHardwareStereoWithoutCapability(stereo: bool, mode: int, doublePumpSetting: bool)
    ensures var d := Decide(stereo, mode, false, doublePumpSetting);
            !d.doublePumpMono && (d.mustRender <==> stereo && mode >= Crosseye)
  {
  }

  /** With the `stereo` setting off, a capable context renders stereo
      exactly when double-pumping is asked for. */
  lemma StereoOffRendersOnlyDoublePumped(mode: int, capable: bool, doublePumpSetting: bool)
    ensures var d := Decide(false, mode, capable, doublePumpSetting);
            d.mustRender == d.doublePumpMono &&
            (d.mustRender <==> capable && doublePumpSetting)
  {
  }

  /** How often `SceneRenderStereoLoop` repeats: twice for the two
      accumulation-buffer modes, once otherwise. */
  function Times(mode: int): (t: int)
    ensures t == 2 <==> mode == Dynamic || mode == CloneDynamic
    ensures t == 1 || t == 2
  {
    if mode == CloneDynamic || mode == Dynamic then 2 else 1
  }

  /** The draw buffer `SceneRender` renders into on the default framebuffer:
      the left back buffer of a stereo context when rendering stereo in a
      mode that uses the hardware buffers, the plain back buffer otherwise. */
  function RenderBuffer(mustRender: bool, mode: int): (b: DrawBuffer)
    ensures b == BackLeft <==> mustRender && (mode == Quadbuffer || mode == CloneDynamic || mode == OpenVR)
    ensures b == Back || b == BackLeft
  {
    if mustRender && (mode == Quadbuffer || mode == CloneDynamic || mode == OpenVR) then BackLeft else Back
  }

  /** `postprocessOnce`: whether post-processing runs once over the whole
      frame. The side-by-side and anaglyph modes produce one image from both
      eyes when stereo is on; every other mode produces one image only when
      stereo is off. */
  function PostprocessOnce(mode: int, stereo: bool): (once: bool)
    ensures mode in {Crosseye, Walleye, Sidebyside, Anaglyph} ==> (once <==> stereo)
    ensures mode !in {Crosseye, Walleye, Sidebyside, Anaglyph} ==> (once <==> !stereo)
  {
    match mode
    case 2 => stereo
    case 3 => stereo
    case 5 => stereo
    case 10 => stereo
    case _ => !stereo
  }

  /** `InitializeViewPortToScreenBlock` turns geowall into mono when the
      viewport is given explicitly; every other mode is kept. */
  function ScreenBlockMode(mode: int, hasOverride: bool): (m: int)
    ensures m != mode <==> hasOverride && mode == Geowall
    ensures m != mode ==> m == Mono
  {
    if hasOverride && mode == Geowall then Mono else mode
  }
}
