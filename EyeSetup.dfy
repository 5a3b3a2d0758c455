/** The per-eye device setup of `PrepareViewPortForStereoImpl` and the
    teardown `SetDrawBufferForStereo` performs after the second eye
    (layer1/SceneRender.cpp:1392-1646), as transitions of the abstract
    device state. */
module EyeSetup {
  import opened Geometry
  import opened Device
  import opened Stereo

  /** What the setup reads besides the device state: the scene block
      (`I->rect.left`, `I->rect.bottom`, `I->Width`, `I->Height`), the window
      width `winX`, whether an accumulation buffer exists (a `glAccum`
      without one leaves an error for `glGetError`), the global
      `stereo_mode` setting and `I->StencilValid`; `maskFirstOnly` holds
      when anaglyph masks draw buffer 0 alone: two-buffer order-independent
      transparency (not `TM3_IS_ONEBUF`) on an OpenGL 3.0 device with the
      `transparency_mode` setting at 3. */
  datatype Env = Env(rect: Rect, winX: int, hasAccum: bool, modeSetting: int, stencilValid: bool,
                     maskFirstOnly: bool)

  /** The new device state, the one-shot operations issued in order, and
      whether the accumulation-buffer fallback was taken (the `stereo_mode`
      setting becomes crosseye and stereo is switched off). */
  datatype SetupResult = SetupResult(gl: Gl, ops: seq<GlOp>, fallback: bool)

  datatype TeardownResult = TeardownResult(gl: Gl, ops: seq<GlOp>)

  /** The draw buffer of an eye in quad-buffered stereo. */
  function EyeBuffer(position: int): (b: DrawBuffer)
    ensures b == (if position == 0 then BackLeft else BackRight)
  {
    if position == 0 then BackLeft else BackRight
  }

  /** `half * w / 2` in C for an eye index `half` of 0 or 1: where the
      second half of a side-by-side split starts. */
  function EyeShift(half: int, w: int): int
    requires half == 0 || half == 1
  {
    if half == 0 then 0 else CDiv(w, 2)
  }

  lemma EyeShiftIsCDiv(half: int, w: int)
    requires half == 0 || half == 1
    ensures EyeShift(half, w) == CDiv(half * w, 2)
  {
  }

  /** `InitializeViewPortToScreenBlock`: the explicit viewport moved by
      `pos`, or the scene block. */
  function ScreenBlock(env: Env, pos: Offset, override: Option<Rect>): Rect
  {
    if override.Some? then
      Rect(Offset(override.value.offset.x + pos.x, override.value.offset.y + pos.y), override.value.extent)
    else env.rect
  }

  /** Half `half` (0: left, 1: right) of the side-by-side layout: of the
      offscreen image, of the explicit viewport moved by `pos`, or of the
      scene block. */
  function SideBySideViewport(env: Env, offscreen: bool, pos: Offset, override: Option<Rect>, half: int): Rect
    requires half == 0 || half == 1
  {
    var r := env.rect;
    if offscreen then
      MakeRect(EyeShift(half, r.extent.width), 0, CDiv(r.extent.width, 2), r.extent.height)
    else if override.Some? then
      var v := override.value;
      MakeRect(v.offset.x + EyeShift(half, v.extent.width) + pos.x, v.offset.y + pos.y,
               CDiv(v.extent.width, 2), v.extent.height)
    else
      MakeRect(r.Left() + EyeShift(half, r.extent.width), r.Bottom(), CDiv(r.extent.width, 2), r.extent.height)
  }

  /** Quad-buffered stereo: the eye's back buffer over the scene block. */
  function QuadbufferEye(gl: Gl, env: Env, position: int): (g: Gl)
    ensures g == gl.(viewport := g.viewport, drawBuffer := g.drawBuffer)
  {
    gl.(drawBuffer := EyeBuffer(position), viewport := env.rect)
  }

  /** Geowall: half of the offscreen image, or on screen the full scene size
      moved right by half the window width for the right eye. */
  function GeowallEye(gl: Gl, env: Env, offscreen: bool, position: int): (g: Gl)
    requires position == 0 || position == 1
    ensures g == gl.(viewport := g.viewport)
  {
    var r := env.rect;
    var v := if offscreen then MakeRect(EyeShift(position, r.extent.width), 0, CDiv(r.extent.width, 2), r.extent.height)
             else MakeRect(r.Left() + EyeShift(position, env.winX), r.Bottom(), r.extent.width, r.extent.height);
    gl.(viewport := v)
  }

  /** Row, column and checkerboard stencil: draw where the stencil holds
      1 - position, once the pattern is valid. */
  function StencilEye(gl: Gl, env: Env, position: int): (g: Gl)
    ensures g == gl.(stencilTest := g.stencilTest, stencilFunc := g.stencilFunc)
  {
    if env.stencilValid then gl.(stencilFunc := StencilEqual(1 - position), stencilTest := true)
    else gl
  }

  /** Anaglyph: red for the left eye, green and blue for the right one, whose
      depth buffer is cleared first; the mask goes on draw buffer 0 only
      when `env.maskFirstOnly`, on every draw buffer otherwise. */
  function AnaglyphEye(gl: Gl, env: Env, position: int): (s: SetupResult)
    ensures s.gl == gl.(colorMask := s.gl.colorMask, colorMaskRest := s.gl.colorMaskRest) && !s.fallback
  {
    var m := ColorMask(1 - position == 1, position == 1, position == 1, true);
    SetupResult(if env.maskFirstOnly then gl.(colorMask := m) else gl.(colorMask := m, colorMaskRest := m),
                if position == 1 then [ClearDepth] else [], false)
  }

  /** Clone-dynamic: the left eye clears the accumulation buffer, draws to
      the left back buffer and on the first pass tints and accumulates; the
      right eye accumulates and, without an accumulation buffer, reports the
      error and falls back instead of clearing. */
  function CloneDynamicEye(gl: Gl, env: Env, times: int, position: int): (s: SetupResult)
    ensures s.gl == gl.(drawBuffer := s.gl.drawBuffer, emission := s.gl.emission, fog := s.gl.fog)
  {
    if position == 0 then
      var g1 := gl.(drawBuffer := BackLeft);
      if times != 0 then
        SetupResult(g1.(emission := true, fog := false), [ClearAccum, Accum(AccumAddHalf)], false)
      else SetupResult(g1, [ClearAccum], false)
    else
      var acc := Accum(if times != 0 then AccumMinusHalf else AccumHalf);
      if !env.hasAccum then SetupResult(gl, [acc, StereoError(CloneDynamic)], true)
      else SetupResult(gl, [acc, ClearColorDepth], false)
  }

  /** Dynamic: the left eye clears the accumulation buffer and on the first
      pass tints and shifts by half the window width; the right eye
      accumulates (enabling the scissor test on the last pass) and, without
      an accumulation buffer, returns before clearing, reporting and falling
      back unless the setting is crosseye already. */
  function DynamicEye(gl: Gl, env: Env, times: int, position: int): (s: SetupResult)
    ensures s.gl == gl.(viewport := s.gl.viewport, emission := s.gl.emission, fog := s.gl.fog,
                        scissorTest := s.gl.scissorTest)
  {
    var r := env.rect;
    if position == 0 then
      if times != 0 then
        SetupResult(gl.(emission := true, fog := false,
                        viewport := MakeRect(r.Left() + CDiv(env.winX, 2), r.Bottom(), r.extent.width, r.extent.height)),
                    [ClearAccum], false)
      else SetupResult(gl.(viewport := r), [ClearAccum], false)
    else
      var acc := Accum(if times != 0 then AccumMinusHalf else AccumHalf);
      var g1 := if times != 0 then gl else gl.(scissorTest := true);
      if !env.hasAccum then
        if env.modeSetting != Crosseye then SetupResult(g1, [acc, StereoError(Dynamic)], true)
        else SetupResult(g1, [acc], false)
      else SetupResult(if times != 0 then g1 else g1.(scissorTest := false), [acc, ClearColorDepth], false)
  }

  /** `PrepareViewPortForStereoImpl` for eye `position` (0 left, 1 right).
      The other modes (mono, stencil_custom, and OpenVR, whose setup is
      not part of this model) change nothing. */
  function PrepareEye(gl: Gl, env: Env, mode: int, offscreen: bool, times: int,
                      pos: Offset, override: Option<Rect>, position: int): (s: SetupResult)
    requires position == 0 || position == 1
    ensures s.gl.fb == gl.fb && s.gl.depthMask == gl.depthMask && s.gl.depthTest == gl.depthTest
    ensures s.gl.blend == gl.blend && s.gl.scissorBox == gl.scissorBox
    ensures s.fallback ==> (mode == Dynamic || mode == CloneDynamic) && position == 1 && !env.hasAccum
    ensures s.ops != [] ==> mode == Anaglyph || mode == Dynamic || mode == CloneDynamic
    ensures s.ops == [] && !s.fallback ==> mode != Dynamic && mode != CloneDynamic
  {
    if mode == Quadbuffer then SetupResult(QuadbufferEye(gl, env, position), [], false)
    else if mode == Crosseye then
      SetupResult(gl.(viewport := SideBySideViewport(env, offscreen, pos, override, 1 - position)), [], false)
    else if mode == Walleye || mode == Sidebyside then
      SetupResult(gl.(viewport := SideBySideViewport(env, offscreen, pos, override, position)), [], false)
    else if mode == Geowall then SetupResult(GeowallEye(gl, env, offscreen, position), [], false)
    else if mode == StencilByRow || mode == StencilByColumn || mode == StencilCheckerboard then
      SetupResult(StencilEye(gl, env, position), [], false)
    else if mode == Anaglyph then AnaglyphEye(gl, env, position)
    else if mode == CloneDynamic then CloneDynamicEye(gl, env, times, position)
    else if mode == Dynamic then DynamicEye(gl, env, times, position)
    else SetupResult(gl, [], false)
  }

  /** `SetDrawBufferForStereo`: undo what the eye setup changed. The
      clone-dynamic first pass returns the accumulated image into the
      right back buffer (`DrawTo(BackRight)` before the return) and then
      selects the left one. */
  function TeardownEyes(gl: Gl, env: Env, mode: int, times: int, fogActive: bool): (t: TeardownResult)
    ensures t.gl.fb == gl.fb && t.gl.depthMask == gl.depthMask && t.gl.depthTest == gl.depthTest
    ensures t.gl.blend == gl.blend
    ensures t.ops != [] <==> mode == Dynamic || mode == CloneDynamic
    ensures t.gl.viewport != gl.viewport ==> mode == Dynamic && times != 0
    ensures mode == StencilCustom || mode == Geowall ==> t.gl == gl
  {
    var r := env.rect;
    if mode == Quadbuffer then TeardownResult(gl.(drawBuffer := BackLeft), [])
    else if mode == Crosseye || mode == Walleye || mode == Sidebyside || mode == OpenVR then
      TeardownResult(gl.(drawBuffer := Back), [])
    else if mode == StencilByRow || mode == StencilByColumn || mode == StencilCheckerboard then
      TeardownResult(gl.(stencilTest := false), [])
    else if mode == Anaglyph then TeardownResult(gl.(colorMask := AllColors, colorMaskRest := AllColors), [])
    else if mode == CloneDynamic then
      if times != 0 then
        TeardownResult(gl.(emission := false, fog := gl.fog || fogActive, drawBuffer := BackLeft),
                       [Accum(AccumHalf), ClearColorDepth, DrawTo(BackRight), Accum(AccumReturn)])
      else TeardownResult(gl.(drawBuffer := BackLeft), [Accum(AccumHalf), Accum(AccumReturn)])
    else if mode == Dynamic then
      if times != 0 then
        TeardownResult(gl.(emission := false, fog := gl.fog || fogActive,
                           viewport := MakeRect(r.Left(), r.Bottom(), r.extent.width + 2, r.extent.height + 2),
                           scissorBox := MakeRect(r.Left() - 1, r.Bottom() - 1, r.extent.width + 2, r.extent.height + 2),
                           scissorTest := false),
                       [Accum(AccumHalf), ClearColorDepth, Accum(AccumReturn), ClearColorDepth])
      else TeardownResult(gl.(scissorTest := false), [Accum(AccumHalf), Accum(AccumReturn)])
    else TeardownResult(gl, [])
  }

  /* ---------------- viewports ---------------- */

  /** Crosseye is walleye with the eyes swapped. */
  lemma CrosseyeSwapsWalleye(gl: Gl, env: Env, offscreen: bool, times: int,
                             pos: Offset, override: Option<Rect>, position: int)
    requires position == 0 || position == 1
    ensures PrepareEye(gl, env, Crosseye, offscreen, times, pos, override, position).gl ==
            PrepareEye(gl, env, Walleye, offscreen, times, pos, override, 1 - position).gl
  {
  }

  /** The two side-by-side halves have the same size, half the width
      rounded down, and the right half starts where the left one ends: they
      do not overlap and both lie within the area they split. */
  lemma SideBySideHalves(env: Env, offscreen: bool, pos: Offset, override: Option<Rect>)
    requires env.rect.extent.width >= 0
    requires override.Some? ==> override.value.extent.width >= 0
    ensures var l := SideBySideViewport(env, offscreen, pos, override, 0);
            var r := SideBySideViewport(env, offscreen, pos, override, 1);
            var w := if offscreen || override.None? then env.rect.extent.width else override.value.extent.width;
            && l.extent == r.extent
            && l.extent.width == w / 2
            && l.Right() == r.Left()
            && r.Right() <= l.Left() + w
            && (forall x, y :: !(l.Contains(x, y) && r.Contains(x, y)))
  {
    CDivNonNegative(env.rect.extent.width, 2);
    if override.Some? {
      CDivNonNegative(override.value.extent.width, 2);
    }
  }

  /** Each eye of a side-by-side mode gets the half the mode assigns it:
      crosseye puts the left eye on the right, walleye and side-by-side put
      it on the left. */
  lemma SideBySideEyePlacement(gl: Gl, env: Env, mode: int, offscreen: bool, times: int,
                               pos: Offset, override: Option<Rect>, position: int)
    requires position == 0 || position == 1
    requires mode == Crosseye || mode == Walleye || mode == Sidebyside
    ensures PrepareEye(gl, env, mode, offscreen, times, pos, override, position).gl ==
            gl.(viewport := SideBySideViewport(env, offscreen, pos, override,
                                               if mode == Crosseye then 1 - position else position))
  {
  }

  /** On screen, geowall gives each eye the full scene size, moved right by
      half the window width for the right eye. */
  lemma GeowallOnScreen(gl: Gl, env: Env, times: int, pos: Offset, override: Option<Rect>, position: int)
    requires position == 0 || position == 1
    ensures var v := PrepareEye(gl, env, Geowall, false, times, pos, override, position).gl.viewport;
            && v.extent == env.rect.extent
            && v.Bottom() == env.rect.Bottom()
            && v.Left() == env.rect.Left() + (if position == 0 then 0 else CDiv(env.winX, 2))
  {
  }

  /** Quad-buffered stereo draws each eye over the whole scene block into
      that eye's back buffer; the teardown returns to the left back buffer. */
  lemma QuadbufferEyes(gl: Gl, env: Env, offscreen: bool, times: int,
                       pos: Offset, override: Option<Rect>, position: int, fogActive: bool)
    requires position == 0 || position == 1
    ensures var s := PrepareEye(gl, env, Quadbuffer, offscreen, times, pos, override, position);
            && s.gl.viewport == env.rect
            && s.gl.drawBuffer == (if position == 0 then BackLeft else BackRight)
            && s.ops == []
            && TeardownEyes(s.gl, env, Quadbuffer, times, fogActive).gl.drawBuffer == BackLeft
  {
  }

  /* ---------------- setup and teardown pairing ---------------- */

  /** In the row, column and checkerboard modes an eye draws only where the
      stencil holds 1 - position, and only once the stencil pattern is
      valid; the teardown turns the stencil test off. The custom stencil
      mode changes nothing either way. */
  lemma StencilEyes(gl: Gl, env: Env, mode: int, offscreen: bool, times: int,
                    pos: Offset, override: Option<Rect>, position: int, fogActive: bool)
    requires position == 0 || position == 1
    requires ViaStencil(mode)
    ensures var s := PrepareEye(gl, env, mode, offscreen, times, pos, override, position);
            && (mode != StencilCustom && env.stencilValid ==>
                  s.gl == gl.(stencilTest := true, stencilFunc := StencilEqual(1 - position)))
            && (mode == StencilCustom || !env.stencilValid ==> s.gl == gl)
            && (mode != StencilCustom ==> !TeardownEyes(s.gl, env, mode, times, fogActive).gl.stencilTest)
            && (mode == StencilCustom ==> TeardownEyes(s.gl, env, mode, times, fogActive).gl == s.gl)
  {
    var s := PrepareEye(gl, env, mode, offscreen, times, pos, override, position);
    StencilPrepare(gl, env, mode, offscreen, times, pos, override, position);
    StencilTeardown(s.gl, env, mode, times, fogActive);
  }

  lemma StencilPrepare(gl: Gl, env: Env, mode: int, offscreen: bool, times: int,
                       pos: Offset, override: Option<Rect>, position: int)
    requires position == 0 || position == 1
    requires ViaStencil(mode)
    ensures PrepareEye(gl, env, mode, offscreen, times, pos, override, position).gl ==
            if mode == StencilCustom then gl else StencilEye(gl, env, position)
  {
  }

  lemma StencilTeardown(g: Gl, env: Env, mode: int, times: int, fogActive: bool)
    requires ViaStencil(mode)
    ensures mode != StencilCustom ==> TeardownEyes(g, env, mode, times, fogActive).gl == g.(stencilTest := false)
    ensures mode == StencilCustom ==> TeardownEyes(g, env, mode, times, fogActive).gl == g
  {
  }

  /** Anaglyph: the left eye writes red only, the right eye green and blue
      (alpha always), into draw buffer 0 and, unless only the first buffer
      is masked, into the others too; the right eye starts from a cleared
      depth buffer, and the teardown writes all colours to every buffer
      again. */
  lemma AnaglyphEyes(gl: Gl, env: Env, offscreen: bool, times: int,
                     pos: Offset, override: Option<Rect>, position: int, fogActive: bool)
    requires position == 0 || position == 1
    ensures var s := PrepareEye(gl, env, Anaglyph, offscreen, times, pos, override, position);
            var m := ColorMask(position == 0, position == 1, position == 1, true);
            && s.gl.colorMask == m
            && (s.gl.colorMaskRest == m <==> !env.maskFirstOnly || gl.colorMaskRest == m)
            && s.gl == gl.(colorMask := m, colorMaskRest := s.gl.colorMaskRest)
            && (ClearDepth in s.ops <==> position == 1)
            && TeardownEyes(s.gl, env, Anaglyph, times, fogActive).gl.colorMask == AllColors
            && TeardownEyes(s.gl, env, Anaglyph, times, fogActive).gl.colorMaskRest == AllColors
  {
  }

  /* ---------------- the accumulation-buffer fallback ---------------- */

  /** Clone-dynamic without an accumulation buffer: the right eye reports
      the error, falls back, and returns before clearing colour and depth;
      with one it clears and goes on. */
  lemma CloneDynamicFallback(gl: Gl, env: Env, offscreen: bool, times: int,
                             pos: Offset, override: Option<Rect>)
    ensures var s := PrepareEye(gl, env, CloneDynamic, offscreen, times, pos, override, 1);
            && (s.fallback <==> !env.hasAccum)
            && (StereoError(CloneDynamic) in s.ops <==> !env.hasAccum)
            && (ClearColorDepth in s.ops <==> env.hasAccum)
            && s.ops[0] == Accum(if times != 0 then AccumMinusHalf else AccumHalf)
  {
  }

  /** Dynamic without an accumulation buffer: the right eye returns before
      clearing in any case, but reports and falls back only when the
      `stereo_mode` setting is not crosseye already. */
  lemma DynamicFallback(gl: Gl, env: Env, offscreen: bool, times: int,
                        pos: Offset, override: Option<Rect>)
    ensures var s := PrepareEye(gl, env, Dynamic, offscreen, times, pos, override, 1);
            && (s.fallback <==> !env.hasAccum && env.modeSetting != Crosseye)
            && (StereoError(Dynamic) in s.ops <==> s.fallback)
            && (ClearColorDepth in s.ops <==> env.hasAccum)
            && (!env.hasAccum && times == 0 ==> s.gl.scissorTest)
  {
  }

  /** The fallback is taken only by the right eye of the two accumulation
      modes, only without an accumulation buffer, and never from crosseye,
      the mode it falls back to. */
  lemma FallbackOnlyForAccumulation(gl: Gl, env: Env, mode: int, offscreen: bool, times: int,
                                    pos: Offset, override: Option<Rect>, position: int)
    requires position == 0 || position == 1
    ensures var s := PrepareEye(gl, env, mode, offscreen, times, pos, override, position);
            s.fallback ==> (mode == Dynamic || mode == CloneDynamic) && position == 1 && !env.hasAccum
    ensures mode == Crosseye ==> !PrepareEye(gl, env, mode, offscreen, times, pos, override, position).fallback
  {
  }

  /** The accumulation modes finish every frame by accumulating the right
      eye's image at weight 0.5 and returning the accumulation buffer, and
      end the stereo tint; on the first pass
      the colour and depth buffers are cleared for the next one. */
  lemma AccumulationTeardown(gl: Gl, env: Env, mode: int, times: int, fogActive: bool)
    requires mode == Dynamic || mode == CloneDynamic
    ensures var t := TeardownEyes(gl, env, mode, times, fogActive);
            && t.ops[0] == Accum(AccumHalf)
            && Accum(AccumReturn) in t.ops
            && (ClearColorDepth in t.ops <==> times != 0)
            && !t.gl.emission == (times != 0 || !gl.emission)
            && (mode == CloneDynamic ==> t.gl.drawBuffer == BackLeft)
            && (mode == Dynamic ==> !t.gl.scissorTest)
  {
    var t := TeardownEyes(gl, env, mode, times, fogActive);
    var r := env.rect;
    if mode == CloneDynamic {
      if times != 0 {
        assert t.gl == gl.(emission := false, fog := gl.fog || fogActive, drawBuffer := BackLeft);
        assert t.ops == [Accum(AccumHalf), ClearColorDepth, DrawTo(BackRight), Accum(AccumReturn)];
      } else {
        assert t.gl == gl.(drawBuffer := BackLeft);
        assert t.ops == [Accum(AccumHalf), Accum(AccumReturn)];
      }
    } else {
      if times != 0 {
        assert t.ops == [Accum(AccumHalf), ClearColorDepth, Accum(AccumReturn), ClearColorDepth];
        assert !t.gl.emission && !t.gl.scissorTest;
      } else {
        assert t.gl == gl.(scissorTest := false);
        assert t.ops == [Accum(AccumHalf), Accum(AccumReturn)];
      }
    }
  }

  /** Where the accumulated image goes: clone-dynamic's first pass selects
      the right back buffer just before the return, and no other teardown
      of the accumulation modes switches buffers before returning. */
  lemma AccumulationReturnTarget(gl: Gl, env: Env, mode: int, times: int, fogActive: bool)
    requires mode == Dynamic || mode == CloneDynamic
    ensures var t := TeardownEyes(gl, env, mode, times, fogActive);
            exists i :: 0 < i < |t.ops| && t.ops[i] == Accum(AccumReturn)
                        && (t.ops[i - 1] == DrawTo(BackRight) <==> mode == CloneDynamic && times != 0)
    ensures var t := TeardownEyes(gl, env, mode, times, fogActive);
            DrawTo(BackRight) in t.ops <==> mode == CloneDynamic && times != 0
  {
    var ops := TeardownEyes(gl, env, mode, times, fogActive).ops;
    if mode == CloneDynamic && times != 0 {
      assert ops == [Accum(AccumHalf), ClearColorDepth, DrawTo(BackRight), Accum(AccumReturn)];
      assert ops[3] == Accum(AccumReturn) && ops[2] == DrawTo(BackRight);
    } else if times != 0 {
      assert ops == [Accum(AccumHalf), ClearColorDepth, Accum(AccumReturn), ClearColorDepth];
      assert ops[2] == Accum(AccumReturn) && ops[1] != DrawTo(BackRight);
    } else {
      assert ops == [Accum(AccumHalf), Accum(AccumReturn)];
      assert ops[1] == Accum(AccumReturn) && ops[0] != DrawTo(BackRight);
    }
  }
}
