/** The scene renderer (layer1/SceneRender.cpp): the deferred viewport
    record, the per-eye setup and teardown applied to the device, the
    stencil pattern, the anti-aliasing pass, `DoRendering`, the stereo loop
    and `SceneRender` itself. */
module Scene {
  import opened Geometry
  import opened Device
  import opened Grid
  import opened Stereo
  import opened EyeSetup
  import opened PostProcess
  import opened StencilPattern
  import opened Objects
  import opened Outline
  import opened Schedule

  /** The three viewport-preparation functions the scene can defer:
      `PrepareViewPortForMonoInitializeViewPort`, `PrepareViewPortForStereo`
      and `PrepareViewPortForStereo2nd`. */
  datatype PrepareFn = MonoInitialize | StereoLeft | StereoRight

  /** `vp_prepareViewPortForStereo`, `vp_times`, `vp_pos`, `vp_oversize`,
      `vp_stereo_mode`: how to re-establish the current viewport. */
  datatype Deferred = Deferred(fn: PrepareFn, times: int, pos: Offset, override: Option<Rect>, stereoMode: int)

  /** The global settings the renderer reads: `stereo`, `stereo_mode`,
      `stereo_double_pump_mono`, `use_shaders`, `transparency_mode`,
      `antialias_shader`. */
  datatype Settings = Settings(stereo: bool, stereoMode: int, doublePumpMono: bool,
                               useShaders: bool, transparencyMode: int, antialiasShader: int)

  /** `SceneRenderInfo`: a pick (or multi-pick) request, an offscreen
      render, an explicit framebuffer, the mouse position, an explicit
      viewport, whether selections are left out, and which objects. */
  datatype RenderInfo = RenderInfo(pick: bool, offscreen: bool, offscreenConfig: Option<FbConfig>,
                                   pos: Offset, override: Option<Rect>,
                                   excludeSelections: bool, which: bv8)

  /** What a deferred preparation does to the device: new state, calls, and
      whether the accumulation-buffer fallback was taken. */
  datatype Effect = Effect(gl: Gl, events: seq<Event>, fallback: bool)

  /** `GLFramebufferConfig{}`: the window framebuffer and its first colour
      attachment (the member defaults come from a header that is not part of
      this model). */
  const BlankConfig := FbConfig(DefaultFb, ColorAttachment0)

  function PrepareEffect(fn: PrepareFn, gl: Gl, env: Env, mode: int, offscreen: bool, times: int,
                         pos: Offset, override: Option<Rect>): Effect
  {
    match fn
    case MonoInitialize => Effect(gl.(viewport := ScreenBlock(env, pos, override)), [], false)
    case StereoLeft =>
      var s := PrepareEye(gl, env, mode, offscreen, times, pos, override, 0);
      Effect(s.gl, [Setup(0, s.ops)], s.fallback)
    case StereoRight =>
      var s := PrepareEye(gl, env, mode, offscreen, times, pos, override, 1);
      Effect(s.gl, [Setup(1, s.ops)], s.fallback)
  }

  /** The settings after a preparation: the fallback sets `stereo_mode` to
      crosseye and switches stereo off. */
  function AfterFallback(s: Settings, fallback: bool): Settings
  {
    if fallback then s.(stereoMode := Crosseye, stereo := false) else s
  }

  /** What re-running a deferred preparation `d` does from device state
      `gl`: on the window the viewport is first reset to the screen block
      and the recorded mode adjusted; the result is the updated record and
      the preparation's effect. */
  function Replay(gl: Gl, env: Env, d: Deferred): (r: (Deferred, Effect))
    ensures r.0 == d.(stereoMode := r.0.stereoMode)
    ensures r.0.stereoMode != d.stereoMode <==> gl.fb == DefaultFb && d.override.Some? && d.stereoMode == Geowall
    ensures r.0.stereoMode != d.stereoMode ==> r.0.stereoMode == Mono
    ensures r.1.gl.fb == gl.fb
    ensures d.fn == MonoInitialize ==>
              r.1 == Effect(gl.(viewport := ScreenBlock(env, d.pos, d.override)), [], false)
    ensures d.fn != MonoInitialize ==>
              |r.1.events| == 1 && r.1.events[0].Setup? &&
              r.1.events[0].position == if d.fn == StereoLeft then 0 else 1
  {
    var onScreen := gl.fb == DefaultFb;
    var mode := if onScreen then ScreenBlockMode(d.stereoMode, d.override.Some?) else d.stereoMode;
    var gl1 := if onScreen then gl.(viewport := ScreenBlock(env, d.pos, d.override)) else gl;
    (d.(stereoMode := mode), PrepareEffect(d.fn, gl1, env, mode, false, d.times, d.pos, d.override))
  }

  /** A deferred preparation makes no `DoRendering` call. */
  lemma EffectHasNoBrackets(fn: PrepareFn, gl: Gl, env: Env, mode: int, offscreen: bool, times: int,
                            pos: Offset, override: Option<Rect>)
    ensures NoBrackets(PrepareEffect(fn, gl, env, mode, offscreen, times, pos, override).events)
  {
  }

  /** A whole `DoRendering` shows in the outline as its opening marker. */
  lemma DrawnOutline(c: Cfg, reinit: seq<Event>, b: Event)
    requires NoBrackets(reinit) && b.BeginDoRendering?
    ensures Scan([b] + DoRenderingEvents(c, reinit) + [EndDoRendering]) == ScanState([b], false)
  {
    ScheduleHasNoBrackets(c, reinit);
    ScanDraw(b, DoRenderingEvents(c, reinit));
  }

  /** The stencil pattern `SceneRender` draws when `build` holds: the lines
      of the mode over the current viewport. */
  function StencilBuild(build: bool, mode: int, viewport: Rect, parity: int): seq<Event>
  {
    if build then [StencilPattern(StencilLines(mode, viewport.extent.width, viewport.extent.height, parity))] else []
  }

  /** The framebuffer `SceneRender` renders into: the one the caller
      passes, else the offscreen target for an offscreen render, else the
      window with the render buffer chosen for the stereo mode. */
  function TargetImage(info: RenderInfo, renderBuffer: DrawBuffer): (t: FbConfig)
    ensures info.offscreenConfig.Some? ==> t == info.offscreenConfig.value
    ensures info.offscreenConfig.None? ==> (t.fb == DefaultFb <==> !info.offscreen)
    ensures info.offscreenConfig.None? && !info.offscreen ==> t.drawBuffer == renderBuffer
    ensures info.offscreenConfig.None? && info.offscreen ==> t.drawBuffer == BlankConfig.drawBuffer
  {
    var fb := if info.offscreen then OrthoOffscreen else DefaultFb;
    var t := FbConfig(fb, if fb == DefaultFb then renderBuffer else BlankConfig.drawBuffer);
    if info.offscreenConfig.Some? then info.offscreenConfig.value else t
  }

  /** The stereo loop `SceneRender` runs: `times` from the mode, the stereo
      decision, no texture target, objects and selections together. */
  function FrameParams(d: Decision, mode: int, gridActive: bool, flag: int, blend: int): LoopParams
  {
    LoopParams(Times(mode), d.mustRender, mode, false, gridActive, false, false, flag, blend)
  }

  /** The outline of one `SceneRender`: the stencil pattern when it is
      built, then either the picking render or the background and the
      stereo loop. */
  function FrameOutline(stencil: seq<Event>, pick: bool, p: LoopParams): seq<Event>
  {
    stencil + (if pick then [Picking] else [BgGradient] + LoopOutline(p, p.times))
  }

  /** A pick draws nothing; a frame draws the scene `times` times per eye. */
  lemma FrameDraws(stencil: seq<Event>, pick: bool, p: LoopParams)
    requires NoBrackets(stencil) && p.times >= 0
    ensures DrawCount(FrameOutline(stencil, pick, p)) ==
              if pick then 0 else if p.stereo then 2 * p.times else p.times
  {
    NoDraws(stencil);
    var rest := if pick then [Picking] else [BgGradient] + LoopOutline(p, p.times);
    DrawCountAppend(stencil, rest);
    if pick {
      NoDraws([Picking]);
    } else {
      NoDraws([BgGradient]);
      LoopDraws(p, p.times);
      DrawCountAppend([BgGradient], LoopOutline(p, p.times));
    }
  }

  /** A mono frame is the background followed by `times` draws, `times`
      counting down to 0, with the anaglyph flags cleared. */
  lemma MonoFrame(stencil: seq<Event>, d: Decision, mode: int, gridActive: bool, flag: int, blend: int)
    requires !d.mustRender
    ensures FrameOutline(stencil, false, FrameParams(d, mode, gridActive, flag, blend)) ==
              stencil + [BgGradient] + seq(Times(mode), i => BeginDoRendering(Times(mode) - 1 - i, 0, 0))
  {
    MonoLoopTimes(FrameParams(d, mode, gridActive, flag, blend), Times(mode));
  }

  /** The stencil lines `SceneDrawStencilInBuffer` draws over a w x h
      viewport for a stereo mode; modes without a pattern draw none. */
  function StencilLines(mode: int, w: int, h: int, parity: int): seq<Line>
  {
    if mode == StencilByRow then RowPattern(w, h, parity)
    else if mode == StencilByColumn then ColumnPattern(w, h)
    else if mode == StencilCheckerboard then CheckerPattern(w, h)
    else []
  }

  class Scene {
    const dev: Device
    const grid: GridInfo
    /** `SceneGetRect`: `I->rect.left`, `I->rect.bottom`, `I->Width`, `I->Height`. */
    const rect: Rect
    /** `G->Option->winX`. */
    const winX: int
    /** `I->StencilParity`. */
    const stencilParity: int
    /** `TM3_IS_ONEBUF`: order-independent transparency with one buffer. */
    const oneBuf: bool
    /** The `SceneRenderWhich` bit values. */
    const enc: WhichEncoding
    /** Whether the GUI exists and the GL context is valid. */
    const validContext: bool
    /** `I->StereoMode`. */
    var stereoMode: int
    /** `I->StencilValid`. */
    var stencilValid: bool
    var settings: Settings
    var vp: Option<Deferred>
    /** `I->offscreenCGO`: the built anti-aliasing stages, if any. */
    var offscreenCGO: Option<seq<AAStage>>

    constructor (d: Device, g: GridInfo, r: Rect, wx: int, parity: int, one: bool,
                 e: WhichEncoding, valid: bool, s: Settings, mode: int)
      ensures dev == d && grid == g && rect == r && winX == wx && stencilParity == parity
      ensures oneBuf == one && enc == e && validContext == valid && settings == s && stereoMode == mode
      ensures !stencilValid && vp.None? && offscreenCGO.None?
    {
      dev, grid, rect, winX, stencilParity, oneBuf, enc, validContext := d, g, r, wx, parity, one, e, valid;
      settings, stereoMode := s, mode;
      stencilValid, vp, offscreenCGO := false, None, None;
    }

    /** What the eye setup reads of the scene. */
    function Env(): Env
      reads this
    {
      EyeSetup.Env(rect, winX, dev.hasAccumBuffer, settings.stereoMode, stencilValid,
                   !oneBuf && dev.hasGl30 && settings.transparencyMode == 3)
    }

    /** `SceneSetPrepareViewPortForStereo`. */
    method SetPrepareViewPortForStereo(fn: PrepareFn, times: int, pos: Offset, override: Option<Rect>, mode: int)
      modifies this`vp
      ensures vp == Some(Deferred(fn, times, pos, override, mode))
    {
      vp := Some(Deferred(fn, times, pos, override, mode));
    }

    /** `InitializeViewPortToScreenBlock`: the viewport becomes the screen
        block; an explicit viewport turns geowall into mono. */
    method InitializeViewPortToScreenBlock(pos: Offset, override: Option<Rect>, mode: int) returns (m: int)
      modifies dev`gl
      ensures dev.gl == old(dev.gl).(viewport := ScreenBlock(Env(), pos, override))
      ensures m == ScreenBlockMode(mode, override.Some?)
    {
      if override.Some? {
        var want := Rect(Offset(override.value.offset.x + pos.x, override.value.offset.y + pos.y),
                         override.value.extent);
        dev.SetViewport(want);
        m := if mode == Geowall then Mono else mode;
      } else {
        dev.SetViewport(rect);
        m := mode;
      }
    }

    /** `PrepareViewPortForStereoImpl` for eye `position`; on the
        accumulation-buffer fallback `stereo_mode` becomes crosseye and
        `SceneSetStereo(G, 0)` switches stereo off. */
    method PrepareViewPortForStereoImpl(mode: int, offscreen: bool, times: int, pos: Offset,
                                        override: Option<Rect>, position: int)
      requires position == 0 || position == 1
      modifies dev`gl, dev`trace, this`settings, this`stereoMode
      ensures var s := PrepareEye(old(dev.gl), old(Env()), mode, offscreen, times, pos, override, position);
              && dev.gl == s.gl
              && dev.trace == old(dev.trace) + [Setup(position, s.ops)]
              && settings == AfterFallback(old(settings), s.fallback)
              && stereoMode == if s.fallback then Mono else old(stereoMode)
    {
      var s := PrepareEye(dev.gl, Env(), mode, offscreen, times, pos, override, position);
      dev.gl := s.gl;
      dev.Emit(Setup(position, s.ops));
      if s.fallback {
        settings := settings.(stereoMode := Crosseye, stereo := false);
        stereoMode := Mono;
      }
    }

    /** Call one of the three preparation functions. */
    method RunPrepare(fn: PrepareFn, mode: int, offscreen: bool, times: int, pos: Offset, override: Option<Rect>)
      modifies dev`gl, dev`trace, this`settings, this`stereoMode
      ensures var e := PrepareEffect(fn, old(dev.gl), old(Env()), mode, offscreen, times, pos, override);
              && dev.gl == e.gl
              && dev.trace == old(dev.trace) + e.events
              && settings == AfterFallback(old(settings), e.fallback)
              && stereoMode == if e.fallback then Mono else old(stereoMode)
    {
      match fn
      case MonoInitialize =>
        var _ := InitializeViewPortToScreenBlock(pos, override, mode);
      case StereoLeft =>
        PrepareViewPortForStereoImpl(mode, offscreen, times, pos, override, 0);
      case StereoRight =>
        PrepareViewPortForStereoImpl(mode, offscreen, times, pos, override, 1);
    }

    /** `SetDrawBufferForStereo`: undo the eye setup after the right eye. */
    method SetDrawBufferForStereo(mode: int, times: int, fogActive: bool)
      modifies dev`gl, dev`trace
      ensures var t := TeardownEyes(old(dev.gl), Env(), mode, times, fogActive);
              dev.gl == t.gl && dev.trace == old(dev.trace) + [Teardown(t.ops)]
    {
      var t := TeardownEyes(dev.gl, Env(), mode, times, fogActive);
      dev.gl := t.gl;
      dev.Emit(Teardown(t.ops));
    }

    /** `SceneInitializeViewport`: offscreen, the whole image; otherwise
        re-run the deferred preparation (see `Replay`). Without a deferred
        preparation it reports an error. */
    method InitializeViewport(offscreen: bool) returns (ghost added: seq<Event>)
      modifies dev`gl, dev`trace, this`settings, this`stereoMode, this`vp
      ensures dev.trace == old(dev.trace) + added && NoBrackets(added)
      ensures offscreen ==> dev.gl == old(dev.gl).(viewport := MakeRect(0, 0, rect.extent.width, rect.extent.height))
                            && added == [] && vp == old(vp) && settings == old(settings)
                            && stereoMode == old(stereoMode)
      ensures !offscreen && old(vp).None? ==>
                && dev.gl == old(dev.gl) && added == [ViewportInitError]
                && vp == old(vp) && settings == old(settings) && stereoMode == old(stereoMode)
      ensures !offscreen && old(vp).Some? ==>
                var r := Replay(old(dev.gl), old(Env()), old(vp).value);
                && vp == Some(r.0) && dev.gl == r.1.gl && added == r.1.events
                && settings == AfterFallback(old(settings), r.1.fallback)
                && stereoMode == if r.1.fallback then Mono else old(stereoMode)
    {
      if offscreen {
        dev.SetViewport(MakeRect(0, 0, rect.extent.width, rect.extent.height));
        added := [];
      } else if vp.Some? {
        added := ReplayDeferred();
      } else {
        dev.Emit(ViewportInitError);
        added := [ViewportInitError];
      }
    }

    /** Re-run the deferred preparation, first resetting the viewport to the
        screen block when drawing to the window (which may turn the recorded
        geowall mode into mono). */
    method ReplayDeferred() returns (ghost added: seq<Event>)
      requires vp.Some?
      modifies dev`gl, dev`trace, this`settings, this`stereoMode, this`vp
      ensures dev.trace == old(dev.trace) + added && NoBrackets(added)
      ensures var r := Replay(old(dev.gl), old(Env()), old(vp).value);
              && vp == Some(r.0) && dev.gl == r.1.gl && added == r.1.events
              && settings == AfterFallback(old(settings), r.1.fallback)
              && stereoMode == if r.1.fallback then Mono else old(stereoMode)
    {
      if dev.gl.fb == DefaultFb {
        var m := InitializeViewPortToScreenBlock(vp.value.pos, vp.value.override, vp.value.stereoMode);
        vp := Some(vp.value.(stereoMode := m));
      }
      var d := vp.value;
      ghost var before := dev.trace;
      ghost var gl1 := dev.gl;
      RunPrepare(d.fn, d.stereoMode, false, d.times, d.pos, d.override);
      added := dev.trace[|before|..];
      assert dev.trace == before + added;
      EffectHasNoBrackets(d.fn, gl1, old(Env()), d.stereoMode, false, d.times, d.pos, d.override);
    }

    /** `SceneDrawStencilInBuffer`: write the interleaving pattern of the
        stencil mode over the current viewport and leave the stencil test
        on, passing everywhere with reference 1. */
    method DrawStencilInBuffer(mode: int)
      modifies dev`gl, dev`trace
      ensures dev.trace == old(dev.trace) +
                [StencilPattern(StencilLines(mode, old(dev.gl).viewport.extent.width,
                                             old(dev.gl).viewport.extent.height, stencilParity))]
      ensures dev.gl == old(dev.gl).(fog := false, depthTest := false, blend := false,
                                     stencilTest := true, stencilFunc := StencilAlways(1),
                                     colorMask := AllColors, colorMaskRest := AllColors, depthMask := true)
    {
      var w := dev.gl.viewport.extent.width;
      var h := dev.gl.viewport.extent.height;
      dev.gl := dev.gl.(fog := false, depthTest := false, blend := false, stencilTest := false,
                        colorMask := ColorMask(false, false, false, false),
                        colorMaskRest := ColorMask(false, false, false, false), depthMask := false);
      dev.gl := dev.gl.(stencilTest := true, stencilFunc := StencilAlways(1));
      var lines: seq<Line> := [];
      if mode == StencilByRow {
        lines := RowLines(w, h, stencilParity);
      } else if mode == StencilByColumn {
        lines := ColumnLines(w, h);
      } else if mode == StencilCheckerboard {
        lines := CheckerLines(w, h);
      }
      dev.Emit(StencilPattern(lines));
      dev.gl := dev.gl.(colorMask := AllColors, colorMaskRest := AllColors, depthMask := true);
    }

    /** `SceneRenderAA`: build the stage list on first use (when the unit
        quad can be built), then, if there is one, render it into `fbConfig`. */
    method RenderAA(fbConfig: FbConfig)
      modifies dev`gl, dev`trace, this`offscreenCGO
      ensures offscreenCGO ==
                if old(offscreenCGO).None? && dev.canBuildUnitQuad
                then Some(AAStages(settings.antialiasShader)) else old(offscreenCGO)
      ensures dev.trace == old(dev.trace) + (if offscreenCGO.Some? then [PostProcess(offscreenCGO.value)] else [])
      ensures dev.gl == old(dev.gl).(fb := fbConfig.fb, drawBuffer := fbConfig.drawBuffer,
                                     depthTest := if offscreenCGO.Some? then true else old(dev.gl).depthTest)
    {
      var ok := true;
      dev.gl := dev.gl.(fb := fbConfig.fb, drawBuffer := fbConfig.drawBuffer);
      if offscreenCGO.None? {
        ok := dev.canBuildUnitQuad;
        if ok {
          offscreenCGO := Some(AAStages(settings.antialiasShader));
        }
      }
      if ok && offscreenCGO.Some? {
        dev.Emit(PostProcess(offscreenCGO.value));
        dev.gl := dev.gl.(depthTest := true, fb := fbConfig.fb, drawBuffer := fbConfig.drawBuffer);
      }
    }

    /** `SceneRenderPostProcessStack`. */
    method RenderPostProcessStack(parent: FbConfig)
      modifies dev`gl, dev`trace, this`offscreenCGO
      ensures offscreenCGO ==
                if old(offscreenCGO).None? && dev.canBuildUnitQuad
                then Some(AAStages(settings.antialiasShader)) else old(offscreenCGO)
      ensures dev.trace == old(dev.trace) + [PostProcessStack] +
                (if offscreenCGO.Some? then [PostProcess(offscreenCGO.value)] else [])
      ensures dev.gl == old(dev.gl).(fb := parent.fb, drawBuffer := parent.drawBuffer,
                                     depthTest := if offscreenCGO.Some? then true else old(dev.gl).depthTest)
    {
      dev.Emit(PostProcessStack);
      RenderAA(parent);
    }

    /* ---------------- DoRendering ---------------- */

    /** What `DoRendering` decides on, read from the settings, the grid, the
        scene and the framebuffer bound on entry. */
    function Config(onlySelections: bool, excludeSelections: bool, which: bv8): Cfg
      reads this, grid, dev
    {
      Cfg(settings.useShaders && settings.transparencyMode == 3, onlySelections, excludeSelections,
          grid.active, grid.mode, grid.lastSlot, which, enc, dev.gl.fb == DefaultFb, oneBuf)
    }

    /** The grid fields and scene constants a configuration was read from. */
    predicate Describes(c: Cfg)
      reads grid
    {
      c.active == grid.active && c.mode == grid.mode && c.lastSlot == grid.lastSlot &&
      c.enc == enc && c.oneBuf == oneBuf
    }

    /** `GridSetViewport` as the render loops see it: only the viewport
        changes, and slot -1 restores the current view. */
    method SetGridViewport(s: int)
      requires grid.Valid()
      modifies dev`gl, grid`slot, grid`context, grid`curViewportSize
      ensures s < 0 ==> dev.gl.viewport == grid.curView
    {
      grid.SetViewport(dev, s);
    }

    /** The start of a slot: the editor (unless OIT draws it with the
        objects) and the debugging geometry, both skipped when only
        selections are drawn. */
    method SlotPrelude(c: Cfg)
      modifies dev`trace
      ensures dev.trace == old(dev.trace) +
                (if !c.onlySelections && !TMode3(c) then [EditorRender] else []) +
                (if !c.onlySelections then [DebugRender] else [])
    {
      var tMode3 := !c.onlySelections && c.tMode3Os;
      if !c.onlySelections && !tMode3 {
        dev.Emit(EditorRender);
      }
      if !c.onlySelections {
        dev.Emit(DebugRender);
      }
    }

    /** The object renders of a slot. Without OIT all three passes are
        drawn here and `cont` is cleared. */
    method SlotObjects(c: Cfg, pass: Pass) returns (clears: bool)
      requires Describes(c)
      modifies dev`gl, dev`trace
      ensures dev.trace == old(dev.trace) + ObjectRenders(c, pass)
      ensures clears <==> !c.onlySelections && !TMode3(c)
      ensures dev.gl.viewport == old(dev.gl.viewport)
    {
      var tMode3 := !c.onlySelections && c.tMode3Os;
      clears := false;
      if !c.onlySelections {
        if tMode3 {
          OitObjects(c, pass);
        } else {
          AllPassObjects(c);
          clears := true;
        }
      } else if c.tMode3Os && pass == Opaque {
        GadgetsOnly(c);
      } else {
        assert ObjectRenders(c, pass) == [];
      }
    }

    /** With OIT: the current pass for the non-gadgets, after the editor on
        the opaque pass. */
    method OitObjects(c: Cfg, pass: Pass)
      requires Describes(c) && TMode3(c)
      modifies dev`trace
      ensures dev.trace == old(dev.trace) + ObjectRenders(c, pass)
    {
      ghost var editor := if pass == Opaque then [EditorRender] else [];
      if pass == Opaque {
        dev.Emit(EditorRender);
      }
      dev.Emit(RenderAll(pass, c.which & enc.nonGadgets, Undefined));
      AppendAssoc(old(dev.trace), editor, [RenderAll(pass, c.which & enc.nonGadgets, Undefined)]);
    }

    /** Without OIT: the three passes for all objects, gadgets last. */
    method AllPassObjects(c: Cfg)
      requires Describes(c) && !c.onlySelections && !TMode3(c)
      modifies dev`trace
      ensures forall pass :: dev.trace == old(dev.trace) + ObjectRenders(c, pass)
    {
      var passes := [Opaque, Antialias, Transparent];
      var objs := [RenderAll(Opaque, c.which & enc.all, GadgetsLast),
                   RenderAll(Antialias, c.which & enc.all, GadgetsLast),
                   RenderAll(Transparent, c.which & enc.all, GadgetsLast)];
      var k := 0;
      while k < 3
        invariant 0 <= k <= 3
        invariant dev.trace == old(dev.trace) + objs[..k]
      {
        dev.Emit(RenderAll(passes[k], c.which & enc.all, GadgetsLast));
        assert objs[..k + 1] == objs[..k] + [objs[k]];
        AppendAssoc(old(dev.trace), objs[..k], [objs[k]]);
        k := k + 1;
      }
      assert objs[..3] == objs;
    }

    /** Only selections, with OIT on: the gadgets, drawn as transparent with
        blending on the opaque pass. */
    method GadgetsOnly(c: Cfg)
      requires Describes(c) && c.onlySelections && c.tMode3Os
      modifies dev`gl, dev`trace
      ensures dev.trace == old(dev.trace) + ObjectRenders(c, Opaque)
      ensures dev.gl == old(dev.gl).(blend := false)
    {
      dev.gl := dev.gl.(blend := true);
      dev.Emit(RenderAll(Transparent, c.which & enc.gadgets, Undefined));
      dev.gl := dev.gl.(blend := false);
    }

    /** The selections of a slot, drawn here unless OIT defers them. */
    method SlotSelections(c: Cfg, slot: int)
      requires Describes(c)
      modifies dev`trace
      ensures dev.trace == old(dev.trace) +
                (if !TMode3(c) && !c.excludeSelections then Selections(c, slot) else [])
    {
      var tMode3 := !c.onlySelections && c.tMode3Os;
      if !tMode3 && !c.excludeSelections {
        if !grid.active || slot > 0 {
          var s := if grid.active && grid.mode == ByObject then slot else 0;
          dev.Emit(RenderSelections(s));
        }
      }
    }

    /** One slot of the slot loop, after its viewport is set. Reports
        whether it cleared `cont` (objects drawn without OIT). */
    method SlotBody(c: Cfg, pass: Pass, slot: int) returns (clears: bool)
      requires Describes(c)
      modifies dev`gl, dev`trace
      ensures dev.trace == old(dev.trace) + SlotEvents(c, pass, slot)
      ensures clears <==> !c.onlySelections && !TMode3(c)
      ensures dev.gl.viewport == old(dev.gl.viewport)
    {
      ghost var a := if !c.onlySelections && !TMode3(c) then [EditorRender] else [];
      ghost var b := if !c.onlySelections then [DebugRender] else [];
      ghost var sel := if !TMode3(c) && !c.excludeSelections then Selections(c, slot) else [];
      SlotPrelude(c);
      AppendAssoc(old(dev.trace), a, b);
      clears := SlotObjects(c, pass);
      AppendAssoc(old(dev.trace), a + b, ObjectRenders(c, pass));
      SlotSelections(c, slot);
      AppendAssoc(old(dev.trace), a + b + ObjectRenders(c, pass), sel);
    }

    /** The slot loop of one pass: slots 0 .. `last_slot`, each with its
        grid viewport; with the grid off only slot 0. Reports whether a slot
        cleared `cont`. */
    method SlotLoopRun(c: Cfg, pass: Pass) returns (cleared: bool)
      requires Describes(c) && grid.Valid()
      modifies dev`gl, dev`trace, grid`slot, grid`context, grid`curViewportSize
      ensures dev.trace == old(dev.trace) + SlotLoop(c, pass, SlotCount(c))
      ensures cleared <==> !c.onlySelections && !TMode3(c) && SlotCount(c) > 0
      ensures !grid.active ==> dev.gl.viewport == old(dev.gl.viewport)
    {
      cleared := false;
      var slot := 0;
      while slot <= grid.lastSlot
        invariant 0 <= slot <= SlotCount(c)
        invariant !grid.active ==> slot <= 1
        invariant dev.trace == old(dev.trace) + SlotLoop(c, pass, slot)
        invariant cleared <==> !c.onlySelections && !TMode3(c) && slot > 0
        invariant !grid.active ==> dev.gl.viewport == old(dev.gl.viewport)
        decreases grid.lastSlot - slot
      {
        if grid.active {
          SetGridViewport(slot);
        } else if slot > 0 {
          break;
        }
        ghost var before := dev.trace;
        var clears := SlotBody(c, pass, slot);
        if clears {
          cleared := true;
        }
        AppendAssoc(old(dev.trace), SlotLoop(c, pass, slot), SlotEvents(c, pass, slot));
        slot := slot + 1;
      }
    }

    /** The selection loop after the OIT composite: every slot gets its
        viewport, and the selections of all but the combined view are drawn
        (with the grid off, once per slot number). */
    method SelectionLoopRun(c: Cfg)
      requires Describes(c) && grid.Valid()
      modifies dev`gl, dev`trace, grid`slot, grid`context, grid`curViewportSize
      ensures dev.trace == old(dev.trace) + SelectionLoop(c, c.lastSlot + 1)
    {
      var slot := 0;
      while slot <= grid.lastSlot
        invariant 0 <= slot && (slot <= grid.lastSlot + 1 || slot == 0)
        invariant dev.trace == old(dev.trace) + SelectionLoop(c, slot)
        decreases grid.lastSlot - slot
      {
        if grid.active {
          SetGridViewport(slot);
        }
        if !grid.active || slot > 0 {
          var s := if grid.active && grid.mode == ByObject then slot else 0;
          dev.Emit(RenderSelections(s));
        }
        AppendAssoc(old(dev.trace), SelectionLoop(c, slot), Selections(c, slot));
        slot := slot + 1;
      }
    }

    /** `SceneInitializeViewport(G, false)` as the composite sees it: the
        calls it makes contain no `DoRendering`. */
    method ReinitializeViewport() returns (ghost added: seq<Event>)
      modifies dev`gl, dev`trace, this`settings, this`stereoMode, this`vp
      ensures dev.trace == old(dev.trace) + added && NoBrackets(added)
    {
      added := InitializeViewport(false);
    }

    /** The OIT composite after the transparent pass (two OIT buffers):
        rebind the framebuffer found on entry and restore the current view,
        then compose the image; then the deferred selections, slot by slot. */
    method CompositeRun(c: Cfg, savedFb: Framebuffer) returns (ghost reinit: seq<Event>)
      requires Describes(c) && grid.Valid() && TMode3(c)
      requires c.fbDefault <==> savedFb == DefaultFb
      modifies dev`gl, dev`trace, grid`slot, grid`context, grid`curViewportSize, grid`curView
      modifies this`settings, this`stereoMode, this`vp
      ensures dev.trace == old(dev.trace) + Composite(c, reinit)
      ensures NoBrackets(reinit)
    {
      dev.gl := dev.gl.(fb := savedFb);
      if grid.active {
        SetGridViewport(-1);
      }
      reinit := CompositeImageRun(c, savedFb);
      if !c.excludeSelections {
        grid.curView := dev.gl.viewport;
        SelectionLoopRun(c);
      }
      AppendAssoc(old(dev.trace), CompositeImage(c, reinit),
                  if !c.excludeSelections then SelectionLoop(c, c.lastSlot + 1) else []);
    }

    /** On the window, re-establish the deferred viewport and copy the
        opaque image; resolve the OIT image; on the window, draw the gadgets
        over it; leave blending off and depth writes on. */
    method CompositeImageRun(c: Cfg, savedFb: Framebuffer) returns (ghost reinit: seq<Event>)
      requires Describes(c) && TMode3(c)
      requires c.fbDefault <==> savedFb == DefaultFb
      modifies dev`gl, dev`trace, this`settings, this`stereoMode, this`vp
      ensures dev.trace == old(dev.trace) + CompositeImage(c, reinit)
      ensures NoBrackets(reinit)
      ensures !dev.gl.blend && dev.gl.depthMask
    {
      reinit := [];
      ghost var copy: seq<Event> := [];
      if savedFb == DefaultFb {
        reinit := ReinitializeViewport();
        dev.Emit(OitCopy);
        copy := reinit + [OitCopy];
      }
      dev.Emit(OitResolve);
      ghost var gadgets: seq<Event> := [];
      if savedFb == DefaultFb {
        dev.Emit(RenderAll(Transparent, c.which & enc.gadgets, Undefined));
        gadgets := [RenderAll(Transparent, c.which & enc.gadgets, Undefined)];
      }
      AppendAssoc(old(dev.trace), copy, [OitResolve]);
      AppendAssoc(old(dev.trace), copy + [OitResolve], gadgets);
      assert CompositeImage(c, reinit) == copy + [OitResolve] + gadgets;
      dev.gl := dev.gl.(blend := false, depthMask := true);
    }

    /** Entering a pass: the transparent pass of an OIT frame binds an OIT
        buffer (the second one only on the repeat pass of the one-buffer
        variant, which also sets `stereo_draw_buffer_pass`) and, when the
        frame started on the window, sizes the viewport to the whole image. */
    method PassEntryRun(c: Cfg, pass: Pass, tFirstPass: bool, savedFb: Framebuffer)
      requires Describes(c)
      requires c.fbDefault <==> savedFb == DefaultFb
      modifies dev`gl, dev`trace, dev`stereoDrawBufferPass, this`settings, this`stereoMode, this`vp
      ensures dev.trace == old(dev.trace) +
                (if TMode3(c) && pass == Transparent then [BindOit(if c.oneBuf && !tFirstPass then 2 else 1)] else [])
      ensures dev.stereoDrawBufferPass ==
                if TMode3(c) && pass == Transparent && c.oneBuf && !tFirstPass then 1 else old(dev.stereoDrawBufferPass)
      ensures settings == old(settings) && stereoMode == old(stereoMode) && vp == old(vp)
      ensures !(TMode3(c) && pass == Transparent) ==> dev.gl.viewport == old(dev.gl.viewport)
    {
      var tMode3 := !c.onlySelections && c.tMode3Os;
      if tMode3 && pass == Transparent {
        var drawbuf := 1;
        if oneBuf {
          if !tFirstPass {
            dev.stereoDrawBufferPass := 1;
          }
          drawbuf := if tFirstPass then 1 else 2;
        }
        dev.gl := dev.gl.(fb := OitTarget(drawbuf));
        dev.Emit(BindOit(drawbuf));
        if savedFb == DefaultFb {
          ghost var none := InitializeViewport(true);
        }
      }
    }

    /** One pass of the pass loop: its entry, its slot loop and its exit.
        With one OIT buffer the transparent pass ends in `continue` (the
        range-for's own copy of `pass` is reassigned, which does not affect
        the loop), so there is no composite; with two the composite runs. */
    method PassRun(c: Cfg, pass: Pass, savedFb: Framebuffer) returns (cleared: bool, tFirstPass: bool, ghost reinit: seq<Event>)
      requires Describes(c) && grid.Valid()
      requires c.fbDefault <==> savedFb == DefaultFb
      modifies dev`gl, dev`trace, dev`stereoDrawBufferPass
      modifies grid`slot, grid`context, grid`curViewportSize, grid`curView
      modifies this`settings, this`stereoMode, this`vp
      ensures dev.trace == old(dev.trace) + PassEvents(c, pass, reinit)
      ensures NoBrackets(reinit)
      ensures cleared <==> !c.onlySelections && !TMode3(c) && SlotCount(c) > 0
      ensures pass != Transparent ==> reinit == []
      ensures dev.stereoDrawBufferPass == old(dev.stereoDrawBufferPass)
      ensures !TMode3(c) ==> settings == old(settings) && stereoMode == old(stereoMode) && vp == old(vp)
      ensures !TMode3(c) ==> grid.curView == old(grid.curView)
      ensures !TMode3(c) && !grid.active ==> dev.gl.viewport == old(dev.gl.viewport)
    {
      PassEntryRun(c, pass, true, savedFb);
      ghost var entered := dev.trace;
      cleared := SlotLoopRun(c, pass);
      AppendAssoc(old(dev.trace), PassEntry(c, pass), SlotLoop(c, pass, SlotCount(c)));
      tFirstPass := true;
      reinit := [];
      var tMode3 := !c.onlySelections && c.tMode3Os;
      if oneBuf && tMode3 && pass == Transparent && tFirstPass {
        tFirstPass := false;
      } else if tMode3 && pass == Transparent {
        reinit := CompositeRun(c, savedFb);
      }
      AppendAssoc(old(dev.trace), PassEntry(c, pass) + SlotLoop(c, pass, SlotCount(c)), PassExit(c, pass, reinit));
    }

    /** `DoRendering`: the passes over the grid slots, with the OIT set-up
        and composite. Bracketed in the trace by `BeginDoRendering` (with the
        shader manager's stereo flags) and `EndDoRendering`. */
    method DoRendering(times: int, onlySelections: bool, excludeSelections: bool, which: bv8)
      returns (ghost reinit: seq<Event>)
      requires grid.Valid()
      modifies dev`gl, dev`trace, dev`stereoDrawBufferPass
      modifies grid`slot, grid`context, grid`curViewportSize, grid`curView
      modifies this`settings, this`stereoMode, this`vp
      ensures dev.trace == old(dev.trace) + [BeginDoRendering(times, dev.stereoFlag, dev.stereoBlend)] +
                DoRenderingEvents(old(Config(onlySelections, excludeSelections, which)), reinit) +
                [EndDoRendering]
      ensures NoBrackets(reinit)
      ensures dev.stereoDrawBufferPass == 0
      ensures !TMode3(old(Config(onlySelections, excludeSelections, which))) ==>
                && dev.gl.viewport == old(dev.gl.viewport)
                && settings == old(settings) && stereoMode == old(stereoMode) && vp == old(vp)
    {
      var c := Config(onlySelections, excludeSelections, which);
      var savedFb := dev.gl.fb;
      dev.Emit(BeginDoRendering(times, dev.stereoFlag, dev.stereoBlend));
      ghost var begun := dev.trace;
      PrologueRun(c, savedFb);
      if grid.active {
        grid.curView := dev.gl.viewport;
      }
      dev.stereoDrawBufferPass := 0;
      reinit := PassLoop(c, savedFb);
      if grid.active {
        SetGridViewport(-1);
      }
      dev.Emit(EndDoRendering);
      AppendAssoc(begun, Prologue(c), Passes(c, reinit));
      assert dev.trace == old(dev.trace) + [BeginDoRendering(times, dev.stereoFlag, dev.stereoBlend)] +
                          DoRenderingEvents(c, reinit) + [EndDoRendering];
    }

    /** With OIT, a frame started on the window is redirected to the
        offscreen target, which gets the background; depth testing is
        switched on. */
    method PrologueRun(c: Cfg, savedFb: Framebuffer)
      requires c.fbDefault <==> savedFb == DefaultFb
      modifies dev`gl, dev`trace
      ensures dev.trace == old(dev.trace) + Prologue(c)
      ensures dev.gl.viewport == old(dev.gl.viewport)
    {
      var tMode3 := !c.onlySelections && c.tMode3Os;
      if tMode3 {
        if savedFb == DefaultFb {
          dev.gl := dev.gl.(fb := SceneOffscreen);
          dev.Emit(BindOffscreen);
          dev.Emit(BgGradient);
        }
        dev.gl := dev.gl.(depthTest := true);
      }
    }

    /** The pass loop: opaque, antialiased, transparent, stopping early
        once a slot has cleared `cont`. */
    method PassLoop(c: Cfg, savedFb: Framebuffer) returns (ghost reinit: seq<Event>)
      requires Describes(c) && grid.Valid()
      requires c.fbDefault <==> savedFb == DefaultFb
      requires dev.stereoDrawBufferPass == 0
      modifies dev`gl, dev`trace, dev`stereoDrawBufferPass
      modifies grid`slot, grid`context, grid`curViewportSize, grid`curView
      modifies this`settings, this`stereoMode, this`vp
      ensures dev.trace == old(dev.trace) + Passes(c, reinit)
      ensures NoBrackets(reinit)
      ensures dev.stereoDrawBufferPass == 0
      ensures !TMode3(c) ==> settings == old(settings) && stereoMode == old(stereoMode) && vp == old(vp)
      ensures !TMode3(c) ==> grid.curView == old(grid.curView)
      ensures !TMode3(c) && !grid.active ==> dev.gl.viewport == old(dev.gl.viewport)
    {
      var cont := true;
      var p := 0;
      reinit := [];
      while p < 3
        invariant 0 <= p <= 3
        invariant Describes(c) && grid.Valid()
        invariant dev.stereoDrawBufferPass == 0
        invariant cont <==> p == 0 || PassCount(c) == 3
        invariant PassCount(c) == 1 ==> p <= 1
        invariant p < 3 ==> reinit == []
        invariant dev.trace == old(dev.trace) + PassesThrough(c, p, reinit)
        invariant NoBrackets(reinit)
        invariant !TMode3(c) ==> && settings == old(settings) && stereoMode == old(stereoMode) && vp == old(vp)
                                 && grid.curView == old(grid.curView)
                                 && (!grid.active ==> dev.gl.viewport == old(dev.gl.viewport))
      {
        if !cont {
          break;
        }
        var cleared, tFirst;
        ghost var r;
        cleared, tFirst, r := PassRun(c, PassOf(p), savedFb);
        if cleared {
          cont := false;
        }
        PassesStep(c, p, r);
        AppendAssoc(old(dev.trace), PassesThrough(c, p, []), PassEvents(c, PassOf(p), r));
        reinit := r;
        p := p + 1;
      }
    }

    /* ---------------- SceneRenderStereoLoop ---------------- */

    /** Draw the scene once with `DoRendering`; the call shows in the outline
        as its opening marker. */
    method DrawOnce(times: int, onlySelections: bool, excludeSelections: bool, which: bv8)
      returns (ghost added: seq<Event>)
      requires grid.Valid()
      modifies dev`gl, dev`trace, dev`stereoDrawBufferPass
      modifies grid`slot, grid`context, grid`curViewportSize, grid`curView
      modifies this`settings, this`stereoMode, this`vp
      ensures dev.trace == old(dev.trace) + added
      ensures Scan(added) == ScanState([BeginDoRendering(times, dev.stereoFlag, dev.stereoBlend)], false)
    {
      ghost var c := Config(onlySelections, excludeSelections, which);
      ghost var reinit := DoRendering(times, onlySelections, excludeSelections, which);
      ghost var b := BeginDoRendering(times, dev.stereoFlag, dev.stereoBlend);
      ghost var x := DoRenderingEvents(c, reinit);
      assert dev.trace == old(dev.trace) + [b] + x + [EndDoRendering];
      AppendAssoc(old(dev.trace), [b], x);
      AppendAssoc(old(dev.trace), [b] + x, [EndDoRendering]);
      added := [b] + x + [EndDoRendering];
      DrawnOutline(c, reinit, BeginDoRendering(times, dev.stereoFlag, dev.stereoBlend));
    }

    /** `SceneRenderPostProcessStack` into the window framebuffer, as the
        stereo loop uses it after each eye. */
    method PostProcessEye() returns (ghost added: seq<Event>)
      modifies dev`gl, dev`trace, this`offscreenCGO
      ensures dev.trace == old(dev.trace) + added
      ensures Scan(added) == ScanState([PostProcessStack], false)
    {
      RenderPostProcessStack(BlankConfig);
      if offscreenCGO.Some? {
        added := [PostProcessStack, PostProcess(offscreenCGO.value)];
        ScanTwo(PostProcessStack, PostProcess(offscreenCGO.value));
      } else {
        added := [PostProcessStack];
        ScanOne(PostProcessStack);
      }
    }

    /** The left eye: anaglyph marks it -1; the preparation is recorded for
        `SceneInitializeViewport`; the eye gets its target (and the
        offscreen target its background); then the scene is drawn. */
    method LeftEye(p: LoopParams, times: int, pos: Offset, override: Option<Rect>,
                   excludeSelections: bool, which: bv8)
      returns (ghost added: seq<Event>)
      requires grid.Valid()
      requires p.mode != Anaglyph ==> dev.stereoFlag == p.flag && dev.stereoBlend == p.blend
      modifies dev`gl, dev`trace, dev`stereoDrawBufferPass, dev`stereoFlag, dev`stereoBlend
      modifies grid`slot, grid`context, grid`curViewportSize, grid`curView
      modifies this`settings, this`stereoMode, this`vp
      ensures p.mode != Anaglyph ==> dev.stereoFlag == p.flag && dev.stereoBlend == p.blend
      ensures dev.trace == old(dev.trace) + added
      ensures Scan(added) == ScanState(LeftPrelude(p) + [LeftDraw(p, times)], false)
    {
      if p.mode == Anaglyph {
        dev.stereoFlag, dev.stereoBlend := -1, 0;
      }
      SetPrepareViewPortForStereo(StereoLeft, times, pos, override, p.mode);
      ghost var a := EyeTarget(p, times, pos, override, 0, p.spo);
      ghost var d := DrawOnce(times, p.onlySelections, p.rtt || excludeSelections, which);
      ScanJoin(a, d, LeftPrelude(p), [LeftDraw(p, times)]);
      AppendAssoc(old(dev.trace), a, d);
      added := a + d;
    }

    /** An eye's target: its preparation, run now, or the offscreen target
        when each eye is post-processed on its own; then the background if
        `bg`. */
    method EyeTarget(p: LoopParams, times: int, pos: Offset, override: Option<Rect>, position: int, bg: bool)
      returns (ghost added: seq<Event>)
      requires position == 0 || position == 1
      modifies dev`gl, dev`trace, this`settings, this`stereoMode
      ensures dev.trace == old(dev.trace) + added
      ensures Scan(added) == ScanState(Target(p, position, bg), false)
    {
      ghost var e;
      if !p.spo {
        e := PrepareNow(p.mode, p.rtt, times, pos, override, position);
      } else {
        dev.gl := dev.gl.(fb := SceneOffscreen);
        dev.Emit(BindOffscreen);
        e := BindOffscreen;
      }
      ScanOne(e);
      if bg {
        dev.Emit(BgGradient);
        ScanTwo(e, BgGradient);
        added := [e, BgGradient];
      } else {
        added := [e];
      }
    }

    /** Run an eye's preparation; it logs one setup of that eye. */
    method PrepareNow(mode: int, offscreen: bool, times: int, pos: Offset, override: Option<Rect>, position: int)
      returns (ghost e: Event)
      requires position == 0 || position == 1
      modifies dev`gl, dev`trace, this`settings, this`stereoMode
      ensures e.Setup? && e.position == position
      ensures dev.trace == old(dev.trace) + [e]
    {
      PrepareViewPortForStereoImpl(mode, offscreen, times, pos, override, position);
      e := dev.trace[|dev.trace| - 1];
    }

    /** Between the eyes and the right eye: post-process the left image,
        mark the right eye 1 for anaglyph, record and get its target (with
        the background when it is its own image), clear the depth buffer,
        draw the scene. */
    method RightEye(p: LoopParams, times: int, pos: Offset, override: Option<Rect>,
                    excludeSelections: bool, which: bv8)
      returns (ghost added: seq<Event>)
      requires grid.Valid()
      requires p.mode != Anaglyph ==> dev.stereoFlag == p.flag && dev.stereoBlend == p.blend
      modifies dev`gl, dev`trace, dev`stereoDrawBufferPass, dev`stereoFlag, dev`stereoBlend
      modifies grid`slot, grid`context, grid`curViewportSize, grid`curView
      modifies this`settings, this`stereoMode, this`vp, this`offscreenCGO
      ensures p.mode != Anaglyph ==> dev.stereoFlag == p.flag && dev.stereoBlend == p.blend
      ensures dev.trace == old(dev.trace) + added
      ensures Scan(added) == ScanState(BetweenEyes(p) + [RightDraw(p, times)], false)
    {
      ghost var a := BetweenEyesRun(p, times, pos, override);
      ghost var d := DrawOnce(times, p.onlySelections, p.rtt || excludeSelections, which);
      ScanJoin(a, d, BetweenEyes(p), [RightDraw(p, times)]);
      AppendAssoc(old(dev.trace), a, d);
      added := a + d;
    }

    /** What happens between the two `DoRendering` calls of a stereo
        iteration. */
    method BetweenEyesRun(p: LoopParams, times: int, pos: Offset, override: Option<Rect>)
      returns (ghost added: seq<Event>)
      modifies dev`gl, dev`trace, dev`stereoFlag, dev`stereoBlend
      modifies this`settings, this`stereoMode, this`vp, this`offscreenCGO
      ensures p.mode != Anaglyph ==> dev.stereoFlag == old(dev.stereoFlag) && dev.stereoBlend == old(dev.stereoBlend)
      ensures p.mode == Anaglyph ==> dev.stereoFlag == RightFlags(p).0 && dev.stereoBlend == RightFlags(p).1
      ensures dev.trace == old(dev.trace) + added
      ensures Scan(added) == ScanState(BetweenEyes(p), false)
    {
      ghost var a: seq<Event> := [];
      if p.spo {
        a := PostProcessEye();
      } else {
        assert old(dev.trace) + a == old(dev.trace);
      }
      if p.mode == Anaglyph {
        dev.stereoFlag, dev.stereoBlend := 1, if BlendIntoFullScreen(p.mode) then 1 else 0;
      }
      SetPrepareViewPortForStereo(StereoRight, times, pos, override, p.mode);
      ghost var b := EyeTarget(p, times, pos, override, 1, p.spo || (p.mode == Quadbuffer && !p.onlySelections));
      ghost var x := if p.spo then [PostProcessStack] else [];
      ScanJoin(a, b, x, Target(p, 1, RightBackground(p)));
      AppendAssoc(old(dev.trace), a, b);
      dev.Emit(Op(ClearDepth));
      ScanOne(Op(ClearDepth));
      ScanJoin(a + b, [Op(ClearDepth)], x + Target(p, 1, RightBackground(p)), [Op(ClearDepth)]);
      AppendAssoc(old(dev.trace), a + b, [Op(ClearDepth)]);
      added := a + b + [Op(ClearDepth)];
    }

    /** After the right eye: anaglyph clears the flags, the right image is
        post-processed, and the eye setup is torn down. */
    method AfterRightEye(p: LoopParams, times: int, fogActive: bool) returns (ghost added: seq<Event>)
      requires p.mode != Anaglyph ==> dev.stereoFlag == p.flag && dev.stereoBlend == p.blend
      modifies dev`gl, dev`trace, dev`stereoFlag, dev`stereoBlend, this`offscreenCGO
      ensures p.mode != Anaglyph ==> dev.stereoFlag == p.flag && dev.stereoBlend == p.blend
      ensures p.mode == Anaglyph ==> dev.stereoFlag == 0 && dev.stereoBlend == 0
      ensures dev.trace == old(dev.trace) + added
      ensures Scan(added) == ScanState(AfterEyes(p), false)
    {
      if p.mode == Anaglyph {
        dev.stereoFlag, dev.stereoBlend := 0, 0;
      }
      ghost var a: seq<Event> := [];
      if p.spo {
        a := PostProcessEye();
      }
      SetDrawBufferForStereo(p.mode, times, fogActive);
      ghost var t := dev.trace[|dev.trace| - 1];
      ScanPlain(a, t);
      AppendAssoc(old(dev.trace), a, [t]);
      added := a + [t];
    }

    /** One stereo iteration of `SceneRenderStereoLoop`. */
    method StereoIterationRun(p: LoopParams, times: int, pos: Offset, override: Option<Rect>,
                              fogActive: bool, excludeSelections: bool, which: bv8)
      returns (ghost added: seq<Event>)
      requires grid.Valid()
      requires p.mode != Anaglyph ==> dev.stereoFlag == p.flag && dev.stereoBlend == p.blend
      modifies dev`gl, dev`trace, dev`stereoDrawBufferPass, dev`stereoFlag, dev`stereoBlend
      modifies grid`slot, grid`context, grid`curViewportSize, grid`curView
      modifies this`settings, this`stereoMode, this`vp, this`offscreenCGO
      ensures p.mode != Anaglyph ==> dev.stereoFlag == p.flag && dev.stereoBlend == p.blend
      ensures p.mode == Anaglyph ==> dev.stereoFlag == 0 && dev.stereoBlend == 0
      ensures dev.trace == old(dev.trace) + added
      ensures Scan(added) == ScanState(StereoIteration(p, times), false)
    {
      ghost var l := LeftEye(p, times, pos, override, excludeSelections, which);
      ghost var r := RightEye(p, times, pos, override, excludeSelections, which);
      ghost var t := AfterRightEye(p, times, fogActive);
      ScanConcat(l, r);
      ScanConcat(l + r, t);
      AppendAssoc(old(dev.trace), l, r);
      AppendAssoc(old(dev.trace), l + r, t);
      added := l + r + t;
      assert StereoIteration(p, times) ==
        (LeftPrelude(p) + [LeftDraw(p, times)]) + (BetweenEyes(p) + [RightDraw(p, times)]) + AfterEyes(p);
    }

    /** One mono iteration: the flags are cleared; a texture target without
        a grid gets the whole image as viewport and, unless only selections
        are drawn, the background; the screen-block preparation is recorded
        for `SceneInitializeViewport`; the scene is drawn. */
    method MonoIterationRun(p: LoopParams, times: int, pos: Offset, override: Option<Rect>,
                            excludeSelections: bool, which: bv8)
      returns (ghost added: seq<Event>)
      requires grid.Valid() && p.gridActive == grid.active
      modifies dev`gl, dev`trace, dev`stereoDrawBufferPass, dev`stereoFlag, dev`stereoBlend
      modifies grid`slot, grid`context, grid`curViewportSize, grid`curView
      modifies this`settings, this`stereoMode, this`vp
      ensures dev.stereoFlag == 0 && dev.stereoBlend == 0
      ensures dev.trace == old(dev.trace) + added
      ensures Scan(added) == ScanState(MonoIteration(p, times), false)
    {
      dev.stereoFlag, dev.stereoBlend := 0, 0;
      ghost var a: seq<Event> := [];
      if !grid.active && p.rtt {
        dev.SetViewport(MakeRect(0, 0, rect.extent.width, rect.extent.height));
        if !p.onlySelections {
          dev.Emit(BgGradient);
          a := [BgGradient];
          ScanOne(BgGradient);
        }
      }
      SetPrepareViewPortForStereo(MonoInitialize, times, pos, override, p.mode);
      ghost var d := DrawOnce(times, p.onlySelections, p.rtt || excludeSelections, which);
      ScanConcat(a, d);
      AppendAssoc(old(dev.trace), a, d);
      added := a + d;
    }

    /** One iteration of the stereo loop, stereo or mono. */
    method IterationRun(p: LoopParams, times: int, pos: Offset, override: Option<Rect>,
                        fogActive: bool, excludeSelections: bool, which: bv8)
      returns (ghost added: seq<Event>)
      requires grid.Valid() && p.gridActive == grid.active
      requires p.stereo && p.mode != Anaglyph ==> dev.stereoFlag == p.flag && dev.stereoBlend == p.blend
      modifies dev`gl, dev`trace, dev`stereoDrawBufferPass, dev`stereoFlag, dev`stereoBlend
      modifies grid`slot, grid`context, grid`curViewportSize, grid`curView
      modifies this`settings, this`stereoMode, this`vp, this`offscreenCGO
      ensures p.stereo && p.mode != Anaglyph ==> dev.stereoFlag == p.flag && dev.stereoBlend == p.blend
      ensures dev.trace == old(dev.trace) + added
      ensures Scan(added) == ScanState(Iteration(p, times), false)
    {
      if p.stereo {
        added := StereoIterationRun(p, times, pos, override, fogActive, excludeSelections, which);
      } else {
        added := MonoIterationRun(p, times, pos, override, excludeSelections, which);
      }
    }

    /** `SceneRenderStereoLoop`: `while (times--)`, each iteration stereo or
        mono. Its outline is `LoopOutline` of its parameters: each
        `DoRendering` in order, with the eye setups, backgrounds, depth
        clears, post-processing and teardowns between them. */
    method RenderStereoLoop(timesArg: int, mustRenderStereo: bool, mode: int, renderToTexture: bool,
                            pos: Offset, override: Option<Rect>, fogActive: bool,
                            onlySelections: bool, offscreenPrepared: bool, excludeSelections: bool,
                            which: bv8)
      returns (ghost added: seq<Event>)
      requires timesArg >= 0 && grid.Valid()
      modifies dev`gl, dev`trace, dev`stereoDrawBufferPass, dev`stereoFlag, dev`stereoBlend
      modifies grid`slot, grid`context, grid`curViewportSize, grid`curView
      modifies this`settings, this`stereoMode, this`vp, this`offscreenCGO
      ensures dev.trace == old(dev.trace) + added
      ensures Scan(added) ==
                ScanState(LoopOutline(LoopParams(timesArg, mustRenderStereo, mode, onlySelections, grid.active,
                                                 renderToTexture, !onlySelections && renderToTexture && !offscreenPrepared,
                                                 old(dev.stereoFlag), old(dev.stereoBlend)), timesArg), false)
    {
      var times := timesArg;
      var shouldPrepareOffscreen := !onlySelections && renderToTexture && !offscreenPrepared;
      var p := LoopParams(timesArg, mustRenderStereo, mode, onlySelections, grid.active,
                                renderToTexture, shouldPrepareOffscreen, dev.stereoFlag, dev.stereoBlend);
      added := [];
      while times > 0
        invariant 0 <= times <= timesArg
        invariant grid.Valid() && grid.active == p.gridActive
        invariant dev.trace == old(dev.trace) + added
        invariant Scan(added) == ScanState(LoopOutline(p, timesArg - times), false)
        invariant p.stereo && p.mode != Anaglyph ==> dev.stereoFlag == p.flag && dev.stereoBlend == p.blend
      {
        times := times - 1;
        ghost var it := IterationRun(p, times, pos, override, fogActive, excludeSelections, which);
        ghost var step := LoopUnfold(p, timesArg - times);
        ScanJoin(added, it, LoopOutline(p, timesArg - times - 1), step);
        AppendAssoc(old(dev.trace), added, it);
        added := added + it;
      }
    }

    /* ---------------- SceneRender ---------------- */

    /** The lazy stencil build of `SceneRender`: a stereo frame in a stencil
        mode draws the pattern, and marks it valid, only when it is not
        valid yet. */
    method PrepareStencil(mustRender: bool, mode: int) returns (ghost added: seq<Event>)
      modifies dev`gl, dev`trace, this`stencilValid
      ensures var build := mustRender && ViaStencil(mode) && !old(stencilValid);
              && stencilValid == (old(stencilValid) || build)
              && added == StencilBuild(build, mode, old(dev.gl).viewport, stencilParity)
      ensures dev.trace == old(dev.trace) + added
      ensures Scan(added) == ScanState(added, false)
      ensures dev.gl.viewport == old(dev.gl.viewport)
    {
      added := [];
      if mustRender && ViaStencil(mode) && !stencilValid {
        DrawStencilInBuffer(mode);
        stencilValid := true;
        added := [dev.trace[|dev.trace| - 1]];
        ScanOne(added[0]);
      }
    }

    /** `SceneRender` once the framebuffer and the viewport are set: the
        background unless picking, depth testing, then either the picking
        render or blending and the stereo loop; immediate mode switches
        fog, blending and depth testing off again. */
    method DrawFrame(info: RenderInfo, d: Decision, mode: int, once: bool, useShaders: bool, fogActive: bool)
      returns (ghost added: seq<Event>)
      requires grid.Valid()
      modifies dev`gl, dev`trace, dev`stereoDrawBufferPass, dev`stereoFlag, dev`stereoBlend
      modifies grid`slot, grid`context, grid`curViewportSize, grid`curView
      modifies this`settings, this`stereoMode, this`vp, this`offscreenCGO
      ensures dev.trace == old(dev.trace) + added
      ensures Scan(added) ==
                ScanState(if info.pick then [Picking]
                          else [BgGradient] + LoopOutline(FrameParams(d, mode, grid.active,
                                                                      old(dev.stereoFlag), old(dev.stereoBlend)),
                                                          Times(mode)), false)
    {
      if info.pick {
        dev.gl := dev.gl.(depthTest := true);
        dev.Emit(Picking);
        added := [Picking];
        ScanOne(Picking);
      } else {
        ghost var p := FrameParams(d, mode, grid.active, dev.stereoFlag, dev.stereoBlend);
        dev.Emit(BgGradient);
        dev.gl := dev.gl.(depthTest := true, blend := true);
        ghost var l := RenderStereoLoop(Times(mode), d.mustRender, mode, false, info.pos, info.override, fogActive,
                                        false, once, info.excludeSelections, info.which);
        if !useShaders {
          dev.gl := dev.gl.(fog := false);
        }
        ScanOne(BgGradient);
        ScanJoin([BgGradient], l, [BgGradient], LoopOutline(p, Times(mode)));
        AppendAssoc(old(dev.trace), [BgGradient], l);
        added := [BgGradient] + l;
      }
      if !useShaders {
        dev.gl := dev.gl.(blend := false, depthTest := false);
      }
    }

    /** `SceneRender` (picking internals, matrices, lighting, timing and the
        display cache are not part of this model): decide on stereo, build
        the stencil pattern if needed, select the target framebuffer, draw
        the frame over the screen block and restore the viewport. Without a
        valid context nothing is drawn. */
    method Render(info: RenderInfo, fogActive: bool) returns (ghost added: seq<Event>)
      requires grid.Valid()
      modifies dev`gl, dev`trace, dev`stereoDrawBufferPass, dev`stereoFlag, dev`stereoBlend
      modifies grid`slot, grid`context, grid`curViewportSize, grid`curView
      modifies this`settings, this`stereoMode, this`vp, this`offscreenCGO, this`stencilValid
      ensures dev.trace == old(dev.trace) + added
      ensures !validContext ==> added == [] && dev.gl == old(dev.gl) && stencilValid == old(stencilValid)
      ensures validContext ==>
                var d := Decide(old(settings).stereo, old(stereoMode), dev.stereoCapable, old(settings).doublePumpMono);
                var build := d.mustRender && ViaStencil(old(stereoMode)) && !old(stencilValid);
                && stencilValid == (old(stencilValid) || build)
                && dev.gl.viewport == old(dev.gl.viewport)
                && Scan(added) ==
                     ScanState(FrameOutline(StencilBuild(build, old(stereoMode), old(dev.gl).viewport, stencilParity),
                                            info.pick,
                                            FrameParams(d, ScreenBlockMode(old(stereoMode), info.override.Some?),
                                                        grid.active, old(dev.stereoFlag), old(dev.stereoBlend))),
                               false)
    {
      if !validContext {
        added := [];
        return;
      }
      var stereo := settings.stereo;
      var mode := stereoMode;
      var useShaders := settings.useShaders;
      var d := Decide(stereo, mode, dev.stereoCapable, settings.doublePumpMono);
      var once := PostprocessOnce(mode, stereo);
      ghost var flag, blend := dev.stereoFlag, dev.stereoBlend;
      ghost var st := PrepareStencil(d.mustRender, mode);
      var target := TargetImage(info, RenderBuffer(d.mustRender, mode));
      dev.gl := dev.gl.(fb := target.fb, drawBuffer := target.drawBuffer);
      var viewSave := dev.gl.viewport;
      mode := InitializeViewPortToScreenBlock(info.pos, info.override, mode);
      assert dev.stereoFlag == flag && dev.stereoBlend == blend;
      ghost var f := DrawFrame(info, d, mode, once, useShaders, fogActive);
      dev.SetViewport(viewSave);
      ghost var rest := if info.pick then [Picking]
                        else [BgGradient] + LoopOutline(FrameParams(d, mode, grid.active, flag, blend), Times(mode));
      ScanJoin(st, f, st, rest);
      AppendAssoc(old(dev.trace), st, f);
      added := st + f;
    }
  }
}
