# PyMOL scene rendering core, in Dafny

This project models the scheduling and decision logic of PyMOL's scene
renderer, `layer1/SceneRender.cpp`. That logic covers the following:

- how a frame is split into grid cells;
- whether it is drawn in stereo, in which mode and how many times;
- how each eye is set up and torn down;
- in which order `DoRendering` issues its passes, slots and object renders, including order-independent transparency (OIT);
- which objects `SceneRenderAll` draws, and with which state;
- the anti-aliasing stage list;
- the stencil interleaving patterns.

OpenGL is replaced by an abstract device. The class `Device.Device` holds a
state record `Gl` (viewport, framebuffer, draw buffer, stencil test and
function, the colour masks of draw buffer 0 and of the other draw buffers, depth mask, depth test, blend, scissor, fog, emission),
the anaglyph fields of the shader manager, and a `trace`: the sequence of
calls into collaborators. Those calls are `SceneRenderAll` (`RenderAll`),
`ExecutiveRenderSelections`, `EditorRender`, the debug geometry, the
background gradient, the framebuffer binds, the OIT copy and resolve, the
post-processing renders, the picking render and the eye setups and teardowns.
Every `DoRendering` is bracketed in the trace by `BeginDoRendering` and
`EndDoRendering`.

Modules, following the source's structure:

- `Geometry`: rectangles, and C's truncating division and remainder.
- `Device`: the device state, the events and the device class.
- `Stereo`: the stereo-mode constants and the pure per-frame decisions of `SceneRender`.
- `Grid`: `GridSetViewport`, its cell arithmetic and the proof that the cells tile the view.
- `Objects`: the filter and order dispatch of `SceneRenderAll`, and the state index of `SceneRenderAllObject`.
- `PostProcess`: the stage list of `SceneRenderAA`.
- `StencilPattern`: the three line loops of `SceneDrawStencilInBuffer`.
- `EyeSetup`: `PrepareViewPortForStereoImpl` and `SetDrawBufferForStereo`, as pure transitions of the device state.
- `Schedule`: the sequence of calls `DoRendering` makes, as a function of its configuration.
- `Outline`: what the stereo loop does around its `DoRendering` calls, with the `DoRendering` brackets collapsed.
- `Scene`: the class `Scene.Scene`, whose methods are the imperative operations. Each method is proved against the functions above.

Two places where the code's behaviour differs from what one might read into
it are modelled as the code is written:

- With a single OIT buffer, the transparent pass ends in `continue` after it assigns to the copy held by the range-for. The pass loop therefore ends, and there is no composite (`Schedule.OneBufferSkipsComposite`).
- The selection loop after the composite has no early exit when the grid is off. It draws the selections once per slot (`Schedule.GridOffSelectionRepeats`).

The stereo-mode values come from a header that is not part of this model.
PyMOL's usual values are used: mono 0, quadbuffer 1, crosseye 2 … openvr 13.
The error texts of the source fix dynamic at 11 and clone_dynamic at 12. The
bits of `SceneRenderWhich` are a parameter (`Objects.WhichEncoding`).

## Model

| member | source | states |
|---|---|---|
| Geometry.CDivMod | layer1/SceneRender.cpp:132-144 | C division: quotient·divisor + remainder = dividend; the remainder has the dividend's sign and is smaller than the divisor |
| Geometry.CDivNegative | layer1/SceneRender.cpp:132-134 | on a negative slot offset C's quotient is Dafny's plus one exactly when the division is inexact |
| Stereo.StencilModesBlend | layer1/SceneRender.cpp:78-103 | every stencil mode blends into the full screen; mono, the side-by-side family, geowall, quadbuffer and openvr do neither |
| Stereo.Decide | layer1/SceneRender.cpp:273-291 | stereo is rendered iff (stereo on with a non-zero mode, or a capable context with double-pump set) and (mode ≥ crosseye or the context is capable); double-pump iff stereo is off, the context is capable and the setting is set; double-pump implies rendering |
| Stereo.NoHardwareStereoWithoutCapability | layer1/SceneRender.cpp:276-291 | without stereo buffers there is no double-pump, and stereo is rendered iff stereo is on with mode ≥ crosseye |
| Stereo.StereoOffRendersOnlyDoublePumped | layer1/SceneRender.cpp:273-283 | with stereo off, stereo is rendered exactly when double-pumping, and that happens iff the context is capable and the setting is on |
| Stereo.Times | layer1/SceneRender.cpp:481-486 | times is 2 exactly for dynamic and clone_dynamic, 1 otherwise |
| Stereo.RenderBuffer | layer1/SceneRender.cpp:302-313 | BACK_LEFT exactly when rendering stereo in quadbuffer, clone_dynamic or openvr, else BACK |
| Stereo.PostprocessOnce | layer1/SceneRender.cpp:255-267 | equals `stereo` for crosseye, walleye, side-by-side and anaglyph, and `!stereo` for every other mode |
| Stereo.ScreenBlockMode | layer1/SceneRender.cpp:1365-1369 | the mode changes only for geowall with an explicit viewport, and then becomes mono |
| PostProcess.AAStages | layer1/SceneRender.cpp:624-646 | mode 0 gives no stage, 1 gives FXAA alone; any other mode gives a non-empty prefix of SMAA1, SMAA2, SMAA3, of length 1 for mode 3, 2 for mode 4 and 3 otherwise |
| PostProcess.FxaaAlone | layer1/SceneRender.cpp:624-646 | FXAA is used iff the mode is 1, and then it is the only stage |
| PostProcess.SmaaInOrder | layer1/SceneRender.cpp:631-645 | the SMAA stages run in chain order, and SMAA3 only after the full chain |
| StencilPattern.RowLines | layer1/SceneRender.cpp:1721-1730 | the row loop produces exactly the row pattern |
| StencilPattern.ColumnLines | layer1/SceneRender.cpp:1731-1739 | the column loop produces exactly the column pattern |
| StencilPattern.CheckerLines | layer1/SceneRender.cpp:1740-1748 | the checkerboard loop produces exactly the diagonal pattern |
| StencilPattern.RowPatternMarksAlternateRows | layer1/SceneRender.cpp:1725-1728 | scanline y is drawn iff parity ≤ y < h + parity and y − parity is even |
| StencilPattern.ColumnPatternMarksEvenColumns | layer1/SceneRender.cpp:1734-1737 | column x is drawn iff 0 ≤ x < w and x is even |
| StencilPattern.CheckerMarksEvenDiagonals | layer1/SceneRender.cpp:1741-1746 | anti-diagonal i is drawn iff i is even and 0 ≤ i < 2·max(w, h) |
| StencilPattern.CheckerReachesEveryPixel | layer1/SceneRender.cpp:1740-1748 | every pixel of the viewport lies on a drawn diagonal or right next to one |
| Grid.SlotIndex | layer1/SceneRender.cpp:107-110 | slot 0 is recorded as 0; any other slot s as s + first_slot − 1 |
| Grid.CellSides | layer1/SceneRender.cpp:132-146 | a cell's x-edges are the column cut points ⌊col·W/n_col⌋ and ⌊(col+1)·W/n_col⌋ and its y-edges are top − the row cut points, shifted by the view's offset |
| Grid.CellInside | layer1/SceneRender.cpp:132-146 | cells 0 .. n_col·n_row − 1 lie inside the current view |
| Grid.CellContains | layer1/SceneRender.cpp:132-146 | a pixel is in a cell iff its column offset falls in the cell's column span and its distance below the top falls in the cell's row span |
| Grid.CellAt | layer1/SceneRender.cpp:132-146 | every pixel of the view lies in exactly one cell: the cells tile the view with no gap and no overlap |
| Grid.CellUnique | layer1/SceneRender.cpp:132-146 | two cells holding the same pixel are the same cell |
| Grid.FirstRowAtTop | layer1/SceneRender.cpp:139-146 | the first row of cells touches the top of the view, and cell 0 touches its left side |
| Grid.FullViewPlacement | layer1/SceneRender.cpp:114-130 | slot 0 is k cells of the floor cell size each way (k = min(n_col, n_row)); it lies inside the view, rests on its bottom edge and is centred to within one pixel |
| Grid.SlotThreeOfTwoByTwo | layer1/SceneRender.cpp:131-150 | on a 2×2 grid over 800×600 with slots counted from 1, slot 3 is the bottom-left quarter |
| Grid.GridInfo.SetViewport | layer1/SceneRender.cpp:105-151 | slot becomes SlotIndex; the viewport becomes the current view for a negative slot, the combined view for 0 and the cell otherwise, and nothing else changes; the unit context follows the new viewport unless the slot is negative; the viewport size is recorded for a cell only |
| Objects.DrawState | layer1/SceneRender.cpp:678-752 | overlays draw their current state. In camera space: by-object-states draws state + slot − 1 iff slot ≠ 0 and that is ≥ 0; by-object-by-state draws slot − grid_slot − 1 iff slot ≠ 0 and it is a frame of the object; every other case draws the current state |
| Objects.Draws | layer1/SceneRender.cpp:669-670 | every draw is of a listed object whose grid slot is shown, in the state DrawState gives; every listed object whose slot is shown and that has a state to draw is drawn in that state; there are no more draws than objects |
| Objects.Candidates | layer1/SceneRender.cpp:846-895 | only scene objects are offered; without the All bit the Gadgets filter offers gadgets only, otherwise only non-gadgets are offered, and nothing without the NonGadgets bit; without the Gizmos bit a gizmo is offered only as a non-gadget, through the non-gadget list |
| Objects.RenderAll | layer1/SceneRender.cpp:843-896 | every draw is of a scene object whose slot is shown, in the state DrawState gives, and every offered object whose slot is shown and that has a state is drawn in it |
| Objects.SplitIsPermutation | layer1/SceneRender.cpp:864-878 | the non-gadget and gadget lists together hold exactly the scene's objects |
| Objects.GizmosSkipped | layer1/SceneRender.cpp:846-895 | without the Gizmos bit a drawn gizmo is a non-gadget, reached only through the non-gadget list (all objects gadgets-last, or the NonGadgets filter) |
| Objects.FilterKinds | layer1/SceneRender.cpp:881-895 | without the All bit, the Gadgets filter draws only gadgets and otherwise only non-gadgets are drawn, under the NonGadgets bit |
| Objects.DrawsKeepOrder | layer1/SceneRender.cpp:864-878 | drawing two lists one after the other makes the draws of the first list, then those of the second |
| Objects.GadgetsDrawnLast | layer1/SceneRender.cpp:864-878 | with the All bit and GadgetsLast, every non-gadget draw precedes every gadget draw |
| Objects.OrdersOfferSameObjects | layer1/SceneRender.cpp:851-879 | with the Gizmos bit, or with no non-gadget gizmo, the two orders offer the same objects, only rearranged |
| Objects.NonGadgetGizmoOnlyInGadgetsLast | layer1/SceneRender.cpp:851-879 | without the Gizmos bit, a non-gadget gizmo is offered in GadgetsLast order but not in Undefined order |
| Objects.ByStateSlots | layer1/SceneRender.cpp:747-750 | in a by-object-by-state grid an object with n frames appears exactly in slots grid_slot + 1 .. grid_slot + n |
| EyeSetup.QuadbufferEye | layer1/SceneRender.cpp:1399-1402 | only the draw buffer and the viewport change |
| EyeSetup.GeowallEye | layer1/SceneRender.cpp:1436-1443 | only the viewport changes |
| EyeSetup.StencilEye | layer1/SceneRender.cpp:1444-1452 | only the stencil test and function change |
| EyeSetup.AnaglyphEye | layer1/SceneRender.cpp:1455-1473 | only the colour masks change, and there is no fallback |
| EyeSetup.CloneDynamicEye | layer1/SceneRender.cpp:1475-1510 | only the draw buffer, emission and fog change |
| EyeSetup.DynamicEye | layer1/SceneRender.cpp:1511-1557 | only the viewport, emission, fog and scissor test change |
| EyeSetup.CrosseyeSwapsWalleye | layer1/SceneRender.cpp:1403-1435 | crosseye gives eye p the device state walleye gives eye 1 − p |
| EyeSetup.SideBySideHalves | layer1/SceneRender.cpp:1403-1435 | the two halves have equal size of half the width rounded down, the right starts where the left ends, both fit in the area split, and no pixel is in both |
| EyeSetup.SideBySideEyePlacement | layer1/SceneRender.cpp:1403-1435 | crosseye puts eye p in half 1 − p; walleye and side-by-side put it in half p; only the viewport changes |
| EyeSetup.GeowallOnScreen | layer1/SceneRender.cpp:1439-1442 | on screen each eye gets the full scene size at the scene bottom, moved right by winX/2 for the right eye |
| EyeSetup.QuadbufferEyes | layer1/SceneRender.cpp:1399-1402 | each eye draws over the scene block into its own back buffer with no extra operation, and the teardown returns to BACK_LEFT |
| EyeSetup.StencilEyes | layer1/SceneRender.cpp:1444-1454 | row, column and checkerboard set the stencil test with reference 1 − p iff the stencil is valid, and the teardown turns the test off; the custom mode changes nothing |
| EyeSetup.AnaglyphEyes | layer1/SceneRender.cpp:1455-1473 | eye p gets the colour mask (1−p, p, p, true) on draw buffer 0, and on the other draw buffers too unless two-buffer OIT on OpenGL 3.0 with transparency_mode 3 masks buffer 0 alone; the depth is cleared iff it is the right eye; the teardown restores all colours on every buffer |
| EyeSetup.PrepareEye | layer1/SceneRender.cpp:1392-1565 | no eye setup changes the framebuffer, depth mask, depth test, blending or scissor box; only the right eye of an accumulation mode without an accumulation buffer falls back; only anaglyph and the accumulation modes issue one-shot operations, and the accumulation modes always issue some |
| EyeSetup.TeardownEyes | layer1/SceneRender.cpp:1571-1646 | no teardown changes the framebuffer, depth mask, depth test or blending; it issues operations iff the mode accumulates; only dynamic's first pass moves the viewport; geowall and stencil_custom change nothing |
| EyeSetup.CloneDynamicFallback | layer1/SceneRender.cpp:1490-1509 | the right eye starts with its glAccum; it reports the error and falls back iff there is no accumulation buffer, and clears colour and depth iff there is one |
| EyeSetup.DynamicFallback | layer1/SceneRender.cpp:1531-1556 | without an accumulation buffer the right eye never clears; it reports and falls back iff the setting is not crosseye already; the clear happens iff there is an accumulation buffer |
| EyeSetup.FallbackOnlyForAccumulation | layer1/SceneRender.cpp:1475-1557 | only the right eye of dynamic or clone_dynamic without an accumulation buffer falls back, and crosseye never does |
| EyeSetup.AccumulationTeardown | layer1/SceneRender.cpp:1598-1644 | the accumulation modes accumulate the right eye at weight 0.5, then return the buffer; they clear colour and depth iff times ≠ 0; emission ends on the first pass; clone_dynamic ends on BACK_LEFT; dynamic ends the scissor test |
| EyeSetup.AccumulationReturnTarget | layer1/SceneRender.cpp:1598-1644 | the return is preceded by a switch to BACK_RIGHT iff the mode is clone_dynamic on its first pass, and no other accumulation teardown switches buffers |
| Schedule.SlotCount | layer1/SceneRender.cpp:984-990 | the slot loop runs slots 0 .. last_slot with the grid on, and slot 0 only with it off |
| Schedule.PassCount | layer1/SceneRender.cpp:961-1046 | the pass loop runs once or three times, once exactly when objects are drawn without OIT in at least one slot (the slot clears `cont`) |
| Schedule.OitFrame | layer1/SceneRender.cpp:921-1161 | with two-buffer OIT a frame is the prologue, the opaque slots, the antialias slots, the OIT buffer-1 bind, the transparent slots and the composite |
| Schedule.SinglePassFrame | layer1/SceneRender.cpp:956-1046 | without OIT, drawing objects in some slot, a frame is the slots of the first pass alone |
| Schedule.InDoRendering | layer1/SceneRender.cpp:921-1167 | every call of a `DoRendering` comes from its prologue, a slot of a pass, the OIT bind, or the composite (the latter two only with OIT) |
| Schedule.NonOitSlot | layer1/SceneRender.cpp:1036-1046 | without OIT a slot drawing objects makes the editor and debug renders, then exactly three `renderAll` calls (opaque, antialias, transparent; All filter; GadgetsLast), then its selections; the pass loop stops after one pass |
| Schedule.GridOffFrame | layer1/SceneRender.cpp:984-1090 | with the grid off and no OIT a frame is the editor, debug, the three passes and the selections for slot 0 |
| Schedule.SelectionSlots | layer1/SceneRender.cpp:1079-1086 | selections are passed a real cell 1 .. last_slot in a by-object grid and 0 otherwise; slot 0 of an active grid never draws selections |
| Schedule.OnlySelectionsDrawsOnlyGadgets | layer1/SceneRender.cpp:1018-1062 | drawing only selections makes no render call other than the gadgets, as transparent, in an OIT frame |
| Schedule.OitSlotsDeferSelections | layer1/SceneRender.cpp:1020-1031 | with OIT a slot draws the current pass for non-gadgets only and draws no selections |
| Schedule.OitGadgetsOnDefaultFramebuffer | layer1/SceneRender.cpp:1130-1141 | the composite draws the gadgets iff the frame started on the default framebuffer |
| Schedule.OneBufferSkipsComposite | layer1/SceneRender.cpp:1092-1098 | with one OIT buffer there is no resolve and no selection is drawn |
| Schedule.GridOffSelectionRepeats | layer1/SceneRender.cpp:1146-1160 | with the grid off, the post-composite loop draws the slot-0 selections once for each of its iterations |
| Schedule.ScheduleHasNoBrackets | layer1/SceneRender.cpp:921-1167 | a `DoRendering` makes no nested `DoRendering` |
| Outline.IterationDraws | layer1/SceneRender.cpp:1193-1327 | a stereo iteration draws the scene twice, a mono iteration once |
| Outline.LoopDraws | layer1/SceneRender.cpp:1192-1328 | k iterations draw the scene 2k times in stereo and k times in mono |
| Outline.StereoClearsDepthBetweenEyes | layer1/SceneRender.cpp:1253-1280 | the depth clear comes immediately before the right eye's draw; the right eye gets a background iff per-eye post-processing or quadbuffer drawing objects; the left eye is prefixed by its setup, or by the offscreen bind and background |
| Outline.StereoTeardownOnce | layer1/SceneRender.cpp:1302-1306 | a stereo iteration tears down exactly once, as its last call |
| Outline.MonoLoopTimes | layer1/SceneRender.cpp:1192-1327 | a mono loop of k iterations draws with times counting down from k − 1 to 0, flags cleared |
| Outline.AnaglyphEyeFlags | layer1/SceneRender.cpp:1200-1258 | anaglyph marks the left eye −1 (blend 0) and the right eye 1 (blend 1) |
| Scene.Replay | layer1/SceneRender.cpp:1648-1667 | replaying changes only the recorded mode, and that only on the window with an explicit viewport, from geowall to mono; the framebuffer is kept; a mono replay sets the screen block and issues nothing; an eye replay logs one setup for that eye |
| Scene.EffectHasNoBrackets | layer1/SceneRender.cpp:1331-1354 | a deferred viewport preparation draws nothing |
| Scene.DrawnOutline | layer1/SceneRender.cpp:921-1167 | a whole `DoRendering` shows in the outline as its opening marker |
| Scene.TargetImage | layer1/SceneRender.cpp:315-324 | the caller's framebuffer wins; otherwise the window iff not offscreen, with the render buffer on the window and the default draw buffer offscreen |
| Scene.FrameDraws | layer1/SceneRender.cpp:415-497 | a pick draws nothing; a frame draws the scene 2·times times in stereo and times times in mono |
| Scene.MonoFrame | layer1/SceneRender.cpp:415-497 | a mono frame is the stencil, the background, then times draws counting down to 0 with the flags cleared |
| Scene.Scene.SetPrepareViewPortForStereo | layer1/SceneRender.cpp:1376-1388 | the deferred record becomes the given function, times, position, viewport and mode |
| Scene.Scene.InitializeViewPortToScreenBlock | layer1/SceneRender.cpp:1356-1374 | only the viewport changes: to the explicit viewport moved by the mouse position, or to the scene block; the mode turns from geowall to mono only with an explicit viewport |
| Scene.Scene.PrepareViewPortForStereoImpl | layer1/SceneRender.cpp:1392-1565 | the device becomes PrepareEye's state, one setup event with its operations is logged, and on fallback the `stereo_mode` setting becomes crosseye, stereo goes off and the scene mode becomes mono |
| Scene.Scene.RunPrepare | layer1/SceneRender.cpp:1331-1354 | runs the mono, left or right preparation with the effect PrepareEffect describes |
| Scene.Scene.SetDrawBufferForStereo | layer1/SceneRender.cpp:1571-1646 | the device becomes TeardownEyes's state and one teardown event with its operations, including clone_dynamic's switch to BACK_RIGHT before the return, is logged |
| Scene.Scene.InitializeViewport | layer1/SceneRender.cpp:1648-1674 | offscreen: the full image viewport; with a deferred record: its replay, the screen block first on the window; without one: an error report and no change |
| Scene.Scene.ReplayDeferred | layer1/SceneRender.cpp:1654-1667 | the deferred preparation is re-run as Replay describes, and draws nothing |
| Scene.Scene.DrawStencilInBuffer | layer1/SceneRender.cpp:1676-1762 | logs the mode's pattern over the current viewport; leaves fog, depth test and blend off, the stencil test on with ALWAYS 1, and all colours and depth writable |
| Scene.Scene.RenderAA | layer1/SceneRender.cpp:610-663 | the stage list is built only while absent and only if the unit quad builds; it is rendered iff it exists; the draw buffer ends as given |
| Scene.Scene.RenderPostProcessStack | layer1/SceneRender.cpp:1781-1789 | the post-process stack is the AA render |
| Scene.Scene.SetGridViewport | layer1/SceneRender.cpp:1104-1105 | slot −1 restores the current view |
| Scene.Scene.SlotPrelude | layer1/SceneRender.cpp:999-1016 | the editor is drawn unless only selections are drawn or OIT is on; the debug geometry is drawn unless only selections are drawn |
| Scene.Scene.SlotObjects | layer1/SceneRender.cpp:1017-1062 | the object renders of the slot are ObjectRenders; `cont` is cleared iff objects are drawn without OIT; the viewport is kept |
| Scene.Scene.OitObjects | layer1/SceneRender.cpp:1020-1031 | with OIT: the editor on the opaque pass, then the pass for the non-gadgets |
| Scene.Scene.AllPassObjects | layer1/SceneRender.cpp:1036-1046 | without OIT: the three passes for all objects, gadgets last |
| Scene.Scene.GadgetsOnly | layer1/SceneRender.cpp:1048-1062 | drawing only selections with OIT, the gadgets are drawn as transparent with blending, which is then off |
| Scene.Scene.SlotSelections | layer1/SceneRender.cpp:1079-1086 | selections are drawn unless OIT is on or they are excluded |
| Scene.Scene.SlotBody | layer1/SceneRender.cpp:991-1090 | one slot makes exactly SlotEvents |
| Scene.Scene.SlotLoopRun | layer1/SceneRender.cpp:984-1091 | the slot loop makes exactly SlotLoop over SlotCount slots; `cont` is cleared iff a slot drew objects without OIT |
| Scene.Scene.SelectionLoopRun | layer1/SceneRender.cpp:1147-1159 | the post-composite loop makes exactly SelectionLoop over last_slot + 1 slots |
| Scene.Scene.ReinitializeViewport | layer1/SceneRender.cpp:1106-1110 | re-establishing the viewport draws nothing |
| Scene.Scene.CompositeRun | layer1/SceneRender.cpp:1100-1161 | the composite makes exactly Composite |
| Scene.Scene.CompositeImageRun | layer1/SceneRender.cpp:1100-1144 | the composite up to the selections makes exactly CompositeImage and leaves blending off and depth writes on |
| Scene.Scene.PassEntryRun | layer1/SceneRender.cpp:966-982 | the OIT transparent pass binds OIT buffer 1; the buffer-2 branch for a later one-buffer pass is dead as written, since the first pass flag is always set there (the pass loop ends after the one-buffer transparent pass) |
| Scene.Scene.PassRun | layer1/SceneRender.cpp:961-1161 | one pass makes exactly PassEvents |
| Scene.Scene.PrologueRun | layer1/SceneRender.cpp:935-952 | with OIT on the window the frame goes offscreen with the background |
| Scene.Scene.PassLoop | layer1/SceneRender.cpp:956-1164 | the pass loop makes exactly Passes and leaves the draw-buffer pass flag at 0 |
| Scene.Scene.DoRendering | layer1/SceneRender.cpp:921-1167 | one `DoRendering` makes exactly DoRenderingEvents for the configuration read on entry, bracketed; without OIT the viewport, settings and deferred record are kept |
| Scene.Scene.DrawOnce | layer1/SceneRender.cpp:1230-1231 | a `DoRendering` shows in the outline as one draw with the current times and flags |
| Scene.Scene.PostProcessEye | layer1/SceneRender.cpp:1249-1251 | a per-eye post-process shows as PostProcessStack |
| Scene.Scene.LeftEye | layer1/SceneRender.cpp:1199-1231 | the left eye's outline is its prelude and one draw with the left flags |
| Scene.Scene.EyeTarget | layer1/SceneRender.cpp:1214-1228 | an eye's target is its setup, or the offscreen bind, then the background if asked |
| Scene.Scene.PrepareNow | layer1/SceneRender.cpp:1217-1220 | preparing an eye logs one setup event for that eye |
| Scene.Scene.RightEye | layer1/SceneRender.cpp:1249-1280 | the right eye's outline is BetweenEyes and one draw with the right flags |
| Scene.Scene.BetweenEyesRun | layer1/SceneRender.cpp:1249-1278 | between the eyes: post-process, right flags (anaglyph only), right target, depth clear |
| Scene.Scene.AfterRightEye | layer1/SceneRender.cpp:1281-1306 | anaglyph flags reset to 0; post-process; one teardown |
| Scene.Scene.StereoIterationRun | layer1/SceneRender.cpp:1193-1306 | a stereo iteration's outline is StereoIteration, and the anaglyph flags end at 0 |
| Scene.Scene.MonoIterationRun | layer1/SceneRender.cpp:1307-1327 | a mono iteration zeroes the flags and its outline is MonoIteration |
| Scene.Scene.IterationRun | layer1/SceneRender.cpp:1192-1328 | one iteration's outline is Iteration |
| Scene.Scene.RenderStereoLoop | layer1/SceneRender.cpp:1176-1329 | the loop's outline is LoopOutline over timesArg iterations, times counting down |
| Scene.Scene.PrepareStencil | layer1/SceneRender.cpp:295-300 | the stencil pattern is drawn iff stereo is rendered in a stencil mode and the stencil is not yet valid; it is valid afterwards iff it was or was built; the viewport is kept |
| Scene.Scene.DrawFrame | layer1/SceneRender.cpp:415-543 | a pick shows as the picking render; otherwise the background and the stereo loop's outline |
| Scene.Scene.Render | layer1/SceneRender.cpp:195-548 | without a valid context nothing happens; otherwise the stencil is built as PrepareStencil says, the viewport is restored, and the outline is FrameOutline for the decided stereo, with geowall turned into mono under an explicit viewport |

## Left out

- Floating-point work: projection matrices, `width_scale`, the aspect ratio, emission colours, accumulation weights, line and point widths.
- Matrix pushes and pops, lighting, dithering, multisampling, alpha test and the other immediate-mode state. They are not part of `Gl`.
- OpenVR: its eye sizes, draws and scene finish. The openvr setup is a no-op in `EyeSetup.PrepareEye`; its teardown and render buffer are modelled.
- The experimental ray-volume composition, and `SceneCopy` caching with frame timing. Both need a clock and external routines.
- Picking (`SceneRenderPicking`). It is a single `Picking` event.
- Object rendering, `ExecutiveRenderSelections`, `EditorRender`, shader loading and the OIT and unit-quad geometry. These are events, or the `canBuildUnitQuad` flag.
- The grid update (`GridUpdate`, `SceneGetGridSize`) and the uniform and VBO resets at the start of `SceneRender`. The grid shape is the state of `Grid.GridInfo`.
- `SceneSetFog`. Its result is the `fogActive` parameter.
- Whether `glAccum` errors. This is the device's `hasAccumBuffer`.
- The `GLFramebufferConfig` defaults. They come from a header that is not part of this model, and are taken as the window framebuffer with its first colour attachment.
- The post-processing branch of `SceneRender` driven by `render_to_texture_for_pp`. That flag is always false in this source, so the second stereo loop (selections only) and the post-process stack after the loop are not modelled.
- The loop itself still models its `render_to_texture` and `offscreenPrepared` inputs in full.
- The OpenGL ES variant. The `PURE_OPENGL_ES_2` branches are not modelled.
- 32-bit integer overflow in the grid arithmetic. Integers are unbounded.
- Scene.Scene.RenderStereoLoop: requires timesArg ≥ 0. A negative count would make the C loop run until it wraps around.
- Debug feedback checks (`PyMOLCheckOpenGLErr`) and debug prints.
- The current state `curState` is passed through to collaborators and not modelled.
- Scene.Scene.DoRendering: states the device state only through the viewport (without OIT), not the full `Gl` record, which a re-established viewport may also change.
- Scene.Scene.DrawOnce: states the trace outline only, not the device state after the draw.
- `SceneSetStereo(G, 0)` on the accumulation fallback (layer1/SceneRender.cpp:1505, 1548) is modelled as its visible result: the `stereo` setting off and the scene's stereo mode mono. Its other effects are not part of this model.
- The framebuffer id: `OpenGLDefaultFramebufferID` and `defaultBackbuffer.framebuffer` are both the window framebuffer `DefaultFb`. The source distinguishes them (the comment at layer1/SceneRender.cpp:944), for platforms whose default framebuffer is not 0.
- The shader manager `G->ShaderMgr` is taken to exist (layer1/SceneRender.cpp:1194, 1308). The null checks there are not modelled.
- `Objects.NonGadgetObjs` and `Objects.GadgetObjs`: the scene's object lists are taken to be the scene's objects filtered by kind, in scene order. How the lists are kept is not part of this model.
- Scene.Scene.RenderStereoLoop: states the trace outline, not the device state the eye teardowns leave.
- Scene.Scene.Render: states the stencil state, the restored viewport and the trace outline. It does not state the rest of the device state, such as blend and depth test.
- Scene.Scene.SetGridViewport: states only that slot −1 restores the current view. The full effect is Grid.GridInfo.SetViewport's contract.
