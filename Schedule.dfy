/** The pass/slot schedule of `DoRendering` (layer1/SceneRender.cpp:921-1167)
    as a function of its configuration: the calls into collaborators it
    makes, in order. `Scene.DoRendering` is proved to make exactly these. */
module Schedule {
  import opened Geometry
  import opened Device
  import opened Grid
  import opened Objects
  import opened Outline

  /** What `DoRendering` decides on: `t_mode_3_os` (shaders on and
      `transparency_mode` 3), the two selection flags, the grid fields it
      reads, the object filter, whether the draw framebuffer was the
      default one on entry, and `TM3_IS_ONEBUF`. */
  datatype Cfg = Cfg(tMode3Os: bool, onlySelections: bool, excludeSelections: bool,
                     active: bool, mode: GridMode, lastSlot: int,
                     which: bv8, enc: WhichEncoding, fbDefault: bool, oneBuf: bool)

  /** `t_mode_3`: order-independent transparency for this call. */
  predicate TMode3(c: Cfg) { !c.onlySelections && c.tMode3Os }

  function PassOf(p: int): Pass
  {
    if p == 0 then Opaque else if p == 1 then Antialias else Transparent
  }

  /** How many slots the slot loop runs: slots 0 .. last_slot with the grid
      on, only slot 0 with it off. */
  function SlotCount(c: Cfg): (n: int)
    ensures n >= 0
    ensures c.lastSlot < 0 ==> n == 0
    ensures c.lastSlot >= 0 ==> n == if c.active then c.lastSlot + 1 else 1
  {
    if c.lastSlot < 0 then 0 else if c.active then c.lastSlot + 1 else 1
  }

  /** The slot `ExecutiveRenderSelections` is given: the grid slot in a
      by-object grid, 0 (all slots) otherwise. */
  function SelectionSlot(c: Cfg, slot: int): int
  {
    if c.active && c.mode == ByObject then slot else 0
  }

  /** Selections are drawn in every slot except slot 0 of an active grid,
      which is the combined view. */
  function Selections(c: Cfg, slot: int): seq<Event>
  {
    if !c.active || slot > 0 then [RenderSelections(SelectionSlot(c, slot))] else []
  }

  /** The object renders of one slot. Without OIT all three passes are
      drawn at once for all objects with gadgets last; with OIT the current
      pass is drawn for non-gadgets only (with the editor on the opaque
      pass). When only selections are drawn, the gadgets of an OIT frame are
      drawn on the opaque pass, as transparent. */
  function ObjectRenders(c: Cfg, pass: Pass): seq<Event>
  {
    if !c.onlySelections then
      if TMode3(c) then
        (if pass == Opaque then [EditorRender] else []) +
        [RenderAll(pass, c.which & c.enc.nonGadgets, Undefined)]
      else
        [RenderAll(Opaque, c.which & c.enc.all, GadgetsLast),
         RenderAll(Antialias, c.which & c.enc.all, GadgetsLast),
         RenderAll(Transparent, c.which & c.enc.all, GadgetsLast)]
    else if c.tMode3Os && pass == Opaque then
      [RenderAll(Transparent, c.which & c.enc.gadgets, Undefined)]
    else []
  }

  /** One iteration of the slot loop. */
  function SlotEvents(c: Cfg, pass: Pass, slot: int): seq<Event>
  {
    (if !c.onlySelections && !TMode3(c) then [EditorRender] else []) +
    (if !c.onlySelections then [DebugRender] else []) +
    ObjectRenders(c, pass) +
    (if !TMode3(c) && !c.excludeSelections then Selections(c, slot) else [])
  }

  /** Slots 0 .. n-1 of one pass. */
  function SlotLoop(c: Cfg, pass: Pass, n: int): seq<Event>
    decreases n
  {
    if n <= 0 then [] else SlotLoop(c, pass, n - 1) + SlotEvents(c, pass, n - 1)
  }

  /** The selection loop after the OIT composite: slots 0 .. n-1, without
      the grid-off early exit of the main slot loop. */
  function SelectionLoop(c: Cfg, n: int): seq<Event>
    decreases n
  {
    if n <= 0 then [] else SelectionLoop(c, n - 1) + Selections(c, n - 1)
  }

  /** The OIT composite after the transparent pass: on the default
      framebuffer the deferred viewport is re-established (`reinit`, the
      calls that makes) and the opaque image copied; then the OIT resolve,
      the gadgets (default framebuffer only) and the deferred selections. */
  function Composite(c: Cfg, reinit: seq<Event>): seq<Event>
  {
    CompositeImage(c, reinit) +
    (if !c.excludeSelections then SelectionLoop(c, c.lastSlot + 1) else [])
  }

  /** The composite up to the deferred selections. */
  function CompositeImage(c: Cfg, reinit: seq<Event>): seq<Event>
  {
    (if c.fbDefault then reinit + [OitCopy] else []) +
    [OitResolve] +
    (if c.fbDefault then [RenderAll(Transparent, c.which & c.enc.gadgets, Undefined)] else [])
  }

  /** Before the slots of the OIT transparent pass: bind OIT buffer 1. */
  function PassEntry(c: Cfg, pass: Pass): seq<Event>
  {
    if TMode3(c) && pass == Transparent then [BindOit(1)] else []
  }

  /** After the slots of a pass. With one OIT buffer the transparent pass
      ends in `continue`, which leaves the pass loop: no composite. */
  function PassExit(c: Cfg, pass: Pass, reinit: seq<Event>): seq<Event>
  {
    if TMode3(c) && pass == Transparent && !c.oneBuf then Composite(c, reinit) else []
  }

  function PassEvents(c: Cfg, pass: Pass, reinit: seq<Event>): seq<Event>
  {
    PassEntry(c, pass) + SlotLoop(c, pass, SlotCount(c)) + PassExit(c, pass, reinit)
  }

  /** Passes run: without OIT, drawing objects, the first pass draws all three
      and clears `cont`; otherwise all three run. */
  function PassCount(c: Cfg): (n: int)
    ensures n == 1 || n == 3
    ensures n == 1 <==> !c.onlySelections && !TMode3(c) && SlotCount(c) > 0
  {
    if !c.onlySelections && !TMode3(c) && SlotCount(c) > 0 then 1 else 3
  }

  /** The first p passes (p <= 2, so the composite is not among them). */
  function PassesBefore(c: Cfg, p: int): seq<Event>
  {
    if p <= 0 then []
    else if p == 1 then PassEvents(c, Opaque, [])
    else PassEvents(c, Opaque, []) + PassEvents(c, Antialias, [])
  }

  /** The first p passes, the transparent one (p = 3) with its exit. */
  function PassesThrough(c: Cfg, p: int, reinit: seq<Event>): seq<Event>
  {
    if p < 3 then PassesBefore(c, p) else PassesBefore(c, 2) + PassEvents(c, Transparent, reinit)
  }

  lemma PassesStep(c: Cfg, p: int, reinit: seq<Event>)
    requires 0 <= p < 3
    requires p < 2 ==> reinit == []
    ensures PassesThrough(c, p + 1, reinit) == PassesThrough(c, p, []) + PassEvents(c, PassOf(p), reinit)
  {
    if p == 0 {
      assert PassesThrough(c, 0, []) == [];
    }
  }

  /** On entry with OIT, a frame drawn to the screen is redirected to the
      offscreen target, which gets the background. */
  function Prologue(c: Cfg): seq<Event>
  {
    if TMode3(c) && c.fbDefault then [BindOffscreen, BgGradient] else []
  }

  /** The calls of one `DoRendering`. */
  function DoRenderingEvents(c: Cfg, reinit: seq<Event>): seq<Event>
  {
    Prologue(c) + Passes(c, reinit)
  }

  /** The calls of the pass loop. */
  function Passes(c: Cfg, reinit: seq<Event>): seq<Event>
  {
    if PassCount(c) == 1 then PassEvents(c, Opaque, [])
    else PassesBefore(c, 2) + PassEvents(c, Transparent, reinit)
  }

  /** The frame with two-buffer order-independent transparency: the
      offscreen prologue, the opaque and antialiased slots, OIT buffer 1
      bound for the transparent slots, then the composite. */
  lemma OitFrame(c: Cfg, reinit: seq<Event>)
    requires TMode3(c) && !c.oneBuf
    ensures DoRenderingEvents(c, reinit) ==
              Prologue(c) + SlotLoop(c, Opaque, SlotCount(c)) + SlotLoop(c, Antialias, SlotCount(c)) +
              [BindOit(1)] + SlotLoop(c, Transparent, SlotCount(c)) + Composite(c, reinit)
  {
    var n := SlotCount(c);
    var pre, o, a, t, comp := Prologue(c), SlotLoop(c, Opaque, n), SlotLoop(c, Antialias, n),
                              SlotLoop(c, Transparent, n), Composite(c, reinit);
    assert PassEvents(c, Opaque, []) == o by { assert [] + o + [] == o; }
    assert PassEvents(c, Antialias, []) == a by { assert [] + a + [] == a; }
    assert Passes(c, reinit) == (o + a) + ([BindOit(1)] + t + comp);
    AppendAssoc(pre, o + a, [BindOit(1)] + t + comp);
    AppendAssoc(pre + (o + a), [BindOit(1)] + t, comp);
    AppendAssoc(pre + (o + a), [BindOit(1)], t);
    AppendAssoc(pre, o, a);
  }

  /** Without order-independent transparency, a frame that draws objects in
      at least one slot runs only the first pass, whose slots draw all
      three passes' worth. */
  lemma SinglePassFrame(c: Cfg, reinit: seq<Event>)
    requires !c.onlySelections && !TMode3(c) && SlotCount(c) > 0
    ensures DoRenderingEvents(c, reinit) == SlotLoop(c, Opaque, SlotCount(c))
  {
    assert Prologue(c) == [] && PassEntry(c, Opaque) == [] && PassExit(c, Opaque, []) == [];
  }

  /* ---------------- membership ---------------- */

  lemma {:induction false} InSlotLoop(c: Cfg, pass: Pass, n: int, e: Event) returns (slot: int)
    requires e in SlotLoop(c, pass, n)
    ensures 0 <= slot < n && e in SlotEvents(c, pass, slot)
    decreases n
  {
    if e in SlotLoop(c, pass, n - 1) {
      slot := InSlotLoop(c, pass, n - 1, e);
    } else {
      slot := n - 1;
    }
  }

  lemma {:induction false} InSelectionLoop(c: Cfg, n: int, e: Event) returns (slot: int)
    requires e in SelectionLoop(c, n)
    ensures 0 <= slot < n && e in Selections(c, slot)
    decreases n
  {
    if e in SelectionLoop(c, n - 1) {
      slot := InSelectionLoop(c, n - 1, e);
    } else {
      slot := n - 1;
    }
  }

  /** Every event of a pass comes from its entry, one of its slots or its exit. */
  lemma InPass(c: Cfg, pass: Pass, reinit: seq<Event>, e: Event) returns (slot: int)
    requires e in PassEvents(c, pass, reinit)
    ensures || e in PassEntry(c, pass)
            || (0 <= slot < SlotCount(c) && e in SlotEvents(c, pass, slot))
            || e in PassExit(c, pass, reinit)
  {
    slot := 0;
    if e in SlotLoop(c, pass, SlotCount(c)) {
      slot := InSlotLoop(c, pass, SlotCount(c), e);
    }
  }

  /** Every event of a `DoRendering` comes from the prologue, a slot of some
      pass, the OIT binding, or the composite. */
  lemma InDoRendering(c: Cfg, reinit: seq<Event>, e: Event) returns (pass: Pass, slot: int)
    requires e in DoRenderingEvents(c, reinit)
    ensures || e in Prologue(c)
            || (0 <= slot < SlotCount(c) && e in SlotEvents(c, pass, slot))
            || (TMode3(c) && e == BindOit(1))
            || (TMode3(c) && !c.oneBuf && e in Composite(c, reinit))
  {
    pass, slot := Opaque, 0;
    if e in Prologue(c) {
    } else if e in PassEvents(c, Opaque, []) {
      slot := InPass(c, Opaque, [], e);
    } else if e in PassEvents(c, Antialias, []) {
      pass := Antialias;
      slot := InPass(c, Antialias, [], e);
    } else {
      assert e in PassEvents(c, Transparent, reinit);
      pass := Transparent;
      slot := InPass(c, Transparent, reinit, e);
    }
  }

  /* ---------------- properties ---------------- */

  /** Without OIT, a slot that draws objects makes exactly three `renderAll`
      calls, opaque, antialiased and transparent, all objects with gadgets
      last; and the pass loop stops after the first pass. */
  lemma NonOitSlot(c: Cfg, pass: Pass, slot: int)
    requires !c.onlySelections && !TMode3(c)
    ensures SlotEvents(c, pass, slot) ==
              [EditorRender, DebugRender,
               RenderAll(Opaque, c.which & c.enc.all, GadgetsLast),
               RenderAll(Antialias, c.which & c.enc.all, GadgetsLast),
               RenderAll(Transparent, c.which & c.enc.all, GadgetsLast)] +
              (if c.excludeSelections then [] else Selections(c, slot))
    ensures SlotCount(c) > 0 ==> PassCount(c) == 1
  {
    var all := c.which & c.enc.all;
    var objs := [RenderAll(Opaque, all, GadgetsLast), RenderAll(Antialias, all, GadgetsLast),
                 RenderAll(Transparent, all, GadgetsLast)];
    var sel := if c.excludeSelections then [] else Selections(c, slot);
    assert ObjectRenders(c, pass) == objs;
    assert SlotEvents(c, pass, slot) == [EditorRender] + [DebugRender] + objs + sel;
  }

  /** With the grid off only slot 0 runs: a plain frame is the editor, the
      debug geometry, the three passes, and the selections for all slots. */
  lemma GridOffFrame(c: Cfg, reinit: seq<Event>)
    requires !c.active && c.lastSlot >= 0 && !c.onlySelections && !TMode3(c)
    ensures DoRenderingEvents(c, reinit) ==
              [EditorRender, DebugRender,
               RenderAll(Opaque, c.which & c.enc.all, GadgetsLast),
               RenderAll(Antialias, c.which & c.enc.all, GadgetsLast),
               RenderAll(Transparent, c.which & c.enc.all, GadgetsLast)] +
              (if c.excludeSelections then [] else [RenderSelections(0)])
  {
    NonOitSlot(c, Opaque, 0);
    assert SlotLoop(c, Opaque, 1) == SlotEvents(c, Opaque, 0);
  }

  /** The selection loop after the OIT composite has no early exit: with
      the grid off it draws the selections of all slots once per slot. */
  lemma {:induction false} GridOffSelectionRepeats(c: Cfg, n: int)
    requires !c.active && n >= 0
    ensures SelectionLoop(c, n) == seq(n, i => RenderSelections(0))
    decreases n
  {
    if n > 0 {
      GridOffSelectionRepeats(c, n - 1);
    }
  }

  /** Selections of the combined view (slot 0 of an active grid) are never
      drawn; the slot is passed on only in a by-object grid, where it is a
      real cell; otherwise 0 is passed. */
  lemma SelectionSlots(c: Cfg, reinit: seq<Event>, s: int)
    requires RenderSelections(s) !in reinit
    requires RenderSelections(s) in DoRenderingEvents(c, reinit)
    ensures c.active && c.mode == ByObject ==> 1 <= s <= c.lastSlot
    ensures !(c.active && c.mode == ByObject) ==> s == 0
  {
    var slot := SelectionOrigin(c, reinit, RenderSelections(s));
    assert (!c.active || slot > 0) && s == SelectionSlot(c, slot);
  }

  /** Each selection render of a frame is the selection render of a slot. */
  lemma SelectionOrigin(c: Cfg, reinit: seq<Event>, e: Event) returns (slot: int)
    requires e.RenderSelections? && e !in reinit
    requires e in DoRenderingEvents(c, reinit)
    ensures 0 <= slot <= c.lastSlot && e in Selections(c, slot)
  {
    var pass;
    pass, slot := InDoRendering(c, reinit, e);
    if e in Composite(c, reinit) {
      CompositeSelection(c, reinit, e);
      slot := InSelectionLoop(c, c.lastSlot + 1, e);
    } else {
      SlotSelections(c, pass, slot, e);
    }
  }

  /** The composite's own selection renders are those of its selection loop. */
  lemma CompositeSelection(c: Cfg, reinit: seq<Event>, e: Event)
    requires e.RenderSelections? && e !in reinit && e in Composite(c, reinit)
    ensures e in SelectionLoop(c, c.lastSlot + 1)
  {
    assert e !in CompositeImage(c, reinit);
  }

  /** A selection render of a slot is that slot's `Selections`. */
  lemma SlotSelections(c: Cfg, pass: Pass, slot: int, e: Event)
    requires e.RenderSelections? && e in SlotEvents(c, pass, slot)
    ensures e in Selections(c, slot)
  {
  }

  /** Drawing only selections never draws non-gadget objects: the only
      object render left is the gadgets, as transparent, in an OIT frame. */
  lemma OnlySelectionsDrawsOnlyGadgets(c: Cfg, reinit: seq<Event>, e: Event)
    requires c.onlySelections
    requires e in DoRenderingEvents(c, reinit) && e.RenderAll?
    ensures e == RenderAll(Transparent, c.which & c.enc.gadgets, Undefined) && c.tMode3Os
  {
    var pass, slot := InDoRendering(c, reinit, e);
    assert Prologue(c) == [];
    OnlySelectionsSlot(c, pass, slot, e);
  }

  lemma OnlySelectionsSlot(c: Cfg, pass: Pass, slot: int, e: Event)
    requires c.onlySelections
    requires e in SlotEvents(c, pass, slot) && e.RenderAll?
    ensures e == RenderAll(Transparent, c.which & c.enc.gadgets, Undefined) && c.tMode3Os
  {
    var sel := if c.excludeSelections then [] else Selections(c, slot);
    assert SlotEvents(c, pass, slot) == ObjectRenders(c, pass) + sel;
    assert e !in sel;
  }

  /** With OIT, the slots draw non-gadgets only and no selections; the
      selections are drawn after the composite, which with two OIT buffers
      resolves the image once. */
  lemma OitSlotsDeferSelections(c: Cfg, pass: Pass, slot: int, e: Event)
    requires TMode3(c)
    requires e in SlotEvents(c, pass, slot)
    ensures !e.RenderSelections?
    ensures e.RenderAll? ==> e == RenderAll(pass, c.which & c.enc.nonGadgets, Undefined)
  {
  }

  /** The gadgets of an OIT frame are drawn after the resolve exactly when
      the frame was started on the default framebuffer. */
  lemma OitGadgetsOnDefaultFramebuffer(c: Cfg, reinit: seq<Event>)
    requires TMode3(c) && !c.oneBuf
    requires forall e :: e in reinit ==> !e.RenderAll?
    ensures (exists e :: e in Composite(c, reinit) && e.RenderAll?) <==> c.fbDefault
  {
    if !c.fbDefault {
      forall e | e in Composite(c, reinit) ensures !e.RenderAll? {
        if e in SelectionLoop(c, c.lastSlot + 1) {
          var sl := InSelectionLoop(c, c.lastSlot + 1, e);
        }
      }
    } else {
      assert RenderAll(Transparent, c.which & c.enc.gadgets, Undefined) in Composite(c, reinit);
    }
  }

  /** With a single OIT buffer the transparent pass's `continue` leaves the
      pass loop: there is no resolve, and no selection is drawn at all. */
  lemma OneBufferSkipsComposite(c: Cfg, reinit: seq<Event>)
    requires TMode3(c) && c.oneBuf
    ensures OitResolve !in DoRenderingEvents(c, reinit)
    ensures forall s :: RenderSelections(s) !in DoRenderingEvents(c, reinit)
  {
    forall s | RenderSelections(s) in DoRenderingEvents(c, reinit)
      ensures false
    {
      OneBufferEvent(c, reinit, RenderSelections(s));
    }
    if OitResolve in DoRenderingEvents(c, reinit) {
      OneBufferEvent(c, reinit, OitResolve);
    }
  }

  lemma OneBufferEvent(c: Cfg, reinit: seq<Event>, e: Event)
    requires TMode3(c) && c.oneBuf && e in DoRenderingEvents(c, reinit)
    ensures !e.RenderSelections? && !e.OitResolve?
  {
    var pass, slot := InDoRendering(c, reinit, e);
    if e in SlotEvents(c, pass, slot) {
      OitSlotsDeferSelections(c, pass, slot, e);
    }
  }

  lemma SlotEventIsNoBracket(c: Cfg, pass: Pass, slot: int, e: Event)
    requires e in SlotEvents(c, pass, slot)
    ensures !e.BeginDoRendering? && !e.EndDoRendering?
  {
  }

  lemma CompositeEventIsNoBracket(c: Cfg, reinit: seq<Event>, e: Event)
    requires NoBrackets(reinit) && e in Composite(c, reinit)
    ensures !e.BeginDoRendering? && !e.EndDoRendering?
  {
    if e in reinit {
      var i :| 0 <= i < |reinit| && reinit[i] == e;
    } else if e in SelectionLoop(c, c.lastSlot + 1) {
      var sl := InSelectionLoop(c, c.lastSlot + 1, e);
    }
  }

  /** A `DoRendering` makes no nested `DoRendering`: its calls, and those of
      the viewport it re-establishes, can be bracketed. */
  lemma ScheduleHasNoBrackets(c: Cfg, reinit: seq<Event>)
    requires NoBrackets(reinit)
    ensures NoBrackets(DoRenderingEvents(c, reinit))
  {
    var s := DoRenderingEvents(c, reinit);
    forall i | 0 <= i < |s| ensures !s[i].BeginDoRendering? && !s[i].EndDoRendering? {
      var e := s[i];
      var pass, slot := InDoRendering(c, reinit, e);
      if e in Prologue(c) {
      } else if 0 <= slot < SlotCount(c) && e in SlotEvents(c, pass, slot) {
        SlotEventIsNoBracket(c, pass, slot, e);
      } else if e == BindOit(1) {
      } else {
        CompositeEventIsNoBracket(c, reinit, e);
      }
    }
  }
}
