/** Which objects `SceneRenderAll` draws, in which order, and with which
    state index `SceneRenderAllObject` draws each
    (layer1/SceneRender.cpp:665-757, 843-896). */
module Objects {
  import opened Geometry
  import opened Device
  import opened Grid

  /** The object types the dispatch tells apart (`cObjectGizmo`, `cObjectVolume`). */
  datatype ObjType = Gizmo | Volume | OtherType

  /** `pymol::RenderContext`: camera space, or the unit window of overlays
      such as gadgets and colour ramps. */
  datatype RenderContext = Camera | UnitWindow

  /** The parts of a `pymol::CObject` the render core reads. `currentState`
      is what `ObjectGetCurrentState(obj, false)` returns. */
  datatype Obj = Obj(id: int, objType: ObjType, gadget: bool, context: RenderContext,
                     gridSlot: int, nFrame: int, currentState: int)

  /** The bits of `SceneRenderWhich`. */
  datatype WhichEncoding = WhichEncoding(nonGadgets: bv8, gadgets: bv8, all: bv8, gizmos: bv8)

  /** The grid fields `SceneRenderAllObject` reads. */
  datatype GridView = GridView(active: bool, mode: GridMode, slot: int)

  /** One `obj->render(info)` call with `info->state` = `state`. */
  datatype Draw = Draw(obj: Obj, state: int)

  /* ---------------- the object lists ---------------- */

  function Filter(objs: seq<Obj>, gadgets: bool): (r: seq<Obj>)
    ensures forall o :: o in r <==> o in objs && o.gadget == gadgets
    ensures |r| <= |objs|
  {
    if objs == [] then []
    else
      var rest := Filter(objs[1..], gadgets);
      if objs[0].gadget == gadgets then [objs[0]] + rest else rest
  }

  /** `I->NonGadgetObjs`: the scene's objects that are not gadgets, in scene order. */
  function NonGadgetObjs(objs: seq<Obj>): seq<Obj> { Filter(objs, false) }

  /** `I->GadgetObjs`: the scene's gadgets, in scene order. */
  function GadgetObjs(objs: seq<Obj>): seq<Obj> { Filter(objs, true) }

  /** Splitting the scene's objects into non-gadgets and gadgets loses and
      duplicates nothing. */
  lemma {:induction false} SplitIsPermutation(objs: seq<Obj>)
    ensures multiset(NonGadgetObjs(objs)) + multiset(GadgetObjs(objs)) == multiset(objs)
  {
    if objs != [] {
      SplitIsPermutation(objs[1..]);
      assert objs == [objs[0]] + objs[1..];
    }
  }

  /** Drop the gizmos from a list. */
  function SkipGizmos(objs: seq<Obj>): (r: seq<Obj>)
    ensures forall o :: o in r <==> o in objs && o.objType != Gizmo
  {
    if objs == [] then []
    else
      var rest := SkipGizmos(objs[1..]);
      if objs[0].objType == Gizmo then rest else [objs[0]] + rest
  }

  lemma {:induction false} SkipGizmosMultiset(objs: seq<Obj>, o: Obj)
    ensures multiset(SkipGizmos(objs))[o] == if o.objType == Gizmo then 0 else multiset(objs)[o]
  {
    if objs != [] {
      SkipGizmosMultiset(objs[1..], o);
      assert objs == [objs[0]] + objs[1..];
    }
  }

  lemma {:induction false} SkipGizmosOfFilter(objs: seq<Obj>, gadgets: bool)
    ensures SkipGizmos(Filter(objs, gadgets)) == Filter(SkipGizmos(objs), gadgets)
  {
    if objs != [] {
      SkipGizmosOfFilter(objs[1..], gadgets);
    }
  }

  /* ---------------- SceneRenderAll ---------------- */

  /** The objects `SceneRenderAll` offers to `SceneRenderAllObject`, in order:
      with the All bit, every object (Undefined order) or non-gadgets then
      gadgets (GadgetsLast); else with the Gadgets bit the gadgets; else with
      the NonGadgets bit the non-gadgets. Gizmos are skipped unless the
      Gizmos bit is set, except among the non-gadgets (the NonGadgets list
      is never checked for gizmos). */
  function Candidates(objs: seq<Obj>, enc: WhichEncoding, which: bv8, order: Order): (r: seq<Obj>)
    ensures forall o :: o in r ==> o in objs
    ensures which & enc.all == 0 && which & enc.gadgets != 0 ==> forall o :: o in r ==> o.gadget
    ensures which & enc.all == 0 && which & enc.gadgets == 0 ==> forall o :: o in r ==> !o.gadget
    ensures which & enc.all == 0 && which & enc.gadgets == 0 && which & enc.nonGadgets == 0 ==> r == []
    ensures which & enc.gizmos == 0 ==>
              forall o :: o in r && o.objType == Gizmo ==>
                !o.gadget && ((which & enc.all != 0 && order == GadgetsLast) || which & enc.all == 0)
  {
    var keepGizmos := which & enc.gizmos != 0;
    var gadgets := if keepGizmos then GadgetObjs(objs) else SkipGizmos(GadgetObjs(objs));
    if which & enc.all != 0 then
      match order
      case Undefined => if keepGizmos then objs else SkipGizmos(objs)
      case GadgetsLast => NonGadgetObjs(objs) + gadgets
    else if which & enc.gadgets != 0 then gadgets
    else if which & enc.nonGadgets != 0 then NonGadgetObjs(objs)
    else []
  }

  /** `SceneRenderAllObject`: the state index an object is drawn with, or
      None when it is not drawn. Overlays are drawn in their current state.
      In camera space without a per-state grid, the current state; with
      `grid_mode` by-object-states, slot s shows `state + s - 1`, when that
      is not negative; with by-object-by-state, slot s shows state
      `s - grid_slot - 1` of each object that has such a state. In a
      per-state grid slot 0 draws nothing in camera space. */
  function DrawState(o: Obj, g: GridView, state: int): (r: Option<int>)
    ensures o.context == UnitWindow ==> r == Some(o.currentState)
    ensures o.context == Camera && g.active && g.mode == ByObjectStates ==>
              (r.Some? <==> g.slot != 0 && state + g.slot - 1 >= 0) &&
              (r.Some? ==> r.value == state + g.slot - 1 >= 0)
    ensures o.context == Camera && g.active && g.mode == ByObjectByState ==>
              (r.Some? <==> g.slot != 0 && 0 <= g.slot - o.gridSlot - 1 < o.nFrame) &&
              (r.Some? ==> r.value == g.slot - o.gridSlot - 1 && 0 <= r.value < o.nFrame)
    ensures o.context == Camera && !(g.active && (g.mode == ByObjectStates || g.mode == ByObjectByState)) ==>
              r == Some(o.currentState)
  {
    match o.context
    case UnitWindow => Some(o.currentState)
    case Camera =>
      if !g.active then Some(o.currentState)
      else
        match g.mode
        case NoGrid => Some(o.currentState)
        case ByObject => Some(o.currentState)
        case ByObjectStates =>
          if g.slot != 0 && state + g.slot - 1 >= 0 then Some(state + g.slot - 1) else None
        case ByObjectByState =>
          var s := g.slot - o.gridSlot - 1;
          if g.slot != 0 && s >= 0 && s < o.nFrame then Some(s) else None
  }

  /** The draws of one candidate list: objects whose grid slot is not shown
      (`SceneGetDrawFlag`, passed in as `drawFlag`) or that have no state to
      show are passed over, and every other object is drawn in its state. */
  function Draws(objs: seq<Obj>, g: GridView, state: int, drawFlag: int -> bool): (r: seq<Draw>)
    ensures |r| <= |objs|
    ensures forall d :: d in r ==>
              d.obj in objs && drawFlag(d.obj.gridSlot) && DrawState(d.obj, g, state) == Some(d.state)
    ensures forall o :: o in objs && drawFlag(o.gridSlot) && DrawState(o, g, state).Some? ==>
              Draw(o, DrawState(o, g, state).value) in r
  {
    if objs == [] then []
    else
      var rest := Draws(objs[1..], g, state, drawFlag);
      var o := objs[0];
      if drawFlag(o.gridSlot) then
        match DrawState(o, g, state)
        case Some(s) => [Draw(o, s)] + rest
        case None => rest
      else rest
  }

  /** `SceneRenderAll`: the render calls one invocation makes, in order. */
  function RenderAll(objs: seq<Obj>, enc: WhichEncoding, which: bv8, order: Order,
                     g: GridView, state: int, drawFlag: int -> bool): (r: seq<Draw>)
    ensures forall d :: d in r ==>
              d.obj in objs && drawFlag(d.obj.gridSlot) && DrawState(d.obj, g, state) == Some(d.state)
    ensures forall o :: o in Candidates(objs, enc, which, order) && drawFlag(o.gridSlot) &&
                        DrawState(o, g, state).Some? ==>
              Draw(o, DrawState(o, g, state).value) in r
  {
    Draws(Candidates(objs, enc, which, order), g, state, drawFlag)
  }

  /* ---------------- properties ---------------- */

  /** Without the Gizmos bit, no gizmo is drawn, unless it is a non-gadget
      drawn through the non-gadget list. */
  lemma GizmosSkipped(objs: seq<Obj>, enc: WhichEncoding, which: bv8, order: Order,
                      g: GridView, state: int, drawFlag: int -> bool, d: Draw)
    requires which & enc.gizmos == 0
    requires d in RenderAll(objs, enc, which, order, g, state, drawFlag)
    ensures d.obj.objType == Gizmo ==> !d.obj.gadget
    ensures d.obj.objType == Gizmo ==> (which & enc.all != 0 && order == GadgetsLast) ||
                                       (which & enc.all == 0 && which & enc.gadgets == 0)
  {
  }

  /** A filter without the All bit but with the Gadgets bit draws gadgets
      only; one with neither draws non-gadgets only. */
  lemma FilterKinds(objs: seq<Obj>, enc: WhichEncoding, which: bv8, order: Order,
                    g: GridView, state: int, drawFlag: int -> bool, d: Draw)
    requires which & enc.all == 0
    requires d in RenderAll(objs, enc, which, order, g, state, drawFlag)
    ensures which & enc.gadgets != 0 ==> d.obj.gadget
    ensures which & enc.gadgets == 0 ==> !d.obj.gadget && which & enc.nonGadgets != 0
  {
  }

  /** With GadgetsLast every non-gadget is drawn before every gadget. */
  lemma {:induction false} DrawsKeepOrder(objs: seq<Obj>, g: GridView, state: int, drawFlag: int -> bool,
                                          a: seq<Obj>, b: seq<Obj>)
    requires objs == a + b
    ensures Draws(objs, g, state, drawFlag) == Draws(a, g, state, drawFlag) + Draws(b, g, state, drawFlag)
    decreases |a|
  {
    if a != [] {
      assert objs[1..] == a[1..] + b;
      DrawsKeepOrder(objs[1..], g, state, drawFlag, a[1..], b);
    } else {
      assert objs == b;
    }
  }

  lemma GadgetsDrawnLast(objs: seq<Obj>, enc: WhichEncoding, which: bv8,
                         g: GridView, state: int, drawFlag: int -> bool, i: int, j: int)
    requires which & enc.all != 0
    requires var r := RenderAll(objs, enc, which, GadgetsLast, g, state, drawFlag);
             0 <= i < |r| && 0 <= j < |r| && r[i].obj.gadget && !r[j].obj.gadget
    ensures j < i
  {
    var keepGizmos := which & enc.gizmos != 0;
    var gadgets := if keepGizmos then GadgetObjs(objs) else SkipGizmos(GadgetObjs(objs));
    assert Candidates(objs, enc, which, GadgetsLast) == NonGadgetObjs(objs) + gadgets;
    DrawsSplitByGadget(NonGadgetObjs(objs), gadgets, g, state, drawFlag, i, j);
  }

  /** Drawing non-gadgets followed by gadgets puts every gadget draw after
      every non-gadget draw. */
  lemma DrawsSplitByGadget(front: seq<Obj>, back: seq<Obj>, g: GridView, state: int,
                           drawFlag: int -> bool, i: int, j: int)
    requires forall o :: o in front ==> !o.gadget
    requires forall o :: o in back ==> o.gadget
    requires var r := Draws(front + back, g, state, drawFlag);
             0 <= i < |r| && 0 <= j < |r| && r[i].obj.gadget && !r[j].obj.gadget
    ensures j < i
  {
    DrawsKeepOrder(front + back, g, state, drawFlag, front, back);
    var r := Draws(front + back, g, state, drawFlag);
    var a := Draws(front, g, state, drawFlag);
    var b := Draws(back, g, state, drawFlag);
    forall k | 0 <= k < |a| ensures !r[k].obj.gadget {
      assert r[k] == a[k] && a[k] in a;
    }
    forall k | |a| <= k < |r| ensures r[k].obj.gadget {
      assert r[k] == b[k - |a|] && b[k - |a|] in b;
    }
  }

  /** With the Gizmos bit set, or with no gizmo among the non-gadgets, the two
      orders offer the same objects, only rearranged. Otherwise GadgetsLast
      offers the non-gadget gizmos that Undefined skips. */
  lemma OrdersOfferSameObjects(objs: seq<Obj>, enc: WhichEncoding, which: bv8)
    requires which & enc.all != 0
    requires which & enc.gizmos != 0 || forall o :: o in objs && !o.gadget ==> o.objType != Gizmo
    ensures multiset(Candidates(objs, enc, which, GadgetsLast)) == multiset(Candidates(objs, enc, which, Undefined))
  {
    SplitIsPermutation(objs);
    if which & enc.gizmos == 0 {
      SkipGizmosOfFilter(objs, false);
      SkipGizmosOfFilter(objs, true);
      NoGizmoSkipIsIdentity(NonGadgetObjs(objs));
      SplitIsPermutation(SkipGizmos(objs));
    }
  }

  lemma {:induction false} NoGizmoSkipIsIdentity(objs: seq<Obj>)
    requires forall o :: o in objs ==> o.objType != Gizmo
    ensures SkipGizmos(objs) == objs
  {
    if objs != [] {
      NoGizmoSkipIsIdentity(objs[1..]);
    }
  }

  /** The difference: a non-gadget gizmo is offered by GadgetsLast even
      without the Gizmos bit, but not by Undefined. */
  lemma NonGadgetGizmoOnlyInGadgetsLast(objs: seq<Obj>, enc: WhichEncoding, which: bv8, o: Obj)
    requires which & enc.all != 0 && which & enc.gizmos == 0
    requires o in objs && o.objType == Gizmo && !o.gadget
    ensures o in Candidates(objs, enc, which, GadgetsLast)
    ensures o !in Candidates(objs, enc, which, Undefined)
  {
  }

  /** In a by-object-by-state grid, each object shows in slot s its state
      s - grid_slot - 1, so an object with n frames appears in the n slots
      after its own grid slot, one state per slot. */
  lemma ByStateSlots(o: Obj, g: GridView, state: int)
    requires o.context == Camera && g.active && g.mode == ByObjectByState && g.slot != 0
    ensures DrawState(o, g, state).Some? <==> o.gridSlot + 1 <= g.slot <= o.gridSlot + o.nFrame
  {
  }
}
