/** The outline of a trace: what `SceneRenderStereoLoop`
    (layer1/SceneRender.cpp:1176-1329) does around its `DoRendering` calls.
    Every `DoRendering` is bracketed in the trace by `BeginDoRendering` and
    `EndDoRendering`; the outline keeps the opening marker and drops what is
    inside, and abstracts the device operations of the eye setups and
    teardowns and the stage lists of the post-processing renders. */
module Outline {
  import opened Device
  import opened Stereo

  datatype ScanState = ScanState(events: seq<Event>, inside: bool)

  predicate NoBrackets(s: seq<Event>)
  {
    forall i :: 0 <= i < |s| ==> !s[i].BeginDoRendering? && !s[i].EndDoRendering?
  }

  /** The outline of one event outside a bracket. */
  function Abstract(e: Event): seq<Event>
  {
    match e
    case Setup(position, _) => [Setup(position, [])]
    case Teardown(_) => [Teardown([])]
    case PostProcess(_) => []
    case _ => [e]
  }

  function Step(st: ScanState, e: Event): ScanState
  {
    if st.inside then
      if e.EndDoRendering? then ScanState(st.events, false) else st
    else if e.BeginDoRendering? then ScanState(st.events + [e], true)
    else ScanState(st.events + Abstract(e), false)
  }

  function Scan(s: seq<Event>): ScanState
    decreases |s|
  {
    if s == [] then ScanState([], false) else Step(Scan(s[..|s| - 1]), s[|s| - 1])
  }

  lemma ScanSnoc(a: seq<Event>, e: Event)
    ensures Scan(a + [e]) == Step(Scan(a), e)
  {
    assert (a + [e])[..|a|] == a;
  }

  /** Inside a bracket, events that are not brackets leave the outline alone. */
  lemma {:induction false} ScanInside(a: seq<Event>, inner: seq<Event>)
    requires Scan(a).inside && NoBrackets(inner)
    ensures Scan(a + inner) == Scan(a)
    decreases |inner|
  {
    if inner != [] {
      var n := |inner| - 1;
      assert a + inner == (a + inner[..n]) + [inner[n]];
      ScanInside(a, inner[..n]);
      ScanSnoc(a + inner[..n], inner[n]);
    } else {
      assert a + inner == a;
    }
  }

  /** A bracketed `DoRendering` shows in the outline as its opening marker. */
  lemma ScanBracket(a: seq<Event>, b: Event, inner: seq<Event>)
    requires !Scan(a).inside && b.BeginDoRendering? && NoBrackets(inner)
    ensures Scan(a + [b] + inner + [EndDoRendering]) == ScanState(Scan(a).events + [b], false)
  {
    ScanSnoc(a, b);
    ScanInside(a + [b], inner);
    ScanSnoc(a + [b] + inner, EndDoRendering);
  }

  /** An event outside a bracket adds its abstraction to the outline. */
  lemma ScanPlain(a: seq<Event>, e: Event)
    requires !Scan(a).inside && !e.BeginDoRendering?
    ensures Scan(a + [e]) == ScanState(Scan(a).events + Abstract(e), false)
  {
    ScanSnoc(a, e);
  }

  /** Outside a bracket, the outline of a concatenation is the outlines of
      its parts one after the other. */
  lemma {:induction false} ScanConcat(a: seq<Event>, b: seq<Event>)
    requires !Scan(a).inside
    ensures Scan(a + b) == ScanState(Scan(a).events + Scan(b).events, Scan(b).inside)
    decreases |b|
  {
    if b == [] {
      assert a + b == a;
    } else {
      var n := |b| - 1;
      assert a + b == (a + b[..n]) + [b[n]];
      ScanConcat(a, b[..n]);
      ScanSnoc(a + b[..n], b[n]);
      assert b == b[..n] + [b[n]];
      ScanSnoc(b[..n], b[n]);
    }
  }

  /** Two pieces with known outlines, one after the other. */
  lemma ScanJoin(a: seq<Event>, b: seq<Event>, x: seq<Event>, y: seq<Event>)
    requires Scan(a) == ScanState(x, false) && Scan(b) == ScanState(y, false)
    ensures Scan(a + b) == ScanState(x + y, false)
  {
    ScanConcat(a, b);
  }

  /** An event that is not a bracket shows as its abstraction. */
  lemma ScanOne(e: Event)
    requires !e.BeginDoRendering?
    ensures Scan([e]) == ScanState(Abstract(e), false)
  {
    assert [e][..0] == [];
  }

  /** Two plain events in a row. */
  lemma ScanTwo(e: Event, f: Event)
    requires !e.BeginDoRendering? && !f.BeginDoRendering?
    ensures Scan([e, f]) == ScanState(Abstract(e) + Abstract(f), false)
  {
    ScanOne(e);
    ScanPlain([e], f);
    assert [e] + [f] == [e, f];
  }

  /** A whole `DoRendering` bracket shows as its opening marker. */
  lemma ScanDraw(b: Event, inner: seq<Event>)
    requires b.BeginDoRendering? && NoBrackets(inner)
    ensures Scan([b] + inner + [EndDoRendering]) == ScanState([b], false)
  {
    ScanBracket([], b, inner);
    assert [] + [b] + inner + [EndDoRendering] == [b] + inner + [EndDoRendering];
  }

  /** What one run of the stereo loop decides on: whether stereo is rendered,
      the stereo mode, whether the selections alone are drawn, whether the
      grid is active, whether the image goes to a texture for
      post-processing (`rtt`), whether each eye is post-processed on its own
      (`spo`), and the anaglyph flags found on entry. */
  datatype LoopParams = LoopParams(times: int, stereo: bool, mode: int, onlySelections: bool,
                                   gridActive: bool, rtt: bool, spo: bool,
                                   flag: int, blend: int)

  /** The shader flags of the left and right eye: anaglyph marks the eyes
      -1 and 1, and blends the right one in; other modes keep the flags. */
  function LeftFlags(p: LoopParams): (int, int)
  {
    if p.mode == Anaglyph then (-1, 0) else (p.flag, p.blend)
  }

  function RightFlags(p: LoopParams): (int, int)
  {
    if p.mode == Anaglyph then (1, if BlendIntoFullScreen(p.mode) then 1 else 0) else (p.flag, p.blend)
  }

  function LeftDraw(p: LoopParams, t: int): Event
  {
    BeginDoRendering(t, LeftFlags(p).0, LeftFlags(p).1)
  }

  function RightDraw(p: LoopParams, t: int): Event
  {
    BeginDoRendering(t, RightFlags(p).0, RightFlags(p).1)
  }

  /** An eye's target: its setup, or with per-eye post-processing the
      offscreen target; then, if `bg`, the background. */
  function Target(p: LoopParams, position: int, bg: bool): seq<Event>
  {
    (if p.spo then [BindOffscreen] else [Setup(position, [])]) + (if bg then [BgGradient] else [])
  }

  /** Before the left eye: its setup, or with per-eye post-processing the
      offscreen target and its background. */
  function LeftPrelude(p: LoopParams): seq<Event>
  {
    Target(p, 0, p.spo)
  }

  /** Whether the right eye is given a background: when it has its own
      image (per-eye post-processing, or quad-buffered stereo drawing
      objects). */
  predicate RightBackground(p: LoopParams)
  {
    p.spo || (p.mode == Quadbuffer && !p.onlySelections)
  }

  /** Between the eyes: post-process the left eye, set up the right one
      (with its background when it gets one), and clear the depth buffer. */
  function BetweenEyes(p: LoopParams): seq<Event>
  {
    (if p.spo then [PostProcessStack] else []) + Target(p, 1, RightBackground(p)) + [Op(ClearDepth)]
  }

  /** After the right eye: post-process it, then tear the stereo setup down. */
  function AfterEyes(p: LoopParams): seq<Event>
  {
    (if p.spo then [PostProcessStack] else []) + [Teardown([])]
  }

  function StereoIteration(p: LoopParams, t: int): seq<Event>
  {
    LeftPrelude(p) + [LeftDraw(p, t)] + BetweenEyes(p) + [RightDraw(p, t)] + AfterEyes(p)
  }

  /** One mono iteration: a texture target without a grid gets the full
      image viewport and (unless only selections are drawn) the background;
      then the scene is drawn once with the anaglyph flags cleared. */
  function MonoIteration(p: LoopParams, t: int): seq<Event>
  {
    (if !p.gridActive && p.rtt && !p.onlySelections then [BgGradient] else []) +
    [BeginDoRendering(t, 0, 0)]
  }

  function Iteration(p: LoopParams, t: int): seq<Event>
  {
    if p.stereo then StereoIteration(p, t) else MonoIteration(p, t)
  }

  /** The first k iterations of `while (times--)`: the body sees times - 1,
      times - 2, ... */
  function LoopOutline(p: LoopParams, k: int): seq<Event>
    decreases k
  {
    if k <= 0 then [] else LoopOutline(p, k - 1) + Iteration(p, p.times - k)
  }

  /** How many times a trace draws the scene. */
  function DrawCount(s: seq<Event>): nat
    decreases |s|
  {
    if s == [] then 0
    else DrawCount(s[..|s| - 1]) + (if s[|s| - 1].BeginDoRendering? then 1 else 0)
  }

  lemma {:induction false} DrawCountAppend(a: seq<Event>, b: seq<Event>)
    ensures DrawCount(a + b) == DrawCount(a) + DrawCount(b)
    decreases |b|
  {
    if b == [] {
      assert a + b == a;
    } else {
      var n := |b| - 1;
      assert (a + b)[..|a + b| - 1] == a + b[..n];
      DrawCountAppend(a, b[..n]);
    }
  }

  lemma {:induction false} NoDraws(s: seq<Event>)
    requires NoBrackets(s)
    ensures DrawCount(s) == 0
    decreases |s|
  {
    if s != [] {
      NoDraws(s[..|s| - 1]);
    }
  }

  lemma SingleDraw(e: Event)
    requires e.BeginDoRendering?
    ensures DrawCount([e]) == 1
  {
    assert [e][..0] == [];
  }

  /** A stereo iteration draws the scene twice (left eye, then right eye),
      a mono iteration once. */
  lemma IterationDraws(p: LoopParams, t: int)
    ensures DrawCount(Iteration(p, t)) == if p.stereo then 2 else 1
  {
    if p.stereo {
      var pre, l, mid, r, post := LeftPrelude(p), [LeftDraw(p, t)], BetweenEyes(p), [RightDraw(p, t)], AfterEyes(p);
      assert Iteration(p, t) == pre + l + mid + r + post;
      NoDraws(pre);
      NoDraws(mid);
      NoDraws(post);
      SingleDraw(LeftDraw(p, t));
      SingleDraw(RightDraw(p, t));
      DrawCountAppend(pre, l);
      DrawCountAppend(pre + l, mid);
      DrawCountAppend(pre + l + mid, r);
      DrawCountAppend(pre + l + mid + r, post);
    } else {
      var pre := if !p.gridActive && p.rtt && !p.onlySelections then [BgGradient] else [];
      assert Iteration(p, t) == pre + [BeginDoRendering(t, 0, 0)];
      NoDraws(pre);
      SingleDraw(BeginDoRendering(t, 0, 0));
      DrawCountAppend(pre, [BeginDoRendering(t, 0, 0)]);
    }
  }

  /** k iterations draw the scene k times in mono and 2k times in stereo. */
  lemma {:induction false} LoopDraws(p: LoopParams, k: int)
    requires k >= 0
    ensures DrawCount(LoopOutline(p, k)) == if p.stereo then 2 * k else k
    decreases k
  {
    if k > 0 {
      LoopDraws(p, k - 1);
      var it := LoopStep(p, k);
      CountStep(LoopOutline(p, k - 1), it, if p.stereo then 2 * (k - 1) else k - 1, if p.stereo then 2 else 1);
    } else {
      assert LoopOutline(p, k) == [];
    }
  }

  /** The k-th iteration and its draws. */
  lemma LoopStep(p: LoopParams, k: int) returns (it: seq<Event>)
    requires k > 0
    ensures LoopOutline(p, k) == LoopOutline(p, k - 1) + it
    ensures DrawCount(it) == if p.stereo then 2 else 1
  {
    it := LoopUnfold(p, k);
    IterationCount(p, p.times - k, it);
  }

  lemma IterationCount(p: LoopParams, t: int, s: seq<Event>)
    requires s == Iteration(p, t)
    ensures DrawCount(s) == if p.stereo then 2 else 1
  {
    IterationDraws(p, t);
  }

  lemma LoopUnfold(p: LoopParams, k: int) returns (it: seq<Event>)
    requires k > 0
    ensures LoopOutline(p, k) == LoopOutline(p, k - 1) + it
    ensures it == Iteration(p, p.times - k)
  {
    it := Iteration(p, p.times - k);
  }

  lemma CountStep(a: seq<Event>, b: seq<Event>, m: int, n: int)
    requires DrawCount(a) == m && DrawCount(b) == n
    ensures DrawCount(a + b) == m + n
  {
    DrawCountAppend(a, b);
  }

  /** In stereo the depth buffer is cleared right before the right eye is
      drawn, and only the quad-buffered mode (or a per-eye post-processed
      image) gives the right eye a fresh background. */
  lemma StereoClearsDepthBetweenEyes(p: LoopParams, t: int)
    requires p.stereo
    ensures var s := Iteration(p, t);
            exists i :: 0 <= i < |s| - 1 && s[i] == Op(ClearDepth) && s[i + 1] == RightDraw(p, t)
    ensures BgGradient in BetweenEyes(p) <==> p.spo || (p.mode == Quadbuffer && !p.onlySelections)
    ensures LeftPrelude(p) == if p.spo then [BindOffscreen, BgGradient] else [Setup(0, [])]
  {
    var s := Iteration(p, t);
    var i := |LeftPrelude(p)| + |BetweenEyes(p)|;
    assert s[i] == BetweenEyes(p)[|BetweenEyes(p)| - 1] == Op(ClearDepth);
    assert s[i + 1] == RightDraw(p, t);
  }

  /** A stereo iteration tears the eye setup down exactly once, as its last
      call. */
  lemma StereoTeardownOnce(p: LoopParams, t: int)
    requires p.stereo
    ensures var s := Iteration(p, t);
            && |s| > 0 && s[|s| - 1] == Teardown([])
            && forall i :: 0 <= i < |s| - 1 ==> !s[i].Teardown?
  {
    var s := Iteration(p, t);
    var front := LeftPrelude(p) + [LeftDraw(p, t)] + BetweenEyes(p) + [RightDraw(p, t)];
    var post := if p.spo then [PostProcessStack] else [];
    assert s == front + post + [Teardown([])];
    forall i | 0 <= i < |s| - 1 ensures !s[i].Teardown? {
      if i < |front| {
        assert s[i] == front[i];
      } else {
        assert s[i] == post[i - |front|];
      }
    }
  }

  /** Without a background in between, a mono loop of k iterations draws
      the scene with `times` counting down from k - 1 to 0, the anaglyph
      flags cleared. */
  lemma {:induction false} MonoLoopTimes(p: LoopParams, k: int)
    requires !p.stereo && !(!p.gridActive && p.rtt && !p.onlySelections)
    requires 0 <= k <= p.times
    ensures LoopOutline(p, k) == seq(k, i => BeginDoRendering(p.times - 1 - i, 0, 0))
    decreases k
  {
    if k > 0 {
      MonoLoopTimes(p, k - 1);
      assert Iteration(p, p.times - k) == [BeginDoRendering(p.times - k, 0, 0)];
    }
  }

  /** The anaglyph eyes are told apart by the shader flag, -1 and 1. */
  lemma AnaglyphEyeFlags(p: LoopParams)
    requires p.mode == Anaglyph
    ensures LeftFlags(p) == (-1, 0) && RightFlags(p) == (1, 1)
  {
  }
}
