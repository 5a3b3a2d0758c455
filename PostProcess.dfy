/** The anti-aliasing stage list `SceneRenderAA` builds from the
    `antialias_shader` setting (layer1/SceneRender.cpp:616-654). */
module PostProcess {
  import opened Device

  /** The SMAA chain: edge detection, blending weights, neighbourhood blending. */
  const SmaaChain: seq<AAStage> := [SMAA1, SMAA2, SMAA3]

  /** The shader stages for `antialias_shader` = `mode`: none for 0, FXAA for
      1, and for every other value the SMAA chain, cut after its first stage
      for 3 and after its second for 4 (those two show an intermediate
      result). */
  function AAStages(mode: int): (stages: seq<AAStage>)
    ensures mode == 0 <==> stages == []
    ensures mode == 1 <==> stages == [FXAA]
    ensures mode != 0 && mode != 1 ==>
              && 1 <= |stages| <= 3
              && stages == SmaaChain[..|stages|]
              && (|stages| == 1 <==> mode == 3)
              && (|stages| == 2 <==> mode == 4)
  {
    if mode == 0 then []
    else if mode == 1 then [FXAA]
    else if mode == 3 then [SMAA1]
    else if mode == 4 then [SMAA1, SMAA2]
    else [SMAA1, SMAA2, SMAA3]
  }

  /** Every mode but 1 avoids FXAA, and FXAA never runs with an SMAA stage. */
  lemma FxaaAlone(mode: int)
    ensures FXAA in AAStages(mode) <==> mode == 1
    ensures FXAA in AAStages(mode) ==> |AAStages(mode)| == 1
  {
    if mode != 0 && mode != 1 {
      assert AAStages(mode)[0] == SMAA1;
    }
  }

  /** The SMAA stages always run in chain order: a later stage only after all
      earlier ones. */
  lemma SmaaInOrder(mode: int, i: int)
    requires mode != 0 && mode != 1 && 0 <= i < |AAStages(mode)|
    ensures AAStages(mode)[i] == SmaaChain[i]
    ensures SMAA3 in AAStages(mode) ==> AAStages(mode) == SmaaChain
  {
  }
}
