/** The host's demo selection: which demo runs, and whether it must be set up again. */
module Scene {
  import opened Wrappers
  import opened Words

  datatype Demo = GouraudTriangle | TexturedTriangle | SpinningTeapot

  /** The `#[default]` variant. */
  const DefaultDemo: Demo := GouraudTriangle

  datatype SceneState = SceneState(activeDemo: Demo, needsInit: bool)

  /** A new scene runs the default demo and still has to initialise it. */
  function New(): (s: SceneState)
    ensures s.activeDemo == DefaultDemo && s.needsInit
  {
    SceneState(DefaultDemo, true)
  }

  /**
   * Select `demo`; the flag says whether anything changed. A change marks the
   * scene for re-initialisation; choosing the running demo changes nothing.
   */
  function SwitchDemo(s: SceneState, demo: Demo): (r: (SceneState, bool))
    ensures r.1 <==> s.activeDemo != demo
    ensures r.0.activeDemo == demo
    ensures r.1 ==> r.0.needsInit
    ensures !r.1 ==> r.0 == s
    ensures s.needsInit ==> r.0.needsInit
  {
    if s.activeDemo != demo then (SceneState(demo, true), true) else (s, false)
  }

  /** Switching to the same demo again reports no change and leaves the scene as the first switch left it. */
  lemma SwitchDemoIdempotent(s: SceneState, demo: Demo)
    ensures SwitchDemo(SwitchDemo(s, demo).0, demo) == (SwitchDemo(s, demo).0, false)
  {
  }

  /** Which demo a `u8` index selects: 0, 1 and 2 in declaration order, nothing else. */
  function FromIndex(index: B8): (r: Option<Demo>)
    ensures r.Some? <==> index < 3
    ensures r == Some(GouraudTriangle) <==> index == 0
    ensures r == Some(TexturedTriangle) <==> index == 1
    ensures r == Some(SpinningTeapot) <==> index == 2
  {
    match index
    case 0 => Some(GouraudTriangle)
    case 1 => Some(TexturedTriangle)
    case 2 => Some(SpinningTeapot)
    case _ => None
  }

  /** Every demo has exactly one index. */
  lemma FromIndexBijective(i: B8, j: B8, d: Demo)
    ensures FromIndex(i).Some? && FromIndex(i) == FromIndex(j) ==> i == j
    ensures exists k: B8 :: FromIndex(k) == Some(d)
  {
    match d
    case GouraudTriangle => assert FromIndex(0) == Some(d);
    case TexturedTriangle => assert FromIndex(1) == Some(d);
    case SpinningTeapot => assert FromIndex(2) == Some(d);
  }
}
