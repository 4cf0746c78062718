/** The trajectory preview component: it watches three inspector fields and
    redraws its line only in a frame where one of them changed since the last
    frame. The line renderer is represented by the positions it was last given. */
module Trajectory {
  import opened Vectors
  import ProjectileMath

  /** Samples drawn per step of `LineResolution`. */
  const SamplesPerResolution: nat := 20

  /** The component's state: the watched fields, their copies from the last
      frame, the dirty flag, and the line renderer's positions. */
  datatype TrajectoryLine = TrajectoryLine(
    launchVelocity: Vec2,
    lineResolution: int,
    linePreviewTime: real,
    cachedLaunchVelocity: Vec2,
    cachedLineResolution: int,
    cachedLinePreviewTime: real,
    needsUpdate: bool,
    positions: seq<Vec3>)

  /** A component as it starts out: resolution 1, five seconds of preview,
      cached copies at their zero defaults and the dirty flag raised. */
  function Created(launchVelocity: Vec2, renderer: seq<Vec3>): (s: TrajectoryLine)
    ensures s.needsUpdate && s.lineResolution == 1 && s.linePreviewTime == 5.0
    ensures s.cachedLaunchVelocity == Zero2
    ensures s.cachedLineResolution == 0 && s.cachedLinePreviewTime == 0.0
    ensures s.launchVelocity == launchVelocity && s.positions == renderer
  {
    TrajectoryLine(launchVelocity, 1, 5.0, Zero2, 0, 0.0, true, renderer)
  }

  /** Some watched field differs from its copy from the last frame. The velocity
      is compared with Unity's `Vector2 !=`, which treats vectors closer than
      `Epsilon` as equal; the resolution and preview time are compared exactly. */
  predicate Changed(s: TrajectoryLine) {
    || !Same2(s.launchVelocity, s.cachedLaunchVelocity)
    || s.lineResolution != s.cachedLineResolution
    || s.linePreviewTime != s.cachedLinePreviewTime
  }

  /** `CacheValues`: raises the dirty flag exactly when a watched field changed,
      then brings every copy up to date; the fields and the line stay as they are. */
  function CacheValues(s: TrajectoryLine): (r: TrajectoryLine)
    ensures r.needsUpdate <==> Changed(s)
    ensures !Changed(r)
    ensures r.cachedLaunchVelocity == s.launchVelocity
    ensures r.launchVelocity == s.launchVelocity
    ensures r.lineResolution == s.lineResolution
    ensures r.linePreviewTime == s.linePreviewTime
    ensures r.positions == s.positions
  {
    var dirty := Changed(s);
    s.(needsUpdate := dirty,
       cachedLaunchVelocity := s.launchVelocity,
       cachedLineResolution := s.lineResolution,
       cachedLinePreviewTime := s.linePreviewTime)
  }

  /** C#'s unchecked `int` arithmetic: x wrapped into [-2^31, 2^31). */
  function ToInt32(x: int): (r: int)
    ensures -0x8000_0000 <= r < 0x8000_0000
    ensures (r - x) % 0x1_0000_0000 == 0
    ensures -0x8000_0000 <= x < 0x8000_0000 ==> r == x
  {
    (x + 0x8000_0000) % 0x1_0000_0000 - 0x8000_0000
  }

  /** `20 * LineResolution` as a 32-bit product: exact up to a resolution of
      107374182, wrapped beyond it, and never 1, since it is a multiple of 4. */
  function SampleCount(lineResolution: int): (n: int)
    ensures -0x8000_0000 <= n < 0x8000_0000
    ensures (n - SamplesPerResolution * lineResolution) % 0x1_0000_0000 == 0
    ensures n != 1
    ensures 0 <= lineResolution <= 107374182 ==> n == SamplesPerResolution * lineResolution
  {
    var x := SamplesPerResolution as int * lineResolution;
    var q := (x + 0x8000_0000) / 0x1_0000_0000;
    assert ToInt32(x) == 4 * (5 * lineResolution - 0x4000_0000 * q);
    ToInt32(x)
  }

  /** Past 107374182 the count wraps: resolution 214748365 asks for 4294967300
      samples, which the 32-bit product turns into 4. */
  lemma ResolutionWraps()
    ensures SampleCount(214748365) == 4
  {
  }

  /** The 3D array built from the first k 2D samples: x and y copied, z zero. */
  function LiftPrefix(points: seq<Vec2>, k: nat): (pts: seq<Vec3>)
    requires k <= |points|
    ensures |pts| == k
    ensures forall i :: 0 <= i < k ==> pts[i] == Vec3(points[i].x, points[i].y, 0.0)
  {
    if k == 0 then [] else LiftPrefix(points, k - 1) + [Vec3(points[k - 1].x, points[k - 1].y, 0.0)]
  }

  /** Point i of the preview line: the arc sample at that index, lifted to z = 0. */
  function LinePoint(launchVelocity: Vec2, gravity: Vec2, previewTime: real, count: nat, i: nat): Vec3
    requires count != 1
  {
    var p := ProjectileMath.PositionAt2(launchVelocity, gravity, ProjectileMath.SampleTime(previewTime, count, i));
    Vec3(p.x, p.y, 0.0)
  }

  /** `RecalcLinePoints`: samples `20 * LineResolution` points of the arc (the
      product taken in 32-bit arithmetic) and hands them to the renderer, so the
      renderer holds exactly that many positions; nothing but the renderer
      changes. A negative count would make the array allocation throw. */
  function RecalcLinePoints(s: TrajectoryLine, gravity: Vec2): (r: TrajectoryLine)
    requires SampleCount(s.lineResolution) >= 0
    ensures |r.positions| == SampleCount(s.lineResolution)
    ensures 0 <= s.lineResolution <= 107374182 ==> |r.positions| == SamplesPerResolution * s.lineResolution
    ensures 1 <= s.lineResolution <= 5 ==> 20 <= |r.positions| <= 100
    ensures forall i :: 0 <= i < |r.positions| ==>
      r.positions[i] == LinePoint(s.launchVelocity, gravity, s.linePreviewTime, |r.positions|, i)
    ensures r.(positions := s.positions) == s
  {
    var count := SampleCount(s.lineResolution);
    var points := ProjectileMath.ProjectileArcPoints(s.launchVelocity, gravity, s.linePreviewTime, count);
    s.(positions := LiftPrefix(points, |points|))
  }

  /** `Update`, once per frame: refresh the copies, and redraw exactly when a
      watched field changed. The dirty flag the frame starts with is never read,
      and the watched fields themselves are left alone. */
  function Update(s: TrajectoryLine, gravity: Vec2): (r: TrajectoryLine)
    requires Changed(s) ==> SampleCount(s.lineResolution) >= 0
    ensures r.needsUpdate <==> Changed(s)
    ensures !Changed(r)
    ensures r.cachedLaunchVelocity == s.launchVelocity
    ensures r.cachedLineResolution == s.lineResolution
    ensures r.cachedLinePreviewTime == s.linePreviewTime
    ensures r.launchVelocity == s.launchVelocity
    ensures r.lineResolution == s.lineResolution
    ensures r.linePreviewTime == s.linePreviewTime
    ensures Changed(s) ==> r.positions == RecalcLinePoints(s, gravity).positions
    ensures !Changed(s) ==> r.positions == s.positions
  {
    var cached := CacheValues(s);
    if cached.needsUpdate then RecalcLinePoints(cached, gravity) else cached
  }

  /** A second `CacheValues` with no edit in between finds nothing to do. */
  lemma CacheValuesIdempotent(s: TrajectoryLine)
    ensures !CacheValues(CacheValues(s)).needsUpdate
    ensures CacheValues(CacheValues(s)) == CacheValues(s).(needsUpdate := false)
  {
  }

  /** After one frame, further frames with no edit neither redraw nor change anything
      but the dirty flag. */
  lemma UpdateSettles(s: TrajectoryLine, gravity: Vec2)
    requires Changed(s) ==> SampleCount(s.lineResolution) >= 0
    ensures Update(Update(s, gravity), gravity) == Update(s, gravity).(needsUpdate := false)
  {
  }

  /** The frame's outcome does not depend on the flag it starts with: the initial
      `true` is overwritten before it is read. */
  lemma UpdateIgnoresStaleFlag(s: TrajectoryLine, gravity: Vec2, stale: bool)
    requires Changed(s) ==> SampleCount(s.lineResolution) >= 0
    ensures Update(s.(needsUpdate := stale), gravity) == Update(s, gravity)
  {
  }

  /** The first frame of a freshly created component draws the line, since its
      cached resolution and preview time still hold their zero defaults. */
  lemma FirstFrameDraws(launchVelocity: Vec2, renderer: seq<Vec3>, gravity: Vec2)
    ensures |Update(Created(launchVelocity, renderer), gravity).positions| == SamplesPerResolution
  {
  }

  /** Velocity edits smaller than `Epsilon` per frame are never drawn, however
      far they add up: two frames each moving the velocity by 0.000006 leave the
      line as it was, although the velocity has moved by more than `Epsilon`. */
  lemma SlowDriftIsNeverDrawn(renderer: seq<Vec3>, gravity: Vec2)
    ensures
      var settled := TrajectoryLine(Zero2, 1, 5.0, Zero2, 1, 5.0, false, renderer);
      var first := Update(settled.(launchVelocity := Vec2(0.000006, 0.0)), gravity);
      var second := Update(first.(launchVelocity := Vec2(0.000012, 0.0)), gravity);
      && second.positions == renderer
      && !Same2(second.launchVelocity, Zero2)
  {
  }
}
