/** Projectile arc sampling and the launch-range decision.

    An arc of `numPoints` samples covers `duration` seconds: sample i is taken at
    t = i * duration / (numPoints - 1) and lies at v*t + g*t^2/2 relative to the
    launch point. Components are `real`, so float rounding is not modelled. */
module ProjectileMath {
  import opened Vectors
  import opened Results

  /** Where a projectile launched from the origin with velocity v under constant
      acceleration g is after t seconds, component by component. */
  function PositionAt2(v: Vec2, g: Vec2, t: real): Vec2 {
    Vec2(v.x * t + g.x * t * t / 2.0, v.y * t + g.y * t * t / 2.0)
  }

  function PositionAt3(v: Vec3, g: Vec3, t: real): Vec3 {
    Vec3(v.x * t + g.x * t * t / 2.0, v.y * t + g.y * t * t / 2.0, v.z * t + g.z * t * t / 2.0)
  }

  /** The time of sample i: `timeStep * i` with `timeStep = duration / (numPoints - 1)`.
      A single sample would divide by zero. */
  function SampleTime(duration: real, numPoints: nat, i: nat): real
    requires numPoints != 1
  {
    duration / (numPoints as real - 1.0) * i as real
  }

  /** The first and last samples fall at the start and the end of the duration. */
  lemma SampleTimeEnds(duration: real, numPoints: nat)
    requires numPoints != 1
    ensures SampleTime(duration, numPoints, 0) == 0.0
    ensures numPoints >= 2 ==> SampleTime(duration, numPoints, numPoints - 1) == duration
  {
  }

  /** One sample as the source computes it: `velocity * t + 0.5f * gravity * t * t`. */
  function ArcPoint2(v: Vec2, g: Vec2, t: real): (p: Vec2)
    ensures p == PositionAt2(v, g, t)
  {
    v.Times(t).Plus(g.Times(0.5).Times(t).Times(t))
  }

  function ArcPoint3(v: Vec3, g: Vec3, t: real): (p: Vec3)
    ensures p == PositionAt3(v, g, t)
  {
    v.Times(t).Plus(g.Times(0.5).Times(t).Times(t))
  }

  /** The array `ProjectileArcPoints` builds, after its first k iterations. */
  function ArcPrefix2(v: Vec2, g: Vec2, duration: real, numPoints: nat, k: nat): (pts: seq<Vec2>)
    requires numPoints != 1 && k <= numPoints
    ensures |pts| == k
    ensures forall i :: 0 <= i < k ==> pts[i] == PositionAt2(v, g, SampleTime(duration, numPoints, i))
  {
    if k == 0 then []
    else ArcPrefix2(v, g, duration, numPoints, k - 1) + [ArcPoint2(v, g, SampleTime(duration, numPoints, k - 1))]
  }

  function ArcPrefix3(v: Vec3, g: Vec3, duration: real, numPoints: nat, k: nat): (pts: seq<Vec3>)
    requires numPoints != 1 && k <= numPoints
    ensures |pts| == k
    ensures forall i :: 0 <= i < k ==> pts[i] == PositionAt3(v, g, SampleTime(duration, numPoints, i))
  {
    if k == 0 then []
    else ArcPrefix3(v, g, duration, numPoints, k - 1) + [ArcPoint3(v, g, SampleTime(duration, numPoints, k - 1))]
  }

  /** `ProjectileArcPoints`: `numPoints` samples of the arc, the first at the
      launch point and the last where the projectile is after `duration`. */
  function ProjectileArcPoints(v: Vec2, g: Vec2, duration: real, numPoints: nat): (pts: seq<Vec2>)
    requires numPoints != 1
    ensures |pts| == numPoints
    ensures forall i :: 0 <= i < numPoints ==> pts[i] == PositionAt2(v, g, SampleTime(duration, numPoints, i))
    ensures numPoints >= 2 ==> pts[0] == Zero2 && pts[numPoints - 1] == PositionAt2(v, g, duration)
  {
    SampleTimeEnds(duration, numPoints);
    ArcPrefix2(v, g, duration, numPoints, numPoints)
  }

  /** `ProjectileArcPoints3D`: the same sampling, component-wise in three dimensions. */
  function ProjectileArcPoints3D(v: Vec3, g: Vec3, duration: real, numPoints: nat): (pts: seq<Vec3>)
    requires numPoints != 1
    ensures |pts| == numPoints
    ensures forall i :: 0 <= i < numPoints ==> pts[i] == PositionAt3(v, g, SampleTime(duration, numPoints, i))
    ensures numPoints >= 2 ==> pts[0] == Zero3 && pts[numPoints - 1] == PositionAt3(v, g, duration)
  {
    SampleTimeEnds(duration, numPoints);
    ArcPrefix3(v, g, duration, numPoints, numPoints)
  }

  /** The caller's array after the first k iterations of the in-place sampler:
      the first k entries overwritten with samples, the rest as they were. */
  function FillArc2(v: Vec2, g: Vec2, duration: real, arcPoints: seq<Vec2>, k: nat): (r: seq<Vec2>)
    requires |arcPoints| != 1 && k <= |arcPoints|
    ensures |r| == |arcPoints|
    ensures forall i :: 0 <= i < k ==> r[i] == PositionAt2(v, g, SampleTime(duration, |arcPoints|, i))
    ensures forall i :: k <= i < |arcPoints| ==> r[i] == arcPoints[i]
  {
    if k == 0 then arcPoints
    else FillArc2(v, g, duration, arcPoints, k - 1)[k - 1 := ArcPoint2(v, g, SampleTime(duration, |arcPoints|, k - 1))]
  }

  function FillArc3(v: Vec3, g: Vec3, duration: real, arcPoints: seq<Vec3>, k: nat): (r: seq<Vec3>)
    requires |arcPoints| != 1 && k <= |arcPoints|
    ensures |r| == |arcPoints|
    ensures forall i :: 0 <= i < k ==> r[i] == PositionAt3(v, g, SampleTime(duration, |arcPoints|, i))
    ensures forall i :: k <= i < |arcPoints| ==> r[i] == arcPoints[i]
  {
    if k == 0 then arcPoints
    else FillArc3(v, g, duration, arcPoints, k - 1)[k - 1 := ArcPoint3(v, g, SampleTime(duration, |arcPoints|, k - 1))]
  }

  /** `ProjectileArcPointsNonAlloc`: a null array throws when its length is read;
      otherwise the caller's array keeps its length and ends up holding exactly
      what the allocating sampler returns for that many points. */
  function ProjectileArcPointsNonAlloc(v: Vec2, g: Vec2, duration: real, arcPoints: Option<seq<Vec2>>): (r: Result<seq<Vec2>>)
    requires arcPoints.Some? ==> |arcPoints.value| != 1
    ensures r.Err? <==> arcPoints.None?
    ensures r.Err? ==> r.error == NullReference
    ensures r.Ok? ==> |r.value| == |arcPoints.value|
    ensures r.Ok? ==> r.value == ProjectileArcPoints(v, g, duration, |arcPoints.value|)
  {
    if arcPoints.None? then Err(NullReference)
    else Ok(FillArc2(v, g, duration, arcPoints.value, |arcPoints.value|))
  }

  /** `ProjectileArcPointsNonAlloc3D`: the in-place counterpart of `ProjectileArcPoints3D`,
      with the same null-array failure. */
  function ProjectileArcPointsNonAlloc3D(v: Vec3, g: Vec3, duration: real, arcPoints: Option<seq<Vec3>>): (r: Result<seq<Vec3>>)
    requires arcPoints.Some? ==> |arcPoints.value| != 1
    ensures r.Err? <==> arcPoints.None?
    ensures r.Err? ==> r.error == NullReference
    ensures r.Ok? ==> |r.value| == |arcPoints.value|
    ensures r.Ok? ==> r.value == ProjectileArcPoints3D(v, g, duration, |arcPoints.value|)
  {
    if arcPoints.None? then Err(NullReference)
    else Ok(FillArc3(v, g, duration, arcPoints.value, |arcPoints.value|))
  }

  /** What `LaunchAngle` reports: whether the target is in range, and the two
      out angles. */
  datatype LaunchAngles = LaunchAngles(inRange: bool, angle0: real, angle1: real)

  /** `operandA`: speed raised to the fourth power. */
  function OperandA(speed: real): real {
    speed * speed * speed * speed
  }

  /** `operandB`: g*(g*distance^2 + 2*yOffset*speed^2). */
  function OperandB(speed: real, distance: real, yOffset: real, gravity: real): real {
    gravity * (gravity * (distance * distance) + 2.0 * yOffset * (speed * speed))
  }

  /** The quantity whose square root the angle formula takes; the target is out
      of range when it is negative. */
  function Discriminant(speed: real, distance: real, yOffset: real, gravity: real): real {
    OperandA(speed) - OperandB(speed, distance, yOffset, gravity)
  }

  /** `LaunchAngle`. `Mathf.Sqrt` and the arctangent of a float quotient are not
      interpreted here: the caller supplies them as `sqrt` and `atanOf`, where
      `atanOf(n, d)` stands for `Mathf.Atan(n / d)` (including its value for
      d = 0, which float division turns into an infinity). */
  function LaunchAngle(speed: real, distance: real, yOffset: real, gravity: real,
                       sqrt: real -> real, atanOf: (real, real) -> real): (r: LaunchAngles)
    ensures r.inRange <==> Discriminant(speed, distance, yOffset, gravity) >= 0.0
    ensures !r.inRange ==> r.angle0 == 0.0 && r.angle1 == 0.0
    ensures r.inRange ==>
      var root := sqrt(Discriminant(speed, distance, yOffset, gravity));
      && r.angle0 == atanOf(speed * speed + root, gravity * distance)
      && r.angle1 == atanOf(speed * speed - root, gravity * distance)
  {
    var speedSquared := speed * speed;
    var operandA := OperandA(speed);
    var operandB := OperandB(speed, distance, yOffset, gravity);
    if operandB > operandA then LaunchAngles(false, 0.0, 0.0)
    else
      var root := sqrt(operandA - operandB);
      LaunchAngles(true, atanOf(speedSquared + root, gravity * distance),
                         atanOf(speedSquared - root, gravity * distance))
  }

  /** Given a genuine square root of the discriminant, `LaunchAngle` reports the
      target in range and takes its two angles as the arctangents of u / (g*d)
      for the two numerators u = speed^2 + root and u = speed^2 - root. Both
      numerators solve u^2 - 2*speed^2*u + operandB = 0, which is the launch-angle
      equation (g*d)^2*T^2 - 2*speed^2*(g*d)*T + operandB = 0 for the tangent
      T = u / (g*d); the high-angle numerator is never below the low one. */
  lemma LaunchNumerators(speed: real, distance: real, yOffset: real, gravity: real,
                         sqrt: real -> real, atanOf: (real, real) -> real)
    requires Discriminant(speed, distance, yOffset, gravity) >= 0.0
    requires sqrt(Discriminant(speed, distance, yOffset, gravity)) >= 0.0
    requires sqrt(Discriminant(speed, distance, yOffset, gravity)) * sqrt(Discriminant(speed, distance, yOffset, gravity))
             == Discriminant(speed, distance, yOffset, gravity)
    ensures
      var root := sqrt(Discriminant(speed, distance, yOffset, gravity));
      var r := LaunchAngle(speed, distance, yOffset, gravity, sqrt, atanOf);
      var high := speed * speed + root;
      var low := speed * speed - root;
      && r.inRange
      && r.angle0 == atanOf(high, gravity * distance)
      && r.angle1 == atanOf(low, gravity * distance)
      && high * high - 2.0 * (speed * speed) * high + OperandB(speed, distance, yOffset, gravity) == 0.0
      && low * low - 2.0 * (speed * speed) * low + OperandB(speed, distance, yOffset, gravity) == 0.0
      && low <= high
  {
  }

  /** For non-negative a and b, a^2 <= b^2 exactly when a <= b. */
  lemma SquaresOrdered(a: real, b: real)
    requires a >= 0.0 && b >= 0.0
    ensures a * a <= b * b <==> a <= b
  {
    var d := a - b;
    var s := a + b;
    assert a * a - b * b == d * s;
    if a <= b {
      assert d * s <= 0.0;
    } else {
      assert d * s > 0.0;
    }
  }

  /** On level ground (no elevation difference) and with downward gravity g > 0,
      a target at distance d is in range exactly when g*d <= speed^2, that is,
      when d does not exceed the maximum range speed^2 / g. */
  lemma LevelGroundRange(speed: real, distance: real, gravity: real,
                          sqrt: real -> real, atanOf: (real, real) -> real)
    requires gravity > 0.0 && distance >= 0.0
    ensures LaunchAngle(speed, distance, 0.0, gravity, sqrt, atanOf).inRange <==> gravity * distance <= speed * speed
  {
    var a := gravity * distance;
    var b := speed * speed;
    assert a >= 0.0 && b >= 0.0;
    SquaresOrdered(a, b);
    assert Discriminant(speed, distance, 0.0, gravity) == b * b - a * a;
  }
}
