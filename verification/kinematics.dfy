/** Vectors, the renderer's configuration and the ballistic sample point.

    Unity's single-precision floats are modelled as reals; the repeated
    `timeCovered += timeStep` of `OnForceUpdate` therefore equals `i * timeStep`
    exactly here.
 */
module Kinematics {

  datatype Vec2 = Vec2(x: real, y: real)

  datatype Vec3 = Vec3(x: real, y: real, z: real)

  /** World position of a freshly created game object. */
  const Origin: Vec3 := Vec3(0.0, 0.0, 0.0)

  /** A distance between two world points (the role of `Vector3.Distance`).
      It is a parameter of the model rather than computed: only its
      non-negativity matters to the truncation pass. */
  type Metric = (Vec3, Vec3) -> real

  ghost predicate NonNegativeMetric(dist: Metric) {
    forall p, q :: dist(p, q) >= 0.0
  }

  /** The renderer's configuration fields. */
  datatype Settings = Settings(
    lineOfSight: real,
    timeStep: real,
    gravity: real,
    initialVelocity: Vec2)

  /** `value >= 0 ? value : 0`, the clamp both setters apply. */
  function ClampNonNegative(value: real): (r: real)
    ensures r >= 0.0 && r >= value
    ensures r == value || r == 0.0
  {
    if value >= 0.0 then value else 0.0
  }

  /** The `LineOfSight` setter: stores the clamped value, touches nothing else. */
  function SetLineOfSight(c: Settings, value: real): (r: Settings)
    ensures r.lineOfSight >= 0.0
    ensures value >= 0.0 ==> r.lineOfSight == value
    ensures value < 0.0 ==> r.lineOfSight == 0.0
    ensures r.timeStep == c.timeStep && r.gravity == c.gravity
    ensures r.initialVelocity == c.initialVelocity
  {
    c.(lineOfSight := ClampNonNegative(value))
  }

  /** The `TimeStep` setter: stores the clamped value, touches nothing else. */
  function SetTimeStep(c: Settings, value: real): (r: Settings)
    ensures r.timeStep >= 0.0
    ensures value >= 0.0 ==> r.timeStep == value
    ensures value < 0.0 ==> r.timeStep == 0.0
    ensures r.lineOfSight == c.lineOfSight && r.gravity == c.gravity
    ensures r.initialVelocity == c.initialVelocity
  {
    c.(timeStep := ClampNonNegative(value))
  }

  /** Writing back what the getter returns after a set changes nothing, and
      setting the same value twice is the same as setting it once. */
  lemma SettersAreIdempotent(c: Settings, value: real)
    ensures SetLineOfSight(SetLineOfSight(c, value), SetLineOfSight(c, value).lineOfSight)
            == SetLineOfSight(c, value)
    ensures SetTimeStep(SetTimeStep(c, value), SetTimeStep(c, value).timeStep)
            == SetTimeStep(c, value)
    ensures SetLineOfSight(SetLineOfSight(c, value), value) == SetLineOfSight(c, value)
    ensures SetTimeStep(SetTimeStep(c, value), value) == SetTimeStep(c, value)
  {
  }

  /** Where a pellet placed at time `t` sits: on the parabola through the
      anchor, at the given depth. */
  function SamplePoint(c: Settings, anchor: Vec3, t: real, z: real): (r: Vec3)
    ensures r.z == z
    ensures t == 0.0 ==> r.x == anchor.x && r.y == anchor.y
  {
    Vec3(c.initialVelocity.x * t + anchor.x,
         c.gravity * t * t * 0.5 + c.initialVelocity.y * t + anchor.y,
         z)
  }

  /** The sampled path is ballistic: x advances by the same amount per time
      step, and the second difference of y is gravity times the step squared. */
  lemma SamplesFollowParabola(c: Settings, anchor: Vec3, t: real, h: real, z: real)
    ensures SamplePoint(c, anchor, t + h, z).x - SamplePoint(c, anchor, t, z).x
            == c.initialVelocity.x * h
    ensures SamplePoint(c, anchor, t + 2.0 * h, z).y
            - 2.0 * SamplePoint(c, anchor, t + h, z).y
            + SamplePoint(c, anchor, t, z).y
            == c.gravity * h * h
  {
    var g := c.gravity;
    var vy := c.initialVelocity.y;
    assert (t + 2.0 * h) * (t + 2.0 * h) == t * t + 4.0 * t * h + 4.0 * h * h;
    assert (t + h) * (t + h) == t * t + 2.0 * t * h + h * h;
    calc {
      SamplePoint(c, anchor, t + 2.0 * h, z).y
        - 2.0 * SamplePoint(c, anchor, t + h, z).y
        + SamplePoint(c, anchor, t, z).y;
    ==
      g * 0.5 * ((t + 2.0 * h) * (t + 2.0 * h) - 2.0 * ((t + h) * (t + h)) + t * t);
    ==
      g * h * h;
    }
  }

  /** The length of a polyline up to its point `j`: the distances between
      consecutive points, added up. */
  ghost function PathLength(dist: Metric, path: seq<Vec3>, j: nat): real
    requires j < |path|
  {
    if j == 0 then 0.0 else PathLength(dist, path, j - 1) + dist(path[j], path[j - 1])
  }

  /** With a non-negative metric, the length never decreases along the path. */
  lemma {:induction false} PathLengthMonotone(dist: Metric, path: seq<Vec3>, i: nat, j: nat)
    requires NonNegativeMetric(dist)
    requires i <= j < |path|
    ensures PathLength(dist, path, i) <= PathLength(dist, path, j)
  {
    if i < j {
      PathLengthMonotone(dist, path, i, j - 1);
      assert dist(path[j], path[j - 1]) >= 0.0;
    }
  }

  /** The length up to `j` depends only on the points up to `j`. */
  lemma {:induction false} PathLengthPrefix(dist: Metric, p: seq<Vec3>, q: seq<Vec3>, j: nat)
    requires j < |p| <= |q| && p == q[..|p|]
    ensures PathLength(dist, p, j) == PathLength(dist, q, j)
  {
    if j > 0 {
      PathLengthPrefix(dist, p, q, j - 1);
      assert p[j] == q[j] && p[j - 1] == q[j - 1];
    }
  }

  /** `k` is the first point of the path at which its length reaches `limit`. */
  ghost predicate FirstReach(dist: Metric, path: seq<Vec3>, limit: real, k: nat) {
    && k < |path|
    && PathLength(dist, path, k) >= limit
    && forall j: nat :: j < k ==> PathLength(dist, path, j) < limit
  }

  /** A point at which the length is still short of `limit` lies before any
      point at which it is reached. */
  lemma ReachLiesAhead(dist: Metric, path: seq<Vec3>, limit: real, i: nat, b: nat)
    requires NonNegativeMetric(dist)
    requires i < |path| && b < |path|
    requires PathLength(dist, path, i) < limit <= PathLength(dist, path, b)
    ensures i < b
  {
    if b <= i {
      PathLengthMonotone(dist, path, b, i);
    }
  }

  /** Being short of `limit` at point `i - 1` means being short of it at
      every earlier point. */
  lemma ShortBefore(dist: Metric, path: seq<Vec3>, limit: real, i: nat)
    requires NonNegativeMetric(dist)
    requires i <= |path|
    requires i > 0 ==> PathLength(dist, path, i - 1) < limit
    ensures forall j: nat :: j < i ==> PathLength(dist, path, j) < limit
  {
    forall j: nat | j < i
      ensures PathLength(dist, path, j) < limit
    {
      PathLengthMonotone(dist, path, j, i - 1);
    }
  }
}
