/** What one force update, and two in a row, promise about the visible
    trajectory: which pellets stay active, where they stand, and that
    repeating an update with the same velocity changes nothing visible.
 */
module UpdateProperties {
  import opened Kinematics
  import opened PelletPool
  import opened TrajectoryRenderer

  /** The grown list holds the pass's candidates in order. */
  lemma GrownAt(s0: Pool, k: nat, j: nat)
    requires j <= k
    ensures Grown(s0, k)[j] == Candidate(s0, j)
  {
    if j >= |s0.active| {
      AcquisitionsAt(s0, Acquired(s0, k), j - |s0.active|);
    }
  }

  /** A pellet stays active exactly when the distance travelled up to its
      index is still short of the line of sight. Of the outcome of a pass
      this needs only the break index and the cut of the lists. */
  lemma KeptExactlyShort(s0: Pool, c: Settings, anchor: Vec3, dist: Metric, k: nat, r: Pool, j: nat)
    requires NonNegativeMetric(dist)
    requires IsFirstCrossing(s0, c, anchor, dist, k) && OutcomeLists(s0, k, r)
    ensures j < |r.active| <==> Travel(s0, c, anchor, dist, j) < c.lineOfSight
  {
    assert |r.active| == k;
    if j >= k {
      TravelMonotone(s0, c, anchor, dist, k, j);
    }
  }

  /** Every active pellet stands on the parabola at time `j * timeStep`
      (see `TimeAtIsProduct`), at its own depth. */
  lemma KeptOnParabola(s: Renderer, v: Vec2, anchor: Vec3, dist: Metric, r: Renderer, k: nat, j: nat)
    requires UpdateOutcome(s, v, anchor, dist, r, k)
    requires j < |r.pool.active|
    ensures r.pool.active[j] in r.pool.pos
    ensures r.pool.pos[r.pool.active[j]]
         == SamplePoint(r.settings, anchor, TimeAt(r.settings, j), PositionOf(s.pool, r.pool.active[j]).z)
  {
    assert r.pool.active[j] == Grown(s.pool, k)[j];
    GrownAt(s.pool, k, j);
  }

  /** With a line of sight of zero, the pass breaks at index 0 and the
      release loop, starting there, empties the active list: every pellet
      that was active goes back to the reserve, in order. */
  lemma ZeroSightEmpties(s: Renderer, v: Vec2, anchor: Vec3, dist: Metric, r: Renderer, k: nat)
    requires UpdateOutcome(s, v, anchor, dist, r, k)
    requires s.settings.lineOfSight <= 0.0
    ensures k == 0 && r.pool.active == []
    ensures s.pool.active != [] ==>
      r.pool.pooled == s.pool.pooled + s.pool.active && r.pool.nextId == s.pool.nextId
  {
    var c := s.settings.(initialVelocity := v);
    assert Travel(s.pool, c, anchor, dist, 0) == 0.0;
    CutAtZero(s.pool, r.pool);
  }

  /** From an empty active list, a pass with a line of sight of zero hands
      out one pellet and pools it straight back: a non-empty reserve ends as
      it was, an empty one ends holding one freshly created pellet. Of the
      outcome of the pass this needs only the break index and the cut. */
  lemma ZeroSightFromEmpty(s0: Pool, c: Settings, anchor: Vec3, dist: Metric, k: nat, r: Pool)
    requires c.lineOfSight <= 0.0 && s0.active == []
    requires IsFirstCrossing(s0, c, anchor, dist, k) && OutcomeLists(s0, k, r)
    ensures k == 0 && r.active == []
    ensures s0.pooled != [] ==> r.pooled == s0.pooled && r.nextId == s0.nextId
    ensures s0.pooled == [] ==> r.pooled == [s0.nextId] && r.nextId == s0.nextId + 1
  {
    assert Travel(s0, c, anchor, dist, 0) == 0.0;
    CutAtZero(s0, r);
  }

  /** The lists after a pass that breaks at index 0. */
  lemma CutAtZero(s0: Pool, r: Pool)
    requires OutcomeLists(s0, 0, r)
    ensures r.active == []
    ensures s0.active != [] ==> r.pooled == s0.pooled + s0.active && r.nextId == s0.nextId
    ensures s0.active == [] && s0.pooled != [] ==> r.pooled == s0.pooled && r.nextId == s0.nextId
    ensures s0.active == [] && s0.pooled == [] ==> r.pooled == [s0.nextId] && r.nextId == s0.nextId + 1
  {
    var p := s0.pooled;
    if s0.active != [] {
      assert Grown(s0, 0) == s0.active;
      assert p[..|p|] == p;
    } else {
      assert Acquisitions(s0, 1) == [Handout(s0, 0)];
      assert Grown(s0, 0)[0..] == [Handout(s0, 0)];
      if p != [] {
        assert p[..|p| - 1] + [p[|p| - 1]] == p;
      }
    }
  }

  /** With a positive line of sight at least the launch pellet stays, and it
      sits at the anchor. */
  lemma PositiveSightKeepsLaunch(s: Renderer, v: Vec2, anchor: Vec3, dist: Metric, r: Renderer, k: nat)
    requires UpdateOutcome(s, v, anchor, dist, r, k)
    requires s.settings.lineOfSight > 0.0
    ensures k > 0 && |r.pool.active| == k
    ensures r.pool.active[0] in r.pool.pos
    ensures r.pool.pos[r.pool.active[0]].x == anchor.x && r.pool.pos[r.pool.active[0]].y == anchor.y
  {
    var c := s.settings.(initialVelocity := v);
    assert Travel(s.pool, c, anchor, dist, 0) == 0.0;
    assert r.pool.active[0] == Grown(s.pool, k)[0];
    assert TimeAt(c, 0) == 0.0;
  }

  /** Every pellet at depth zero. */
  ghost predicate FlatDepth(s: Pool) {
    forall p :: p in s.pos ==> s.pos[p].z == 0.0
  }

  /** The pool `Awake` builds is flat: every pellet starts at the origin. */
  lemma AwakeIsFlat()
    ensures FlatDepth(Awake())
  {
    var s := Awake();
    forall p | p in s.pos
      ensures s.pos[p].z == 0.0
    {
      assert s.pos[p] == Origin;
    }
  }

  /** A pass keeps a flat pool flat. */
  lemma UpdateKeepsFlat(s: Renderer, v: Vec2, anchor: Vec3, dist: Metric, r: Renderer, k: nat)
    requires FlatDepth(s.pool)
    requires UpdateOutcome(s, v, anchor, dist, r, k)
    ensures FlatDepth(r.pool)
  {
    forall p | p in r.pool.pos
      ensures r.pool.pos[p].z == 0.0
    {
      assert r.pool.pos[p].z == PositionOf(s.pool, p).z;
    }
  }

  /** In flat pools the samples do not depend on which pellet is placed. */
  lemma {:induction false} FlatSamplePath(s: Pool, t: Pool, c: Settings, anchor: Vec3, n: nat)
    requires FlatDepth(s) && FlatDepth(t)
    ensures SamplePath(s, c, anchor, n) == SamplePath(t, c, anchor, n)
  {
    if n > 0 {
      FlatSamplePath(s, t, c, anchor, n - 1);
      assert PositionOf(s, Candidate(s, n - 1)).z == 0.0;
      assert PositionOf(t, Candidate(t, n - 1)).z == 0.0;
      assert Sample(s, c, anchor, n - 1) == Sample(t, c, anchor, n - 1);
    }
  }

  /** Two first crossings of the same pass coincide. */
  lemma FirstCrossingUnique(s: Pool, c: Settings, anchor: Vec3, dist: Metric, k1: nat, k2: nat)
    requires IsFirstCrossing(s, c, anchor, dist, k1)
    requires IsFirstCrossing(s, c, anchor, dist, k2)
    ensures k1 == k2
  {
  }

  /** Flat pools share their first crossing. */
  lemma FlatCrossing(s: Pool, t: Pool, c: Settings, anchor: Vec3, dist: Metric, k: nat)
    requires FlatDepth(s) && FlatDepth(t)
    requires IsFirstCrossing(s, c, anchor, dist, k)
    ensures IsFirstCrossing(t, c, anchor, dist, k)
  {
    forall j: nat | j <= k
      ensures Travel(t, c, anchor, dist, j) == Travel(s, c, anchor, dist, j)
    {
      FlatSamplePath(s, t, c, anchor, j + 1);
    }
  }

  /** Repeating the update with the same velocity breaks at the same index. */
  lemma RepeatBreaksAtSameIndex(s: Renderer, v: Vec2, anchor: Vec3, dist: Metric,
                                r1: Renderer, k1: nat, r2: Renderer, k2: nat)
    requires FlatDepth(s.pool)
    requires UpdateOutcome(s, v, anchor, dist, r1, k1)
    requires UpdateOutcome(r1, v, anchor, dist, r2, k2)
    ensures k2 == k1 && r2.settings == r1.settings
  {
    var c := s.settings.(initialVelocity := v);
    assert r1.settings.(initialVelocity := v) == c;
    UpdateKeepsFlat(s, v, anchor, dist, r1, k1);
    FlatCrossing(s.pool, r1.pool, c, anchor, dist, k1);
    FirstCrossingUnique(r1.pool, c, anchor, dist, k1, k2);
  }

  /** A second pass that breaks where the first did hands out the last
      pellet of the reserve and pools it straight back: the lists and the
      counter end as they were. */
  lemma SecondPassLists(p1: Pool, k: nat, p2: Pool)
    requires |p1.active| == k && |p1.pooled| > 0
    requires OutcomeLists(p1, k, p2)
    ensures p2.active == p1.active && p2.pooled == p1.pooled && p2.nextId == p1.nextId
  {
    var last := |p1.pooled| - 1;
    assert Acquired(p1, k) == 1;
    assert Acquisitions(p1, 1) == [p1.pooled[last]];
    assert Grown(p1, k) == p1.active + [p1.pooled[last]];
    assert Grown(p1, k)[..k] == p1.active;
    assert Grown(p1, k)[k..] == [p1.pooled[last]];
    assert p1.pooled[..last] + [p1.pooled[last]] == p1.pooled;
  }

  /** Cutting the lists a second time at the same index keeps the lists and
      the counter. */
  lemma RepeatKeepsLists(p0: Pool, k: nat, p1: Pool, p2: Pool)
    requires OutcomeLists(p0, k, p1) && OutcomeLists(p1, k, p2)
    ensures p2.active == p1.active && p2.pooled == p1.pooled && p2.nextId == p1.nextId
  {
    assert |p1.active| == k;
    assert |Grown(p0, k)[k..]| > 0;
    SecondPassLists(p1, k, p2);
  }

  /** Repeating the update leaves every active pellet where it was. */
  lemma RepeatKeepsPositions(s: Renderer, v: Vec2, anchor: Vec3, dist: Metric,
                             r1: Renderer, k: nat, r2: Renderer, j: nat)
    requires FlatDepth(s.pool)
    requires UpdateOutcome(s, v, anchor, dist, r1, k)
    requires UpdateOutcome(r1, v, anchor, dist, r2, k)
    requires j < |r1.pool.active|
    ensures r1.pool.active[j] in r1.pool.pos && r1.pool.active[j] in r2.pool.pos
    ensures r2.pool.pos[r1.pool.active[j]] == r1.pool.pos[r1.pool.active[j]]
  {
    var c := s.settings.(initialVelocity := v);
    assert r1.settings.(initialVelocity := v) == c;
    UpdateKeepsFlat(s, v, anchor, dist, r1, k);
    assert |r1.pool.active| == k;
    assert r1.pool.active[j] == Grown(s.pool, k)[j];
    assert Grown(r1.pool, k)[j] == r1.pool.active[j];
    FlatSamplePath(s.pool, r1.pool, c, anchor, j + 1);
    SamplePathAt(s.pool, c, anchor, j + 1, j);
    SamplePathAt(r1.pool, c, anchor, j + 1, j);
  }

  /** Repeating `OnForceUpdate` with the same velocity on a flat pool is
      invisible: it breaks at the same index, keeps both lists and the
      counter, and leaves every active pellet where it stands. */
  lemma UpdateIsIdempotent(s: Renderer, v: Vec2, anchor: Vec3, dist: Metric,
                           r1: Renderer, k1: nat, r2: Renderer, k2: nat)
    requires FlatDepth(s.pool)
    requires UpdateOutcome(s, v, anchor, dist, r1, k1)
    requires UpdateOutcome(r1, v, anchor, dist, r2, k2)
    ensures k2 == k1 && r2.settings == r1.settings
    ensures r2.pool.active == r1.pool.active && r2.pool.pooled == r1.pool.pooled
    ensures r2.pool.nextId == r1.pool.nextId
    ensures forall j :: 0 <= j < |r1.pool.active| ==>
      r1.pool.active[j] in r2.pool.pos && r2.pool.pos[r1.pool.active[j]] == r1.pool.pos[r1.pool.active[j]]
  {
    RepeatBreaksAtSameIndex(s, v, anchor, dist, r1, k1, r2, k2);
    RepeatKeepsLists(s.pool, k1, r1.pool, r2.pool);
    forall j | 0 <= j < |r1.pool.active|
      ensures r1.pool.active[j] in r2.pool.pos
      ensures r2.pool.pos[r1.pool.active[j]] == r1.pool.pos[r1.pool.active[j]]
    {
      RepeatKeepsPositions(s, v, anchor, dist, r1, k1, r2, j);
    }
  }

  /** With a zero time step every sample of a flat pool is the launch point,
      so under a metric that puts a point at distance zero from itself the
      travelled distance never grows. */
  lemma {:induction false} StillPassTravelsNothing(s: Pool, c: Settings, anchor: Vec3, dist: Metric, j: nat)
    requires FlatDepth(s) && c.timeStep == 0.0
    requires forall p :: dist(p, p) == 0.0
    ensures Travel(s, c, anchor, dist, j) == 0.0
  {
    if j > 0 {
      StillPassTravelsNothing(s, c, anchor, dist, j - 1);
      TravelOnLongerPath(s, c, anchor, dist, j + 1, j - 1);
      SamplePathAt(s, c, anchor, j + 1, j);
      SamplePathAt(s, c, anchor, j + 1, j - 1);
      TimeAtIsProduct(c, j);
      TimeAtIsProduct(c, j - 1);
      assert Sample(s, c, anchor, j) == Sample(s, c, anchor, j - 1);
    }
  }

  /** ... hence with a positive line of sight the growth loop has no index
      to break at: the pass would grow the active list without end, and the
      precondition of `OnForceUpdate` cannot be met. */
  lemma StillPassNeverBreaks(s: Pool, c: Settings, anchor: Vec3, dist: Metric, k: nat)
    requires FlatDepth(s) && c.timeStep == 0.0 && c.lineOfSight > 0.0
    requires forall p :: dist(p, p) == 0.0
    ensures !IsFirstCrossing(s, c, anchor, dist, k)
  {
    StillPassTravelsNothing(s, c, anchor, dist, k);
  }

  /** Two successive `OnForceUpdate(v)` calls with the same velocity, from the
      state `Awake` leaves (or any pool whose pellets are all at depth zero):
      the second call is invisible. It breaks where the first did, keeps both
      lists and the counter, and leaves every active pellet where it stands. */
  method ForceUpdateTwice(s: Renderer, v: Vec2, anchor: Vec3, dist: Metric, ghost bound: nat)
    returns (r1: Renderer, k1: nat, r2: Renderer, k2: nat)
    requires Valid(s.pool) && FlatDepth(s.pool)
    requires NonNegativeMetric(dist)
    requires Travel(s.pool, s.settings.(initialVelocity := v), anchor, dist, bound) >= s.settings.lineOfSight
    ensures k2 == k1 && r2.settings == r1.settings
    ensures r2.pool.active == r1.pool.active && r2.pool.pooled == r1.pool.pooled
    ensures r2.pool.nextId == r1.pool.nextId
    ensures forall j :: 0 <= j < |r1.pool.active| ==>
      && r1.pool.active[j] in r1.pool.pos && r1.pool.active[j] in r2.pool.pos
      && r2.pool.pos[r1.pool.active[j]] == r1.pool.pos[r1.pool.active[j]]
  {
    var c := s.settings.(initialVelocity := v);
    r1, k1 := OnForceUpdate(s, v, anchor, dist, bound);
    assert r1.settings.(initialVelocity := v) == c;
    UpdateKeepsFlat(s, v, anchor, dist, r1, k1);
    FlatCrossing(s.pool, r1.pool, c, anchor, dist, k1);
    r2, k2 := OnForceUpdate(r1, v, anchor, dist, k1);
    UpdateIsIdempotent(s, v, anchor, dist, r1, k1, r2, k2);
  }
}
