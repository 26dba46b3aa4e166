/** The trajectory renderer: placing pellets on the parabola and the
    truncation pass run on every force update.

    The renderer's transform position (the anchor) and `Vector3.Distance`
    (the metric `dist`) are inputs of each pass.
 */
module TrajectoryRenderer {
  import opened Kinematics
  import opened PelletPool

  datatype Renderer = Renderer(settings: Settings, pool: Pool)

  /** `PositionPellet`: moves the pellet onto the parabola at time `t`,
      keeping its own depth; nothing else changes. */
  function PositionPellet(s: Pool, c: Settings, anchor: Vec3, p: Pellet, t: real): (r: Pool)
    ensures p in r.pos && r.pos[p] == SamplePoint(c, anchor, t, PositionOf(s, p).z)
    ensures t == 0.0 ==> r.pos[p].x == anchor.x && r.pos[p].y == anchor.y
    ensures r.pos.Keys == s.pos.Keys + {p}
    ensures r.active == s.active && r.pooled == s.pooled
    ensures r.nextId == s.nextId && r.isActive == s.isActive
  {
    s.(pos := s.pos[p := SamplePoint(c, anchor, t, PositionOf(s, p).z)])
  }

  /** Positioning one pellet moves no other. */
  lemma PositionElsewhere(s: Pool, c: Settings, anchor: Vec3, p: Pellet, t: real, q: Pellet)
    requires q != p
    ensures PositionOf(PositionPellet(s, c, anchor, p, t), q) == PositionOf(s, q)
  {
  }

  /** Positioning a created pellet keeps the conservation invariant. */
  lemma PositionKeepsValid(s: Pool, c: Settings, anchor: Vec3, p: Pellet, t: real)
    requires Valid(s) && p < s.nextId
    ensures Valid(PositionPellet(s, c, anchor, p, t))
  {
    assert PositionPellet(s, c, anchor, p, t).pos.Keys == s.pos.Keys;
  }

  /** The pellet at index `j` of the active list once the pass has grown it
      that far: the old active pellets first, then the handouts of the pool. */
  function Candidate(s: Pool, j: nat): Pellet {
    if j < |s.active| then s.active[j] else Handout(s, j - |s.active|)
  }

  /** `timeCovered` when the pass reaches index `j`: the time step added up
      `j` times. */
  function TimeAt(c: Settings, j: nat): real {
    if j == 0 then 0.0 else TimeAt(c, j - 1) + c.timeStep
  }

  /** Over the reals the accumulated time is exactly `j * timeStep`. */
  lemma {:induction false} TimeAtIsProduct(c: Settings, j: nat)
    ensures TimeAt(c, j) == j as real * c.timeStep
  {
    if j > 0 {
      TimeAtIsProduct(c, j - 1);
      assert j as real * c.timeStep == (j - 1) as real * c.timeStep + c.timeStep;
    }
  }

  /** The position the pass gives the pellet at index `j`: on the parabola at
      time `j * timeStep`, at that pellet's own depth. */
  function Sample(s: Pool, c: Settings, anchor: Vec3, j: nat): Vec3 {
    SamplePoint(c, anchor, TimeAt(c, j), PositionOf(s, Candidate(s, j)).z)
  }

  /** The first `n` samples of the pass, in order. */
  function SamplePath(s: Pool, c: Settings, anchor: Vec3, n: nat): (r: seq<Vec3>)
    ensures |r| == n
  {
    if n == 0 then [] else SamplePath(s, c, anchor, n - 1) + [Sample(s, c, anchor, n - 1)]
  }

  lemma {:induction false} SamplePathAt(s: Pool, c: Settings, anchor: Vec3, n: nat, j: nat)
    requires j < n
    ensures SamplePath(s, c, anchor, n)[j] == Sample(s, c, anchor, j)
  {
    if j < n - 1 {
      SamplePathAt(s, c, anchor, n - 1, j);
    }
  }

  lemma {:induction false} SamplePathPrefix(s: Pool, c: Settings, anchor: Vec3, m: nat, n: nat)
    requires m <= n
    ensures SamplePath(s, c, anchor, n)[..m] == SamplePath(s, c, anchor, m)
  {
    if m < n {
      SamplePathPrefix(s, c, anchor, m, n - 1);
      assert SamplePath(s, c, anchor, n)[..n - 1] == SamplePath(s, c, anchor, n - 1);
    }
  }

  /** `distanceCovered` once index `j` has been positioned: the length of
      the sampled path up to sample `j`. */
  ghost function Travel(s: Pool, c: Settings, anchor: Vec3, dist: Metric, j: nat): real {
    PathLength(dist, SamplePath(s, c, anchor, j + 1), j)
  }

  /** Measured along any longer stretch of the sampled path, the travelled
      distance up to `j` is the same. */
  lemma TravelOnLongerPath(s: Pool, c: Settings, anchor: Vec3, dist: Metric, n: nat, j: nat)
    requires j < n
    ensures PathLength(dist, SamplePath(s, c, anchor, n), j) == Travel(s, c, anchor, dist, j)
  {
    SamplePathPrefix(s, c, anchor, j + 1, n);
    PathLengthPrefix(dist, SamplePath(s, c, anchor, j + 1), SamplePath(s, c, anchor, n), j);
  }

  /** `k` is where the pass breaks: the first index whose travelled distance
      reaches the line of sight. */
  ghost predicate IsFirstCrossing(s: Pool, c: Settings, anchor: Vec3, dist: Metric, k: nat) {
    && Travel(s, c, anchor, dist, k) >= c.lineOfSight
    && forall j: nat :: j < k ==> Travel(s, c, anchor, dist, j) < c.lineOfSight
  }

  /** The first crossing found along a longer stretch of the sampled path is
      the first crossing of the pass. */
  lemma CrossingOnLongerPath(s: Pool, c: Settings, anchor: Vec3, dist: Metric, n: nat, k: nat)
    requires FirstReach(dist, SamplePath(s, c, anchor, n), c.lineOfSight, k)
    ensures IsFirstCrossing(s, c, anchor, dist, k)
  {
    TravelOnLongerPath(s, c, anchor, dist, n, k);
    forall j: nat | j < k
      ensures Travel(s, c, anchor, dist, j) < c.lineOfSight
    {
      TravelOnLongerPath(s, c, anchor, dist, n, j);
    }
  }

  /** Step distances are never negative, so the travelled distance never
      decreases along the trajectory. */
  lemma TravelMonotone(s: Pool, c: Settings, anchor: Vec3, dist: Metric, i: nat, j: nat)
    requires NonNegativeMetric(dist)
    requires i <= j
    ensures Travel(s, c, anchor, dist, i) <= Travel(s, c, anchor, dist, j)
  {
    TravelOnLongerPath(s, c, anchor, dist, j + 1, i);
    PathLengthMonotone(dist, SamplePath(s, c, anchor, j + 1), i, j);
  }

  /** The number of pellets the growth loop acquires when it breaks at `k`:
      none while `k` is inside the old active list, else enough for index `k`
      to exist. */
  function Acquired(s0: Pool, k: nat): nat {
    if |s0.active| > k then 0 else k + 1 - |s0.active|
  }

  /** The active list at the break: the old active pellets followed by the
      handouts of the acquires. */
  function Grown(s0: Pool, k: nat): (r: seq<Pellet>)
    ensures |r| > k
  {
    s0.active + Acquisitions(s0, Acquired(s0, k))
  }

  /** The lists after the pass: the active list is cut at `k`; the reserve,
      after handing out its last pellets, receives the rest of the grown list
      in order; fresh pellets were created only once the reserve ran dry. */
  predicate OutcomeLists(s0: Pool, k: nat, r: Pool) {
    var m := Acquired(s0, k);
    var taken := if m < |s0.pooled| then m else |s0.pooled|;
    && r.active == Grown(s0, k)[..k]
    && r.pooled == s0.pooled[..|s0.pooled| - taken] + Grown(s0, k)[k..]
    && r.nextId == s0.nextId + (m - taken)
  }

  /** The pellets at indices `0 .. k` of the grown list stand at their samples. */
  ghost predicate OutcomePositions(s0: Pool, c: Settings, anchor: Vec3, k: nat, r: Pool) {
    forall j :: 0 <= j <= k ==>
      Grown(s0, k)[j] in r.pos && r.pos[Grown(s0, k)[j]] == Sample(s0, c, anchor, j)
  }

  /** Every pellet keeps its depth. */
  ghost predicate OutcomeDepth(s0: Pool, r: Pool) {
    forall p :: p in r.pos ==> r.pos[p].z == PositionOf(s0, p).z
  }

  /** No pellet other than those at indices `0 .. k` moves. */
  ghost predicate OutcomeUnmoved(s0: Pool, k: nat, r: Pool) {
    forall p :: p in r.pos && p !in Grown(s0, k)[..k + 1] ==> r.pos[p] == PositionOf(s0, p)
  }

  /** What one `OnForceUpdate(v)` does to the renderer `s`, breaking at index
      `k`: the velocity is stored, the pool stays valid, `k` is the first
      crossing, and the lists and positions are as described above. */
  ghost predicate UpdateOutcome(s: Renderer, v: Vec2, anchor: Vec3, dist: Metric, r: Renderer, k: nat) {
    var c := s.settings.(initialVelocity := v);
    && r.settings == c
    && Valid(r.pool)
    && IsFirstCrossing(s.pool, c, anchor, dist, k)
    && OutcomeLists(s.pool, k, r.pool)
    && OutcomePositions(s.pool, c, anchor, k, r.pool)
    && OutcomeDepth(s.pool, r.pool)
    && OutcomeUnmoved(s.pool, k, r.pool)
  }

  /** The pool after `n` successive `activePellets.Add(GetPooledPelletIfAvailable())`. */
  ghost function Grow(s0: Pool, n: nat): (r: Pool)
    ensures |r.active| == |s0.active| + n
    decreases n
  {
    if n == 0 then s0 else AcquireInto(Grow(s0, n - 1))
  }

  /** Growing keeps the conservation invariant. */
  lemma {:induction false} GrowKeepsValid(s0: Pool, n: nat)
    requires Valid(s0)
    ensures Valid(Grow(s0, n))
  {
    if n > 0 {
      GrowKeepsValid(s0, n - 1);
      AcquireKeepsValid(Grow(s0, n - 1));
    }
  }

  /** Growing lists only created pellets. */
  lemma {:induction false} GrowKeepsIdsCreated(s0: Pool, n: nat)
    requires IdsCreated(s0)
    ensures IdsCreated(Grow(s0, n))
  {
    if n > 0 {
      GrowKeepsIdsCreated(s0, n - 1);
      AcquireKeepsIdsCreated(Grow(s0, n - 1));
    }
  }

  /** Growing takes pellets from the back of the reserve, and creates fresh
      ones only once it is empty. */
  lemma {:induction false} GrowReserve(s0: Pool, n: nat)
    ensures n <= |s0.pooled| ==>
      Grow(s0, n).pooled == s0.pooled[..|s0.pooled| - n] && Grow(s0, n).nextId == s0.nextId
    ensures n > |s0.pooled| ==>
      Grow(s0, n).pooled == [] && Grow(s0, n).nextId == s0.nextId + (n - |s0.pooled|)
  {
    if n == 0 {
      assert s0.pooled[..|s0.pooled|] == s0.pooled;
    } else {
      GrowReserve(s0, n - 1);
      var g := Grow(s0, n - 1);
      if n <= |s0.pooled| {
        assert g.pooled[..|g.pooled| - 1] == s0.pooled[..|s0.pooled| - n];
      }
    }
  }

  /** The next handout after `n` acquires is the `n`-th handout of the
      original pool. */
  lemma HandoutAfterGrow(s0: Pool, n: nat)
    ensures Handout(Grow(s0, n), 0) == Handout(s0, n)
  {
    GrowReserve(s0, n);
  }

  /** Growing appends the handouts to the active list in order. */
  lemma {:induction false} GrowActive(s0: Pool, n: nat)
    ensures Grow(s0, n).active == s0.active + Acquisitions(s0, n)
  {
    if n > 0 {
      GrowActive(s0, n - 1);
      HandoutAfterGrow(s0, n - 1);
    }
  }

  /** Growing moves no pellet; a created pellet stands at the origin, where
      `PositionOf` already put it. */
  lemma {:induction false} GrowPositions(s0: Pool, n: nat)
    requires Valid(s0)
    ensures Grow(s0, n).nextId >= s0.nextId
    ensures forall p :: PositionOf(Grow(s0, n), p) == PositionOf(s0, p)
  {
    if n > 0 {
      GrowPositions(s0, n - 1);
      var g := Grow(s0, n - 1);
      assert g.nextId !in s0.pos;
    }
  }

  /** Pellets `0 .. i - 1` of the active list positioned at their times, as
      the growth loop does them one by one. */
  ghost function PlaceAll(g: Pool, c: Settings, anchor: Vec3, i: nat): (r: Pool)
    requires i <= |g.active|
    ensures r.active == g.active && r.pooled == g.pooled
    ensures r.nextId == g.nextId && r.isActive == g.isActive
    decreases i
  {
    if i == 0 then g
    else PositionPellet(PlaceAll(g, c, anchor, i - 1), c, anchor, g.active[i - 1], TimeAt(c, i - 1))
  }

  /** The last turn of `PlaceAll`, as an equation. */
  lemma PlaceOneMore(g: Pool, c: Settings, anchor: Vec3, i: nat)
    requires 0 < i <= |g.active|
    ensures PlaceAll(g, c, anchor, i)
         == PositionPellet(PlaceAll(g, c, anchor, i - 1), c, anchor, g.active[i - 1], TimeAt(c, i - 1))
  {
  }

  /** Positioning active pellets keeps the conservation invariant. */
  lemma {:induction false} PlaceKeepsValid(g: Pool, c: Settings, anchor: Vec3, i: nat)
    requires Valid(g) && i <= |g.active|
    ensures Valid(PlaceAll(g, c, anchor, i))
  {
    if i > 0 {
      PlaceKeepsValid(g, c, anchor, i - 1);
      assert g.active[i - 1] in g.active;
      PositionKeepsValid(PlaceAll(g, c, anchor, i - 1), c, anchor, g.active[i - 1], TimeAt(c, i - 1));
    }
  }

  /** Positioning keeps every pellet's depth. */
  lemma {:induction false} PlacedDepth(g: Pool, c: Settings, anchor: Vec3, i: nat)
    requires i <= |g.active|
    ensures forall p :: PositionOf(PlaceAll(g, c, anchor, i), p).z == PositionOf(g, p).z
  {
    if i > 0 {
      PlacedDepth(g, c, anchor, i - 1);
    }
  }

  /** Pellets outside the first `i` of the active list do not move. */
  lemma {:induction false} PlacedUntouched(g: Pool, c: Settings, anchor: Vec3, i: nat)
    requires i <= |g.active|
    ensures forall p :: p !in g.active[..i] ==> PositionOf(PlaceAll(g, c, anchor, i), p) == PositionOf(g, p)
  {
    if i > 0 {
      PlacedUntouched(g, c, anchor, i - 1);
      assert g.active[..i] == g.active[..i - 1] + [g.active[i - 1]];
    }
  }

  /** Each of the first `i` pellets of a duplicate-free active list stands at
      the sample for its index, at its own depth. */
  lemma {:induction false} PlacedAt(g: Pool, c: Settings, anchor: Vec3, i: nat)
    requires NoDup(g.active) && i <= |g.active|
    ensures forall j :: 0 <= j < i ==>
      && g.active[j] in PlaceAll(g, c, anchor, i).pos
      && PlaceAll(g, c, anchor, i).pos[g.active[j]] == SamplePoint(c, anchor, TimeAt(c, j), PositionOf(g, g.active[j]).z)
  {
    if i > 0 {
      PlacedAt(g, c, anchor, i - 1);
      PlacedUntouched(g, c, anchor, i - 1);
      var p := g.active[i - 1];
      assert p !in g.active[..i - 1];
    }
  }

  /** Growing and positioning commute: an acquire leaves existing positions
      alone, and positioning leaves the lists alone. */
  lemma AcquirePositionCommute(q: Pool, c: Settings, anchor: Vec3, p: Pellet, t: real)
    requires p < q.nextId
    ensures AcquireInto(PositionPellet(q, c, anchor, p, t)) == PositionPellet(AcquireInto(q), c, anchor, p, t)
  {
    var left := AcquireInto(PositionPellet(q, c, anchor, p, t));
    var right := PositionPellet(AcquireInto(q), c, anchor, p, t);
    assert left.pos == right.pos;
  }

  lemma {:induction false} AcquirePlaceCommuteAll(g: Pool, c: Settings, anchor: Vec3, i: nat)
    requires i <= |g.active|
    requires forall j :: 0 <= j < i ==> g.active[j] < g.nextId
    ensures AcquireInto(PlaceAll(g, c, anchor, i)) == PlaceAll(AcquireInto(g), c, anchor, i)
  {
    if i > 0 {
      var p := g.active[i - 1];
      var t := TimeAt(c, i - 1);
      var placed := PlaceAll(g, c, anchor, i - 1);
      var grown := PlaceAll(AcquireInto(g), c, anchor, i - 1);
      AcquirePlaceCommuteAll(g, c, anchor, i - 1);
      assert AcquireInto(placed) == grown;
      AcquirePositionCommute(placed, c, anchor, p, t);
      assert AcquireInto(PositionPellet(placed, c, anchor, p, t)) == PositionPellet(grown, c, anchor, p, t);
      assert AcquireInto(g).active[i - 1] == p;
      PlaceOneMore(AcquireInto(g), c, anchor, i);
    }
  }

  /** One more acquire after placing `i` pellets of the grown pool is the
      same as placing them in the pool grown one further. */
  lemma AcquirePlaceCommute(s0: Pool, c: Settings, anchor: Vec3, n: nat, i: nat)
    requires IdsCreated(s0) && i <= |s0.active| + n
    ensures AcquireInto(PlaceAll(Grow(s0, n), c, anchor, i)) == PlaceAll(Grow(s0, n + 1), c, anchor, i)
  {
    GrowKeepsIdsCreated(s0, n);
    AcquirePlaceCommuteAll(Grow(s0, n), c, anchor, i);
  }

  /** After growing by `n` and placing `i` pellets, pellet `j < i` stands at
      sample `j` of the pass. */
  lemma PlacedSample(s0: Pool, c: Settings, anchor: Vec3, n: nat, i: nat, j: nat)
    requires Valid(s0) && j < i <= |s0.active| + n
    ensures Grow(s0, n).active[j] == Candidate(s0, j)
    ensures Grow(s0, n).active[j] in PlaceAll(Grow(s0, n), c, anchor, i).pos
    ensures PlaceAll(Grow(s0, n), c, anchor, i).pos[Grow(s0, n).active[j]] == Sample(s0, c, anchor, j)
  {
    var g := Grow(s0, n);
    GrowKeepsValid(s0, n);
    GrowActive(s0, n);
    GrowPositions(s0, n);
    PlacedAt(g, c, anchor, i);
    if j >= |s0.active| {
      AcquisitionsAt(s0, n, j - |s0.active|);
    }
  }

  /** The distance the loop adds at index `i`, between the pellets it has
      just placed at `i` and `i - 1`, is the step of the sampled path. */
  lemma PlacedStep(s0: Pool, c: Settings, anchor: Vec3, dist: Metric, path: seq<Vec3>, n: nat, i: nat)
    requires Valid(s0) && 0 < i < |s0.active| + n
    requires i < |path| && path == SamplePath(s0, c, anchor, |path|)
    ensures Grow(s0, n).active[i] in PlaceAll(Grow(s0, n), c, anchor, i + 1).pos
    ensures Grow(s0, n).active[i - 1] in PlaceAll(Grow(s0, n), c, anchor, i + 1).pos
    ensures PathLength(dist, path, i) == PathLength(dist, path, i - 1)
      + dist(PlaceAll(Grow(s0, n), c, anchor, i + 1).pos[Grow(s0, n).active[i]],
             PlaceAll(Grow(s0, n), c, anchor, i + 1).pos[Grow(s0, n).active[i - 1]])
  {
    PlacedSample(s0, c, anchor, n, i + 1, i);
    PlacedSample(s0, c, anchor, n, i + 1, i - 1);
    SamplePathAt(s0, c, anchor, |path|, i);
    SamplePathAt(s0, c, anchor, |path|, i - 1);
  }

  /** The first half of a turn of the growth loop: position pellet `i` at
      the accumulated time, advance the time, and add the distance to pellet
      `i - 1` (there is none for `i == 0`). */
  method PlaceNext(s0: Pool, c: Settings, anchor: Vec3, dist: Metric, ghost path: seq<Vec3>,
                   ghost n: nat, i: nat, st: Pool, timeCovered: real, distanceCovered: real)
    returns (st': Pool, timeCovered': real, distanceCovered': real)
    requires Valid(s0) && i < |s0.active| + n
    requires i < |path| && path == SamplePath(s0, c, anchor, |path|)
    requires st == PlaceAll(Grow(s0, n), c, anchor, i)
    requires timeCovered == TimeAt(c, i)
    requires distanceCovered == if i == 0 then 0.0 else PathLength(dist, path, i - 1)
    ensures st' == PlaceAll(Grow(s0, n), c, anchor, i + 1)
    ensures timeCovered' == TimeAt(c, i + 1)
    ensures distanceCovered' == PathLength(dist, path, i)
  {
    st' := PositionPellet(st, c, anchor, st.active[i], timeCovered);
    timeCovered' := timeCovered + c.timeStep;
    distanceCovered' := distanceCovered;
    if i != 0 {
      PlacedStep(s0, c, anchor, dist, path, n, i);
      distanceCovered' := distanceCovered' + dist(st'.pos[st'.active[i]], st'.pos[st'.active[i - 1]]);
    }
  }

  /** The second half of a turn of the growth loop when `i` is the last
      index: `activePellets.Add(GetPooledPelletIfAvailable())`. */
  method AppendNext(ghost s0: Pool, ghost c: Settings, ghost anchor: Vec3, ghost n: nat, ghost i: nat, st: Pool)
    returns (st': Pool)
    requires IdsCreated(s0) && i <= |s0.active| + n
    requires st == PlaceAll(Grow(s0, n), c, anchor, i)
    ensures st' == PlaceAll(Grow(s0, n + 1), c, anchor, i)
    ensures |st'.active| == |st.active| + 1
  {
    AcquirePlaceCommute(s0, c, anchor, n, i);
    st' := AcquireInto(st);
  }

  /** What holds at the head of the growth loop at index `i`, after `n`
      acquires: the pellets before `i` are placed, the time is `i` steps, and
      the distance covered is the sampled path's length up to `i - 1`, still
      short of the line of sight. */
  ghost predicate LoopHead(s0: Pool, c: Settings, anchor: Vec3, dist: Metric, path: seq<Vec3>,
                           n: nat, i: nat, st: Pool, timeCovered: real, distanceCovered: real) {
    && i < |st.active| == |s0.active| + n
    && (n == 0 || |st.active| == i + 1)
    && st == PlaceAll(Grow(s0, n), c, anchor, i)
    && timeCovered == TimeAt(c, i)
    && i < |path|
    && distanceCovered == (if i == 0 then 0.0 else PathLength(dist, path, i - 1))
    && (i > 0 ==> distanceCovered < c.lineOfSight)
  }

  /** What holds when the growth loop breaks at index `k` after `n`
      acquires: `k` is where the sampled path first reaches the line of
      sight, the list holds the old pellets plus exactly the handouts needed
      to reach index `k`, and the pellets up to `k` are placed. */
  ghost predicate Reached(s0: Pool, c: Settings, anchor: Vec3, dist: Metric, path: seq<Vec3>,
                          n: nat, k: nat, st: Pool) {
    && FirstReach(dist, path, c.lineOfSight, k)
    && |st.active| == |s0.active| + n
    && |st.active| == (if |s0.active| > k then |s0.active| else k + 1)
    && st == PlaceAll(Grow(s0, n), c, anchor, k + 1)
  }

  /** Reaching the line of sight at `i`, straight from the loop head at `i`,
      is the loop's exit state. */
  lemma ReachedHere(s0: Pool, c: Settings, anchor: Vec3, dist: Metric, path: seq<Vec3>,
                    n: nat, i: nat, st: Pool, timeCovered: real, distanceCovered: real, st': Pool)
    requires NonNegativeMetric(dist)
    requires LoopHead(s0, c, anchor, dist, path, n, i, st, timeCovered, distanceCovered)
    requires st' == PlaceAll(Grow(s0, n), c, anchor, i + 1)
    requires PathLength(dist, path, i) >= c.lineOfSight
    ensures Reached(s0, c, anchor, dist, path, n, i, st')
  {
    ShortBefore(dist, path, c.lineOfSight, i);
  }

  /** The standing assumptions of the growth loop: a consistent pool, a
      non-negative metric, and a stretch `path` of the sampled path, one
      point per index, whose length reaches the line of sight. */
  ghost predicate Pass(s0: Pool, c: Settings, anchor: Vec3, dist: Metric, path: seq<Vec3>) {
    && Valid(s0) && IdsCreated(s0) && NonNegativeMetric(dist)
    && |path| > 0 && path == SamplePath(s0, c, anchor, |path|)
    && PathLength(dist, path, |path| - 1) >= c.lineOfSight
  }

  /** One turn of the growth loop at index `i`: place pellet `i`, add the
      step; `done` when the distance reaches the line of sight, otherwise
      append the next handout if `i` is the last index. */
  method Turn(s0: Pool, c: Settings, anchor: Vec3, dist: Metric, ghost path: seq<Vec3>,
              ghost n: nat, i: nat, st: Pool, timeCovered: real, distanceCovered: real)
    returns (st': Pool, timeCovered': real, distanceCovered': real, ghost n': nat, done: bool)
    requires Pass(s0, c, anchor, dist, path)
    requires LoopHead(s0, c, anchor, dist, path, n, i, st, timeCovered, distanceCovered)
    ensures distanceCovered' == PathLength(dist, path, i) && timeCovered' == TimeAt(c, i + 1)
    ensures done <==> distanceCovered' >= c.lineOfSight
    ensures done ==> Reached(s0, c, anchor, dist, path, n', i, st')
    ensures !done ==> LoopHead(s0, c, anchor, dist, path, n', i + 1, st', timeCovered', distanceCovered')
  {
    st', timeCovered', distanceCovered' := PlaceNext(s0, c, anchor, dist, path, n, i, st, timeCovered, distanceCovered);
    n' := n;
    done := distanceCovered' >= c.lineOfSight;
    if done {
      ReachedHere(s0, c, anchor, dist, path, n, i, st, timeCovered, distanceCovered, st');
    } else {
      st', n' := Advance(s0, c, anchor, dist, path, n, i, st', timeCovered', distanceCovered');
    }
  }

  /** The end of a turn that did not break: append the next handout when
      `i` is the last index, and move on to index `i + 1`. */
  method Advance(s0: Pool, c: Settings, anchor: Vec3, dist: Metric, ghost path: seq<Vec3>,
                 ghost n: nat, i: nat, st: Pool, ghost timeCovered: real, ghost distanceCovered: real)
    returns (st': Pool, ghost n': nat)
    requires IdsCreated(s0) && NonNegativeMetric(dist)
    requires i < |st.active| == |s0.active| + n && (n == 0 || |st.active| == i + 1)
    requires st == PlaceAll(Grow(s0, n), c, anchor, i + 1)
    requires timeCovered == TimeAt(c, i + 1)
    requires |path| > 0 && i < |path|
    requires distanceCovered == PathLength(dist, path, i) < c.lineOfSight
    requires PathLength(dist, path, |path| - 1) >= c.lineOfSight
    ensures LoopHead(s0, c, anchor, dist, path, n', i + 1, st', timeCovered, distanceCovered)
    ensures |st'.active| == if i + 1 == |st.active| then |st.active| + 1 else |st.active|
  {
    ReachLiesAhead(dist, path, c.lineOfSight, i, |path| - 1);
    if i == |st.active| - 1 {
      st', n' := Extend(s0, c, anchor, dist, path, n, i, st, timeCovered, distanceCovered);
    } else {
      st', n' := st, n;
      MoveOn(s0, c, anchor, dist, path, n, i, st, timeCovered, distanceCovered);
    }
  }

  /** Moving on when `i` is the last index: one more handout. */
  method Extend(ghost s0: Pool, ghost c: Settings, ghost anchor: Vec3, ghost dist: Metric, ghost path: seq<Vec3>,
                ghost n: nat, ghost i: nat, st: Pool, ghost timeCovered: real, ghost distanceCovered: real)
    returns (st': Pool, ghost n': nat)
    requires IdsCreated(s0)
    requires i + 1 == |st.active| == |s0.active| + n
    requires st == PlaceAll(Grow(s0, n), c, anchor, i + 1)
    requires timeCovered == TimeAt(c, i + 1)
    requires i + 1 < |path|
    requires distanceCovered == PathLength(dist, path, i) < c.lineOfSight
    ensures LoopHead(s0, c, anchor, dist, path, n', i + 1, st', timeCovered, distanceCovered)
    ensures |st'.active| == |st.active| + 1
  {
    st' := AppendNext(s0, c, anchor, n, i + 1, st);
    n' := n + 1;
  }

  /** Moving on when the list already reaches past `i`. */
  lemma MoveOn(s0: Pool, c: Settings, anchor: Vec3, dist: Metric, path: seq<Vec3>,
               n: nat, i: nat, st: Pool, timeCovered: real, distanceCovered: real)
    requires i + 1 < |st.active| == |s0.active| + n && n == 0
    requires st == PlaceAll(Grow(s0, n), c, anchor, i + 1)
    requires timeCovered == TimeAt(c, i + 1)
    requires i + 1 < |path|
    requires distanceCovered == PathLength(dist, path, i) < c.lineOfSight
    ensures LoopHead(s0, c, anchor, dist, path, n, i + 1, st, timeCovered, distanceCovered)
  {
  }

  /** The guard before the growth loop: an empty active list first
      receives one handout, so the loop head holds at index 0. */
  method Start(s0: Pool, c: Settings, anchor: Vec3, dist: Metric, ghost path: seq<Vec3>)
    returns (st: Pool, ghost n: nat)
    requires IdsCreated(s0)
    requires |path| > 0
    ensures LoopHead(s0, c, anchor, dist, path, n, 0, st, 0.0, 0.0)
    ensures |s0.active| > 0 ==> st == s0
    ensures |s0.active| == 0 ==> st == AcquireInto(s0)
  {
    st := s0;
    n := 0;
    if |st.active| == 0 {
      st := AppendNext(s0, c, anchor, 0, 0, st);
      n := 1;
    }
  }

  /** The growth loop of `OnForceUpdate` (its first loop): positions pellet
      `i` at time `i * timeStep`, accumulates the distance to its
      predecessor, breaks once that reaches the line of sight, and otherwise
      appends the next handout when `i` is the last index. The loop leaves
      only through its `break`; it terminates because the ghost stretch
      `path` of the sampled path already reaches the line of sight. */
  method GrowAndPlace(s0: Pool, c: Settings, anchor: Vec3, dist: Metric, ghost path: seq<Vec3>)
    returns (st: Pool, k: nat, ghost n: nat)
    requires Pass(s0, c, anchor, dist, path)
    ensures Reached(s0, c, anchor, dist, path, n, k, st)
    ensures FirstReach(dist, path, c.lineOfSight, k)
    ensures |st.active| == if |s0.active| > k then |s0.active| else k + 1
  {
    st, n := Start(s0, c, anchor, dist, path);
    var distanceCovered := 0.0;
    var timeCovered := 0.0;
    var i: nat := 0;

    // The C# code's `for (; i < activePellets.Count; i++)`: the condition
    // always holds, since the list grows whenever `i` reaches its end.
    while true
      invariant LoopHead(s0, c, anchor, dist, path, n, i, st, timeCovered, distanceCovered)
      decreases |path| - i
    {
      var done;
      st, timeCovered, distanceCovered, n, done := Turn(s0, c, anchor, dist, path, n, i, st, timeCovered, distanceCovered);
      if done {
        break;
      }
      i := i + 1;
    }
    k := i;
  }

  /** The pool after `g` turns of the release loop at index `k`. */
  ghost function Released(st: Pool, k: nat, g: nat): (r: Pool)
    requires k + g <= |st.active|
    ensures |r.active| == |st.active| - g
  {
    if g == 0 then st else ReleaseAt(Released(st, k, g - 1), k)
  }

  /** The release turns leave the counter and the positions alone. */
  lemma {:induction false} ReleasedKeeps(st: Pool, k: nat, g: nat)
    requires k + g <= |st.active|
    ensures Released(st, k, g).nextId == st.nextId && Released(st, k, g).pos == st.pos
  {
    if g > 0 {
      ReleasedKeeps(st, k, g - 1);
    }
  }

  /** Each turn removes the pellet at `k` from the active list ... */
  lemma {:induction false} ReleasedActive(st: Pool, k: nat, g: nat)
    requires k + g <= |st.active|
    ensures Released(st, k, g).active == st.active[..k] + st.active[k + g..]
  {
    if g == 0 {
      assert st.active == st.active[..k] + st.active[k..];
    } else {
      var prev := Released(st, k, g - 1);
      ReleasedActive(st, k, g - 1);
      DropOneMore(st.active, prev.active, k, g);
      assert Released(st, k, g).active == prev.active[..k] + prev.active[k + 1..];
    }
  }

  /** The pellet at `k` after `g - 1` turns is the one that stood at `k + g - 1`. */
  lemma ReleasedNext(st: Pool, k: nat, g: nat)
    requires 0 < g && k + g <= |st.active|
    ensures Released(st, k, g - 1).active[k] == st.active[k + g - 1]
  {
    ReleasedActive(st, k, g - 1);
  }

  /** ... and appends it to the reserve. */
  lemma {:induction false} ReleasedPooled(st: Pool, k: nat, g: nat)
    requires k + g <= |st.active|
    ensures Released(st, k, g).pooled == st.pooled + st.active[k..k + g]
  {
    if g > 0 {
      ReleasedPooled(st, k, g - 1);
      ReleasedNext(st, k, g);
      AppendSlice(st.pooled, st.active, k, k + g);
    }
  }

  lemma {:induction false} ReleasedKeepsValid(st: Pool, k: nat, g: nat)
    requires Valid(st) && k + g <= |st.active|
    ensures Valid(Released(st, k, g))
  {
    if g > 0 {
      ReleasedKeepsValid(st, k, g - 1);
      ReleaseKeepsValid(Released(st, k, g - 1), k);
    }
  }

  /** The release loop of `OnForceUpdate` (its second loop). It has no
      initialiser, so it starts at the break index `k`; each turn pools the
      pellet at `k`, removes it, and the `i--` cancels the loop's `i++`.
      Everything from index `k` on goes back to the reserve in order. */
  method ReleaseFrom(st: Pool, k: nat) returns (r: Pool)
    requires Valid(st) && k <= |st.active|
    ensures Valid(r)
    ensures r.active == st.active[..k]
    ensures r.pooled == st.pooled + st.active[k..]
    ensures r.nextId == st.nextId && r.pos == st.pos
  {
    r := st;
    var i := k;
    ghost var gone: nat := 0;
    while i < |r.active|
      invariant i == k && k + gone <= |st.active|
      invariant |r.active| + gone == |st.active|
      invariant r == Released(st, k, gone)
      decreases |r.active| - i
    {
      r := ReleaseAt(r, i);
      gone := gone + 1;
    }
    ReleasedKeeps(st, k, gone);
    ReleasedActive(st, k, gone);
    ReleasedPooled(st, k, gone);
    ReleasedKeepsValid(st, k, gone);
    assert st.active[k..k + gone] == st.active[k..];
  }

  /** The lists after the two loops. */
  lemma LoopsLists(s0: Pool, c: Settings, anchor: Vec3, k: nat, n: nat, st: Pool, pool: Pool)
    requires |st.active| == |s0.active| + n
    requires |st.active| == if |s0.active| > k then |s0.active| else k + 1
    requires st == PlaceAll(Grow(s0, n), c, anchor, k + 1)
    requires pool.active == st.active[..k] && pool.pooled == st.pooled + st.active[k..]
    requires pool.nextId == st.nextId
    ensures OutcomeLists(s0, k, pool)
  {
    assert n == Acquired(s0, k);
    GrowActive(s0, n);
    GrowReserve(s0, n);
  }

  /** After the two loops the pellets up to the break index sit on the
      sampled path. */
  lemma LoopsPositions(s0: Pool, c: Settings, anchor: Vec3, k: nat, n: nat, st: Pool)
    requires Valid(s0)
    requires |st.active| == |s0.active| + n
    requires |st.active| == if |s0.active| > k then |s0.active| else k + 1
    requires st == PlaceAll(Grow(s0, n), c, anchor, k + 1)
    ensures OutcomePositions(s0, c, anchor, k, st)
  {
    assert n == Acquired(s0, k);
    GrowActive(s0, n);
    forall j | 0 <= j <= k
      ensures Grown(s0, k)[j] in st.pos && st.pos[Grown(s0, k)[j]] == Sample(s0, c, anchor, j)
    {
      PlacedSample(s0, c, anchor, n, k + 1, j);
    }
  }

  /** No pellet changes depth across the two loops. */
  lemma LoopsDepth(s0: Pool, c: Settings, anchor: Vec3, k: nat, n: nat, st: Pool)
    requires Valid(s0)
    requires k + 1 <= |s0.active| + n
    requires st == PlaceAll(Grow(s0, n), c, anchor, k + 1)
    ensures OutcomeDepth(s0, st)
  {
    GrowPositions(s0, n);
    PlacedDepth(Grow(s0, n), c, anchor, k + 1);
    forall p | p in st.pos
      ensures st.pos[p].z == PositionOf(s0, p).z
    {
      assert st.pos[p] == PositionOf(st, p);
    }
  }

  /** A pellet the growth loop did not place keeps its position. */
  lemma LoopsUnmoved(s0: Pool, c: Settings, anchor: Vec3, k: nat, n: nat, st: Pool)
    requires Valid(s0)
    requires |st.active| == |s0.active| + n
    requires |st.active| == if |s0.active| > k then |s0.active| else k + 1
    requires st == PlaceAll(Grow(s0, n), c, anchor, k + 1)
    ensures OutcomeUnmoved(s0, k, st)
  {
    assert n == Acquired(s0, k);
    GrowActive(s0, n);
    GrowPositions(s0, n);
    PlacedUntouched(Grow(s0, n), c, anchor, k + 1);
    forall p | p in st.pos && p !in Grown(s0, k)[..k + 1]
      ensures st.pos[p] == PositionOf(s0, p)
    {
      assert st.pos[p] == PositionOf(st, p);
    }
  }

  /** `OnForceUpdate(v)`: stores the velocity, runs the growth loop and then
      the release loop. */
  method OnForceUpdate(s: Renderer, v: Vec2, anchor: Vec3, dist: Metric, ghost bound: nat)
    returns (r: Renderer, k: nat)
    requires Valid(s.pool)
    requires NonNegativeMetric(dist)
    requires Travel(s.pool, s.settings.(initialVelocity := v), anchor, dist, bound) >= s.settings.lineOfSight
    ensures UpdateOutcome(s, v, anchor, dist, r, k)
  {
    var c := s.settings.(initialVelocity := v);
    var st;
    ghost var n;
    ghost var path := SamplePath(s.pool, c, anchor, bound + 1);
    ValidIdsCreated(s.pool);
    st, k, n := GrowAndPlace(s.pool, c, anchor, dist, path);
    CrossingOnLongerPath(s.pool, c, anchor, dist, bound + 1, k);
    GrowKeepsValid(s.pool, n);
    PlaceKeepsValid(Grow(s.pool, n), c, anchor, k + 1);
    var pool := ReleaseFrom(st, k);
    LoopsLists(s.pool, c, anchor, k, n, st, pool);
    LoopsPositions(s.pool, c, anchor, k, n, st);
    LoopsDepth(s.pool, c, anchor, k, n, st);
    LoopsUnmoved(s.pool, c, anchor, k, n, st);
    r := Renderer(c, pool);
  }
}
