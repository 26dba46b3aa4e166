/** The pellet pool of the trajectory renderer: an ordered list of active
    pellets, a last-in-first-out reserve of pooled ones, and per-pellet
    active flags and world positions.

    A pellet is named by the order in which it was created, so the ids
    created so far are exactly `0 .. nextId - 1`.
 */
module PelletPool {
  import opened Kinematics

  type Pellet = nat

  datatype Pool = Pool(
    active: seq<Pellet>,
    pooled: seq<Pellet>,
    nextId: nat,
    isActive: map<Pellet, bool>,
    pos: map<Pellet, Vec3>)

  /** The number of pellets `Awake` creates up front. */
  const PrewarmCount: nat := 5

  /** The pool before `Awake`: two empty lists, nothing created. */
  const Empty: Pool := Pool([], [], 0, map[], map[])

  predicate NoDup(xs: seq<Pellet>) {
    forall i, j :: 0 <= i < j < |xs| ==> xs[i] != xs[j]
  }

  lemma NoDupAppend(xs: seq<Pellet>, x: Pellet)
    requires NoDup(xs) && x !in xs
    ensures NoDup(xs + [x])
  {
  }

  lemma NoDupRemoveAt(xs: seq<Pellet>, i: nat)
    requires NoDup(xs) && i < |xs|
    ensures NoDup(xs[..i] + xs[i + 1..])
    ensures xs[i] !in xs[..i] + xs[i + 1..]
  {
    var r := xs[..i] + xs[i + 1..];
    forall a, b | 0 <= a < b < |r|
      ensures r[a] != r[b]
    {
      var a' := if a < i then a else a + 1;
      var b' := if b < i then b else b + 1;
      assert r[a] == xs[a'] && r[b] == xs[b'];
    }
    forall j | 0 <= j < |r|
      ensures r[j] != xs[i]
    {
      if j < i {
        assert r[j] == xs[j];
      } else {
        assert r[j] == xs[j + 1];
      }
    }
  }

  /** The conservation invariant: the two lists are duplicate-free and
      disjoint, together they hold exactly the pellets created so far, every
      created pellet has a flag and a position, and a pellet's flag is set iff
      it is in the active list. */
  ghost predicate Valid(s: Pool) {
    && ListsDisjoint(s)
    && CoversCreated(s)
    && Tracked(s)
    && FlagsAgree(s)
  }

  ghost predicate ListsDisjoint(s: Pool) {
    && NoDup(s.active)
    && NoDup(s.pooled)
    && (forall p :: p in s.active ==> p !in s.pooled)
  }

  ghost predicate CoversCreated(s: Pool) {
    forall p: Pellet :: p in s.active || p in s.pooled <==> p < s.nextId
  }

  ghost predicate Tracked(s: Pool) {
    && (forall p: Pellet :: p in s.isActive <==> p < s.nextId)
    && (forall p: Pellet :: p in s.pos <==> p < s.nextId)
  }

  ghost predicate FlagsAgree(s: Pool) {
    forall p :: p in s.isActive ==> (s.isActive[p] <==> p in s.active)
  }

  /** Where pellet `p` stands in state `s`; a pellet not created yet will
      appear at the world origin. */
  function PositionOf(s: Pool, p: Pellet): Vec3 {
    if p in s.pos then s.pos[p] else Origin
  }

  /** `CreatePellet`: a new game object, active as every new game object is,
      at the world origin. It belongs to neither list yet. */
  function Create(s: Pool): (r: (Pool, Pellet))
    ensures r.1 == s.nextId && r.0.nextId == s.nextId + 1
    ensures r.0.active == s.active && r.0.pooled == s.pooled
    ensures r.1 in r.0.isActive && r.0.isActive[r.1]
    ensures r.1 in r.0.pos && r.0.pos[r.1] == Origin
    ensures forall q :: q in s.pos && q != r.1 ==> q in r.0.pos && r.0.pos[q] == s.pos[q]
    ensures forall q :: q in s.isActive && q != r.1 ==> q in r.0.isActive && r.0.isActive[q] == s.isActive[q]
  {
    var p := s.nextId;
    (s.(nextId := p + 1, isActive := s.isActive[p := true], pos := s.pos[p := Origin]), p)
  }

  /** The pellet the `m`-th next acquire hands out (counting from 0): the
      pooled pellets from the back of the reserve, then fresh ids. */
  function Handout(s: Pool, m: nat): Pellet {
    if m < |s.pooled| then s.pooled[|s.pooled| - 1 - m] else s.nextId + (m - |s.pooled|)
  }

  /** The first `m` pellets that successive acquires hand out. */
  function Acquisitions(s: Pool, m: nat): (r: seq<Pellet>)
    ensures |r| == m
  {
    if m == 0 then [] else Acquisitions(s, m - 1) + [Handout(s, m - 1)]
  }

  lemma {:induction false} AcquisitionsAt(s: Pool, m: nat, j: nat)
    requires j < m
    ensures Acquisitions(s, m)[j] == Handout(s, j)
  {
    if j < m - 1 {
      AcquisitionsAt(s, m - 1, j);
    }
  }

  /** `GetPooledPelletIfAvailable`: the last pooled pellet if the reserve is
      not empty, otherwise a newly created one; either way marked active. The
      caller appends it to the active list. */
  function Acquire(s: Pool): (r: (Pool, Pellet))
    ensures r.1 == Handout(s, 0)
    ensures |s.pooled| > 0 ==>
      && r.0.pooled == s.pooled[..|s.pooled| - 1]
      && r.0.nextId == s.nextId
      && r.0.pos == s.pos
    ensures |s.pooled| == 0 ==>
      && r.0.pooled == []
      && r.0.nextId == s.nextId + 1
      && r.0.pos == s.pos[r.1 := Origin]
    ensures r.0.active == s.active
    ensures r.0.isActive == s.isActive[r.1 := true]
  {
    if |s.pooled| != 0 then
      var p := s.pooled[|s.pooled| - 1];
      (s.(pooled := s.pooled[..|s.pooled| - 1], isActive := s.isActive[p := true]), p)
    else
      var (t, p) := Create(s);
      (t.(isActive := t.isActive[p := true]), p)
  }

  /** `activePellets.Add(GetPooledPelletIfAvailable())`, the only way the
      renderer uses an acquired pellet: the next handout joins the end of the
      active list and is marked active. */
  function AcquireInto(s: Pool): (r: Pool)
    ensures r.active == s.active + [Handout(s, 0)]
    ensures |s.pooled| > 0 ==> r.pooled == s.pooled[..|s.pooled| - 1] && r.nextId == s.nextId && r.pos == s.pos
    ensures |s.pooled| == 0 ==> r.pooled == [] && r.nextId == s.nextId + 1 && r.pos == s.pos[s.nextId := Origin]
    ensures r.isActive == s.isActive[Handout(s, 0) := true]
  {
    var (t, p) := Acquire(s);
    t.(active := t.active + [p])
  }

  /** Every pellet in either list has been created: the part of the
      conservation invariant that acquiring needs to hand out a known id. */
  ghost predicate IdsCreated(s: Pool) {
    && (forall j :: 0 <= j < |s.active| ==> s.active[j] < s.nextId)
    && (forall j :: 0 <= j < |s.pooled| ==> s.pooled[j] < s.nextId)
  }

  lemma ValidIdsCreated(s: Pool)
    requires Valid(s)
    ensures IdsCreated(s)
  {
    forall j | 0 <= j < |s.active|
      ensures s.active[j] < s.nextId
    {
      assert s.active[j] in s.active;
    }
    forall j | 0 <= j < |s.pooled|
      ensures s.pooled[j] < s.nextId
    {
      assert s.pooled[j] in s.pooled;
    }
  }

  /** Acquiring keeps every listed pellet a created one. */
  lemma AcquireKeepsIdsCreated(s: Pool)
    requires IdsCreated(s)
    ensures IdsCreated(AcquireInto(s))
  {
  }

  /** Acquiring keeps the conservation invariant. */
  lemma AcquireKeepsValid(s: Pool)
    requires Valid(s)
    ensures Valid(AcquireInto(s))
  {
    if |s.pooled| > 0 {
      ReuseKeepsValid(s);
    } else {
      CreateKeepsValid(s);
    }
  }

  lemma ReuseKeepsValid(s: Pool)
    requires Valid(s) && |s.pooled| > 0
    ensures Valid(AcquireInto(s))
  {
    var p := Handout(s, 0);
    var r := AcquireInto(s);
    assert s.pooled == r.pooled + [p];
    assert p in s.pooled;
    assert p !in r.pooled;
    NoDupAppend(s.active, p);
    assert ListsDisjoint(r);
    forall q: Pellet
      ensures q in r.active || q in r.pooled <==> q < r.nextId
    {
      assert q in s.pooled <==> q in r.pooled || q == p;
    }
  }

  lemma CreateKeepsValid(s: Pool)
    requires Valid(s) && |s.pooled| == 0
    ensures Valid(AcquireInto(s))
  {
    var p := Handout(s, 0);
    assert p !in s.pos;
    NoDupAppend(s.active, p);
    assert ListsDisjoint(AcquireInto(s));
  }

  /** `PoolPellet`: deactivates the pellet and appends it to the reserve;
      the active list, the positions and every other flag stay as they were. */
  function PoolPellet(s: Pool, p: Pellet): (r: Pool)
    ensures r.pooled == s.pooled + [p]
    ensures r.active == s.active && r.nextId == s.nextId && r.pos == s.pos
    ensures p in r.isActive && !r.isActive[p]
    ensures r.isActive.Keys == s.isActive.Keys + {p}
    ensures forall q :: q in s.isActive && q != p ==> r.isActive[q] == s.isActive[q]
  {
    s.(isActive := s.isActive[p := false], pooled := s.pooled + [p])
  }

  /** Appending a slice that grows by one element is appending the shorter
      slice and then that element. */
  lemma AppendSlice(a: seq<Pellet>, xs: seq<Pellet>, i: nat, j: nat)
    requires i < j <= |xs|
    ensures a + xs[i..j] == (a + xs[i..j - 1]) + [xs[j - 1]]
  {
    assert xs[i..j] == xs[i..j - 1] + [xs[j - 1]];
  }

  /** Removing index `k` once more from a list whose stretch `[k, k + g - 1)`
      is already gone removes the stretch `[k, k + g)`. */
  lemma DropOneMore(xs: seq<Pellet>, q: seq<Pellet>, k: nat, g: nat)
    requires 0 < g && k + g <= |xs|
    requires q == xs[..k] + xs[k + g - 1..]
    ensures q[..k] + q[k + 1..] == xs[..k] + xs[k + g..]
  {
    assert q[..k] == xs[..k];
    assert q[k + 1..] == xs[k + g..];
  }

  /** One turn of the release loop: `PoolPellet(activePellets[i])` followed
      by `activePellets.RemoveAt(i)`. */
  function ReleaseAt(s: Pool, i: nat): (r: Pool)
    requires i < |s.active|
    ensures r.active == s.active[..i] + s.active[i + 1..]
    ensures r.pooled == s.pooled + [s.active[i]]
    ensures r.nextId == s.nextId && r.pos == s.pos
    ensures r.isActive == s.isActive[s.active[i] := false]
  {
    var t := PoolPellet(s, s.active[i]);
    t.(active := t.active[..i] + t.active[i + 1..])
  }

  /** Releasing keeps the conservation invariant. */
  lemma ReleaseKeepsValid(s: Pool, i: nat)
    requires Valid(s) && i < |s.active|
    ensures Valid(ReleaseAt(s, i))
  {
    var p := s.active[i];
    var r := ReleaseAt(s, i);
    assert s.active == s.active[..i] + [p] + s.active[i + 1..];
    NoDupRemoveAt(s.active, i);
    NoDupAppend(s.pooled, p);
    assert r.active == s.active[..i] + s.active[i + 1..];
    assert ListsDisjoint(r);
    forall q: Pellet
      ensures q in r.active || q in r.pooled <==> q < r.nextId
    {
      assert q in s.active <==> q in r.active || q == p;
    }
    forall q | q in r.isActive
      ensures r.isActive[q] <==> q in r.active
    {
      assert q in s.active <==> q in r.active || q == p;
    }
  }

  /** `PoolPellet(CreatePellet())` */
  function CreatePooled(s: Pool): (r: Pool)
    ensures r.active == s.active
    ensures r.pooled == s.pooled + [s.nextId]
    ensures r.nextId == s.nextId + 1
    ensures Valid(s) ==> Valid(r)
    ensures Valid(s) ==> forall p :: p in r.pos ==> r.pos[p] == PositionOf(s, p)
    ensures AllAtOrigin(s) ==> AllAtOrigin(r)
  {
    var (t, p) := Create(s);
    var r := PoolPellet(t, p);
    assert Valid(s) ==> Valid(r) by {
      if Valid(s) {
        assert p !in s.pooled && p !in s.active && p !in s.pos;
        NoDupAppend(s.pooled, p);
        assert ListsDisjoint(r);
      }
    }
    r
  }

  ghost predicate AllAtOrigin(s: Pool) {
    forall p :: p in s.pos ==> s.pos[p] == Origin
  }

  /** `n` pellets created and pooled one after the other, starting from
      two empty lists. */
  function Prewarm(n: nat): (r: Pool)
    ensures Valid(r) && AllAtOrigin(r)
    ensures r.active == [] && |r.pooled| == n && r.nextId == n
    ensures NoDup(r.pooled)
    ensures forall p :: p in r.pooled ==> p in r.isActive && !r.isActive[p]
  {
    if n == 0 then
      assert Valid(Empty);
      Empty
    else
      CreatePooled(Prewarm(n - 1))
  }

  /** `Awake`: both lists start empty, then five pellets are created and
      pooled. The result holds the five distinct pellets `0 .. 4`, all
      inactive, all in the reserve, all at the world origin. */
  function Awake(): (r: Pool)
    ensures Valid(r)
    ensures r.active == []
    ensures |r.pooled| == PrewarmCount && NoDup(r.pooled)
    ensures r.nextId == PrewarmCount
    ensures forall p :: p in r.pooled ==> p in r.isActive && !r.isActive[p]
    ensures AllAtOrigin(r)
  {
    Prewarm(PrewarmCount)
  }

  /** The set of elements of a list. */
  function Elems(xs: seq<Pellet>): set<Pellet> {
    set x | x in xs
  }

  lemma {:induction false} ElemsOfNoDup(xs: seq<Pellet>)
    requires NoDup(xs)
    ensures |Elems(xs)| == |xs|
  {
    if xs != [] {
      var t := xs[..|xs| - 1];
      var x := xs[|xs| - 1];
      assert xs == t + [x];
      assert NoDup(t);
      ElemsOfNoDup(t);
      assert Elems(xs) == Elems(t) + {x};
      assert x !in Elems(t);
    }
  }

  /** The ids `0 .. n - 1`. */
  function Created(n: nat): (r: set<Pellet>)
    ensures forall p: Pellet :: p in r <==> p < n
    ensures |r| == n
  {
    if n == 0 then {} else
      assert n - 1 !in Created(n - 1);
      Created(n - 1) + {n - 1}
  }

  /** Pellets are never destroyed: the two lists together always count every
      pellet ever created. */
  lemma CountConserved(s: Pool)
    requires Valid(s)
    ensures |s.active| + |s.pooled| == s.nextId
  {
    ElemsOfNoDup(s.active);
    ElemsOfNoDup(s.pooled);
    assert Elems(s.active) !! Elems(s.pooled);
    assert Elems(s.active) + Elems(s.pooled) == Created(s.nextId);
  }

  /** Pooling the pellet just acquired from a non-empty reserve undoes the
      acquire exactly. */
  lemma AcquireThenPoolRestores(s: Pool)
    requires Valid(s) && |s.pooled| > 0
    ensures PoolPellet(Acquire(s).0, Acquire(s).1) == s
  {
    var (t, p) := Acquire(s);
    var r := PoolPellet(t, p);
    assert p in s.pooled && p !in s.active;
    assert r.isActive == s.isActive;
    assert r.pooled == s.pooled;
  }
}
