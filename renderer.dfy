/**
 * The collision part of src/renderer.ts (and of its compiled twin
 * dist/renderer.js): the `geometry` getter of an entity, `Scene.add`, and the
 * narrow-phase sweep `CollisionSystem.update`, which tests every unordered
 * pair of entities with GJK in world space.
 */
module Renderer {
  import opened Wrappers
  import opened Vectors
  import opened Utils
  import opened Gjk

  /** Vertex positions, three numbers per vertex. */
  datatype Geometry = Geometry(positions: seq<real>)

  datatype Mesh = Mesh(geometry: Option<Geometry>)

  /**
   * An entity as the collision sweep sees it: an identifier, an optional
   * mesh, and the model matrix its transform produces.
   */
  datatype Entity = Entity(id: int, mesh: Option<Mesh>, model: Mat4)

  /** A recorded contact; `update` never fills in the normal or the penetration. */
  datatype Collision = Collision(a: Entity, b: Entity, normal: Option<Vec3>, penetration: Option<real>)

  type Pair = (nat, nat)

  // ---------------------------------------------------------------------
  // Entity.geometry

  /** The `geometry` getter: None is the thrown "No mesh or mesh.geometry" error. */
  function GeometryOf(e: Entity): (r: Option<Geometry>)
    ensures r.None? <==> e.mesh.None? || e.mesh.value.geometry.None?
    ensures r.Some? ==> e.mesh == Some(Mesh(r))
  {
    match e.mesh
    case None => None
    case Some(m) => m.geometry
  }

  /** An entity whose geometry, if it has one, is a list of whole vertices (possibly none). */
  predicate ShapeReady(e: Entity) {
    GeometryOf(e).Some? ==> |GeometryOf(e).value.positions| % 3 == 0
  }

  predicate AllReady(es: seq<Entity>) {
    forall k :: 0 <= k < |es| ==> ShapeReady(es[k])
  }

  /** The GJK verdict on the world-space vertices of two entities that both have geometry. */
  function Collide(e1: Entity, e2: Entity): bool
    requires ShapeReady(e1) && ShapeReady(e2)
    requires GeometryOf(e1).Some? && GeometryOf(e2).Some?
  {
    GjkOutcome(Transformed(GeometryOf(e1).value.positions, e1.model),
               Transformed(GeometryOf(e2).value.positions, e2.model), 1.0)
  }

  /** The narrow-phase test update applies: both entities have geometry and GJK reports contact. */
  function Contact(e1: Entity, e2: Entity): (r: bool)
    ensures r ==> GeometryOf(e1).Some? && GeometryOf(e2).Some?
  {
    && GeometryOf(e1).Some? && GeometryOf(e2).Some?
    && ShapeReady(e1) && ShapeReady(e2)
    && Collide(e1, e2)
  }

  // ---------------------------------------------------------------------
  // The order in which update visits pairs

  /**
   * The pairs the nested loops of update have visited, in order, when they
   * are about to test (i, j) among n entities: every pair of the rows before
   * i, then (i, i + 1), ..., (i, j - 1).
   */
  function Visited(n: nat, i: nat, j: nat): seq<Pair>
    decreases i, j
  {
    if j > i + 1 then Visited(n, i, j - 1) + [(i, j - 1)]
    else if i == 0 then []
    else Visited(n, i - 1, n)
  }

  /** Every pair the loops visit: all that is visited before row n. */
  function Pairs(n: nat): seq<Pair> { Visited(n, n, n + 1) }

  predicate LexLess(p: Pair, q: Pair) { p.0 < q.0 || (p.0 == q.0 && p.1 < q.1) }

  predicate Sorted(ps: seq<Pair>) {
    forall a, b :: 0 <= a < b < |ps| ==> LexLess(ps[a], ps[b])
  }

  /** Before (i, j): the pairs of the earlier rows and the earlier pairs of row i. */
  lemma {:induction false} VisitedMembers(n: nat, i: nat, j: nat)
    requires i <= n && j <= n + 1
    ensures forall p: Pair :: p in Visited(n, i, j) <==>
      (p.0 < i && p.0 < p.1 < n) || (p.0 == i && i < p.1 < j)
    decreases i, j
  {
    if j > i + 1 {
      VisitedMembers(n, i, j - 1);
    } else if i > 0 {
      VisitedMembers(n, i - 1, n);
    }
  }

  /** ps holds exactly the pairs i < j < n. */
  ghost predicate PairsBelow(ps: seq<Pair>, n: nat) {
    forall p: Pair :: p in ps <==> p.0 < p.1 < n
  }

  /** update visits exactly the pairs i < j < n. */
  lemma {:induction false} PairsMembers(n: nat)
    ensures PairsBelow(Pairs(n), n)
  {
    VisitedMembers(n, n, n + 1);
  }

  lemma {:induction false} SortedAppend(a: seq<Pair>, b: seq<Pair>)
    requires Sorted(a) && Sorted(b)
    requires forall x, y :: x in a && y in b ==> LexLess(x, y)
    ensures Sorted(a + b)
  {
    forall u, v | 0 <= u < v < |a + b|
      ensures LexLess((a + b)[u], (a + b)[v])
    {
      if v < |a| {
      } else if u >= |a| {
        assert (a + b)[u] == b[u - |a|];
      } else {
        assert (a + b)[u] == a[u] && (a + b)[v] == b[v - |a|];
      }
    }
  }

  lemma {:induction false} VisitedSorted(n: nat, i: nat, j: nat)
    requires i <= n && j <= n + 1
    ensures Sorted(Visited(n, i, j))
    decreases i, j
  {
    if j > i + 1 {
      VisitedSorted(n, i, j - 1);
      VisitedMembers(n, i, j - 1);
      SortedAppend(Visited(n, i, j - 1), [(i, j - 1)]);
    } else if i > 0 {
      VisitedSorted(n, i - 1, n);
    }
  }

  /** The pairs come in strictly increasing lexicographic order, so no pair is visited twice. */
  lemma {:induction false} PairsSorted(n: nat)
    ensures Sorted(Pairs(n))
  {
    VisitedSorted(n, n, n + 1);
  }

  /** Twice the number of pairs visited before (i, j). */
  lemma {:induction false} VisitedLength(n: nat, i: nat, j: nat)
    requires i <= n && j <= n + 1
    ensures 2 * |Visited(n, i, j)| == i * (2 * n - i - 1) + 2 * (if j > i + 1 then j - i - 1 else 0)
    decreases i, j
  {
    if j > i + 1 {
      VisitedLength(n, i, j - 1);
    } else if i > 0 {
      VisitedLength(n, i - 1, n);
      assert i * (2 * n - i - 1) == (i - 1) * (2 * n - i) + 2 * (n - i);
    }
  }

  /** n entities give n (n - 1) / 2 pair tests. */
  lemma {:induction false} PairsLength(n: nat)
    ensures |Pairs(n)| == n * (n - 1) / 2
  {
    VisitedLength(n, n, n + 1);
  }

  /** a is an initial segment of b. */
  predicate IsPrefix(a: seq<Pair>, b: seq<Pair>) {
    |a| <= |b| && b[..|a|] == a
  }

  lemma {:induction false} PrefixOfAppend(a: seq<Pair>, b: seq<Pair>)
    ensures IsPrefix(a, a + b)
  {
    assert (a + b)[..|a|] == a;
  }

  lemma {:induction false} PrefixTransitive(a: seq<Pair>, b: seq<Pair>, c: seq<Pair>)
    requires IsPrefix(a, b) && IsPrefix(b, c)
    ensures IsPrefix(a, c)
  {
    assert c[..|a|] == c[..|b|][..|a|];
  }

  /** What the loops have visited at (i, j) is a prefix of all they visit. */
  lemma {:induction false} VisitedPrefix(n: nat, i: nat, j: nat)
    requires i < n && i + 1 <= j <= n
    ensures IsPrefix(Visited(n, i, j), Pairs(n))
    decreases n - i, n - j
  {
    if j < n {
      VisitedPrefix(n, i, j + 1);
      PrefixOfAppend(Visited(n, i, j), [(i, j)]);
      PrefixTransitive(Visited(n, i, j), Visited(n, i, j + 1), Pairs(n));
    } else if i + 1 < n {
      VisitedPrefix(n, i + 1, i + 2);
    } else {
      assert Pairs(n)[..|Visited(n, i, j)|] == Pairs(n);
    }
  }

  // ---------------------------------------------------------------------
  // The sweep as a function of the visited pairs

  /** The pairs recorded, their collision records, and whether the sweep got through without a throw. */
  datatype SweepResult = SweepResult(hits: seq<Pair>, records: seq<Collision>, completed: bool)

  /**
   * Testing pair p reads the geometry of both entities without a throw: both
   * indices name entities (an index past the end reads `undefined`, whose
   * `geometry` throws) and both have a geometry.
   */
  predicate Visitable(es: seq<Entity>, p: Pair) {
    p.0 < |es| && p.1 < |es| && GeometryOf(es[p.0]).Some? && GeometryOf(es[p.1]).Some?
  }

  /**
   * The outcome of visiting ps in order with the pair test `contact`: a
   * visitable pair is recorded when the test holds; the first pair that is
   * not visitable stops the sweep, keeping what was recorded before it.
   */
  function Sweep(es: seq<Entity>, ps: seq<Pair>, contact: (Entity, Entity) -> bool): (r: SweepResult)
    ensures |r.hits| <= |ps|
  {
    if |ps| == 0 then SweepResult([], [], true)
    else
      var prev := Sweep(es, ps[..|ps| - 1], contact);
      var p := ps[|ps| - 1];
      if !prev.completed then prev
      else if !Visitable(es, p) then SweepResult(prev.hits, prev.records, false)
      else if contact(es[p.0], es[p.1]) then
        SweepResult(prev.hits + [p], prev.records + [Collision(es[p.0], es[p.1], None, None)], true)
      else prev
  }

  /** Record k is the contact between the two entities of hit k, with no normal and no penetration. */
  lemma {:induction false} SweepRecords(es: seq<Entity>, ps: seq<Pair>, contact: (Entity, Entity) -> bool)
    ensures var r := Sweep(es, ps, contact);
      && |r.records| == |r.hits|
      && forall k :: 0 <= k < |r.hits| ==>
           r.hits[k].0 < |es| && r.hits[k].1 < |es| &&
           r.records[k] == Collision(es[r.hits[k].0], es[r.hits[k].1], None, None)
  {
    if |ps| > 0 {
      SweepRecords(es, ps[..|ps| - 1], contact);
    }
  }

  /** A stopped sweep stays stopped: later pairs change nothing. */
  lemma {:induction false} SweepStaysStopped(es: seq<Entity>, a: seq<Pair>, b: seq<Pair>, contact: (Entity, Entity) -> bool)
    requires IsPrefix(a, b)
    requires !Sweep(es, a, contact).completed
    ensures Sweep(es, b, contact) == Sweep(es, a, contact)
    decreases |b|
  {
    if |a| < |b| {
      assert b[..|b| - 1][..|a|] == b[..|a|];
      SweepStaysStopped(es, a, b[..|b| - 1], contact);
    } else {
      assert a == b;
    }
  }

  /** The sweep completes exactly when every visited pair is visitable. */
  lemma {:induction false} SweepCompletes(es: seq<Entity>, ps: seq<Pair>, contact: (Entity, Entity) -> bool)
    ensures Sweep(es, ps, contact).completed <==> forall k :: 0 <= k < |ps| ==> Visitable(es, ps[k])
  {
    if |ps| > 0 {
      var front := ps[..|ps| - 1];
      SweepCompletes(es, front, contact);
      assert forall k :: 0 <= k < |front| ==> front[k] == ps[k];
    }
  }

  /** Every hit is a visited pair. */
  lemma {:induction false} SweepHitsVisited(es: seq<Entity>, ps: seq<Pair>, contact: (Entity, Entity) -> bool)
    ensures forall h: Pair :: h in Sweep(es, ps, contact).hits ==> h in ps
  {
    if |ps| > 0 {
      SweepHitsVisited(es, ps[..|ps| - 1], contact);
      assert forall h: Pair :: h in ps[..|ps| - 1] ==> h in ps;
    }
  }

  /** A completed sweep records exactly the visited pairs for which the test holds. */
  lemma {:induction false} SweepRecordsContacts(es: seq<Entity>, ps: seq<Pair>, contact: (Entity, Entity) -> bool)
    requires Sweep(es, ps, contact).completed
    ensures forall p: Pair :: p in Sweep(es, ps, contact).hits <==>
      p in ps && Visitable(es, p) && contact(es[p.0], es[p.1])
  {
    if |ps| > 0 {
      var front := ps[..|ps| - 1];
      SweepRecordsContacts(es, front, contact);
      SweepHitsVisited(es, ps, contact);
      assert ps == front + [ps[|ps| - 1]];
      forall p: Pair | p in ps && Visitable(es, p) && contact(es[p.0], es[p.1])
        ensures p in Sweep(es, ps, contact).hits
      {
        if p != ps[|ps| - 1] {
          assert p in front;
        }
      }
    }
  }

  /** Hits come out in visiting order: on sorted pairs, the hits are sorted too. */
  lemma {:induction false} SweepHitsSorted(es: seq<Entity>, ps: seq<Pair>, contact: (Entity, Entity) -> bool)
    requires Sorted(ps)
    ensures Sorted(Sweep(es, ps, contact).hits)
  {
    if |ps| > 0 {
      var front := ps[..|ps| - 1];
      var last := ps[|ps| - 1];
      SweepHitsSorted(es, front, contact);
      var prev := Sweep(es, front, contact);
      SweepHitsVisited(es, front, contact);
      forall x: Pair, y: Pair | x in prev.hits && y in [last]
        ensures LexLess(x, y)
      {
        var u :| 0 <= u < |front| && front[u] == x;
        assert ps[u] == x;
      }
      SortedAppend(prev.hits, [last]);
    }
  }

  /**
   * The sweep over all pairs of n entities completes exactly when fewer than
   * two entities are given or every entity has geometry.
   */
  lemma {:induction false} PairsSweepCompletes(es: seq<Entity>, contact: (Entity, Entity) -> bool)
    ensures Sweep(es, Pairs(|es|), contact).completed <==>
      |es| < 2 || forall k :: 0 <= k < |es| ==> GeometryOf(es[k]).Some?
  {
    var n := |es|;
    var ps := Pairs(n);
    PairsMembers(n);
    SweepCompletes(es, ps, contact);
    if n >= 2 && Sweep(es, ps, contact).completed {
      forall k | 0 <= k < n ensures GeometryOf(es[k]).Some? {
        var p: Pair := if k == 0 then (0, 1) else (0, k);
        assert p in ps;
        var u :| 0 <= u < |ps| && ps[u] == p;
        assert Visitable(es, ps[u]);
      }
    }
    if (forall k :: 0 <= k < n ==> GeometryOf(es[k]).Some?) {
      forall k | 0 <= k < |ps| ensures Visitable(es, ps[k]) {
        assert ps[k] in ps;
      }
    }
  }

  /** The hits of a sweep over all pairs come in loop order. */
  lemma {:induction false} PairsHitsSorted(es: seq<Entity>, contact: (Entity, Entity) -> bool)
    ensures Sorted(Sweep(es, Pairs(|es|), contact).hits)
  {
    PairsSorted(|es|);
    SweepHitsSorted(es, Pairs(|es|), contact);
  }

  /** One record per hit, so at most n (n - 1) / 2 records. */
  lemma {:induction false} PairsRecordCount(es: seq<Entity>, contact: (Entity, Entity) -> bool)
    ensures var r := Sweep(es, Pairs(|es|), contact);
      |r.records| == |r.hits| <= |es| * (|es| - 1) / 2
  {
    PairsLength(|es|);
    SweepRecords(es, Pairs(|es|), contact);
  }

  /** hits holds exactly the pairs i < j < |es| for which the test holds. */
  ghost predicate HitsExactly(es: seq<Entity>, hits: seq<Pair>, contact: (Entity, Entity) -> bool) {
    forall p: Pair :: p in hits <==> p.0 < p.1 < |es| && contact(es[p.0], es[p.1])
  }

  /** A completed sweep over pairs i < j < |es| records those for which the test holds, and no other. */
  lemma {:induction false} CompletedHits(es: seq<Entity>, ps: seq<Pair>, contact: (Entity, Entity) -> bool)
    requires Sweep(es, ps, contact).completed
    requires PairsBelow(ps, |es|)
    ensures HitsExactly(es, Sweep(es, ps, contact).hits, contact)
  {
    SweepRecordsContacts(es, ps, contact);
    SweepCompletes(es, ps, contact);
    forall p: Pair | p in ps ensures Visitable(es, p) {
      var u :| 0 <= u < |ps| && ps[u] == p;
    }
  }

  /** A completed sweep over all pairs records each pair i < j for which the test holds, and no other. */
  lemma {:induction false} PairsSweepHits(es: seq<Entity>, contact: (Entity, Entity) -> bool)
    requires Sweep(es, Pairs(|es|), contact).completed
    ensures HitsExactly(es, Sweep(es, Pairs(|es|), contact).hits, contact)
  {
    var ps := Pairs(|es|);
    PairsMembers(|es|);
    CompletedHits(es, ps, contact);
  }

  /** Visiting one more pair p after ps. */
  lemma {:induction false} SweepSnoc(es: seq<Entity>, ps: seq<Pair>, p: Pair, contact: (Entity, Entity) -> bool)
    ensures var prev := Sweep(es, ps, contact);
      Sweep(es, ps + [p], contact) ==
        if !prev.completed then prev
        else if !Visitable(es, p) then SweepResult(prev.hits, prev.records, false)
        else if contact(es[p.0], es[p.1]) then
          SweepResult(prev.hits + [p], prev.records + [Collision(es[p.0], es[p.1], None, None)], true)
        else prev
  {
    var next := ps + [p];
    assert next[..|next| - 1] == ps;
    assert next[|next| - 1] == p;
  }

  /** update tests pair (i, j) and both geometries are present: the pair is recorded exactly when the test holds. */
  lemma {:induction false} RowAdvance(es: seq<Entity>, i: nat, j: nat, hits: seq<Pair>, records: seq<Collision>, contact: (Entity, Entity) -> bool, verdict: bool)
    requires i + 1 <= j
    requires Sweep(es, Visited(|es|, i, j), contact) == SweepResult(hits, records, true)
    requires Visitable(es, (i, j)) && verdict == contact(es[i], es[j])
    ensures Sweep(es, Visited(|es|, i, j + 1), contact) ==
      if verdict then SweepResult(hits + [(i, j)], records + [Collision(es[i], es[j], None, None)], true)
      else SweepResult(hits, records, true)
  {
    SweepSnoc(es, Visited(|es|, i, j), (i, j), contact);
  }

  /** update tests pair (i, j) and a geometry is missing: the whole sweep ends with what was recorded so far. */
  lemma {:induction false} RowHalts(es: seq<Entity>, i: nat, j: nat, hits: seq<Pair>, records: seq<Collision>, contact: (Entity, Entity) -> bool)
    requires i < |es| && i + 1 <= j < |es|
    requires Sweep(es, Visited(|es|, i, j), contact) == SweepResult(hits, records, true)
    requires !Visitable(es, (i, j))
    ensures Sweep(es, Pairs(|es|), contact) == SweepResult(hits, records, false)
  {
    var n := |es|;
    var before, after := Visited(n, i, j), Visited(n, i, j + 1);
    assert after == before + [(i, j)];
    SweepSnoc(es, before, (i, j), contact);
    assert Sweep(es, after, contact) == SweepResult(hits, records, false);
    VisitedPrefix(n, i, j + 1);
    SweepStaysStopped(es, after, Pairs(n), contact);
  }

  /** The world-space vertex lists update hands to GJK give the Contact verdict. */
  lemma {:induction false} ContactOfWorldShapes(e1: Entity, e2: Entity, a: seq<real>, b: seq<real>)
    requires ShapeReady(e1) && ShapeReady(e2)
    requires GeometryOf(e1).Some? && GeometryOf(e2).Some?
    requires a == Transformed(GeometryOf(e1).value.positions, e1.model)
    requires b == Transformed(GeometryOf(e2).value.positions, e2.model)
    ensures |a| % 3 == 0 && |b| % 3 == 0
    ensures Contact(e1, e2) == GjkOutcome(a, b, 1.0)
  {
  }

  /**
   * `c` gives the Contact verdict on every pair of entities. Stated with
   * Contact as its only trigger, so that a test passed around as `c` is not
   * unfolded into GJK wherever it is applied.
   */
  ghost predicate DecidesContact(c: (Entity, Entity) -> bool) {
    forall e1, e2 {:trigger Contact(e1, e2)} :: c(e1, e2) == Contact(e1, e2)
  }

  /**
   * The body of update's inner loop for one pair: read both geometries
   * (`thrown` when the getter throws), move both vertex lists to world space
   * and run GJK on them.
   */
  method TestPair(e1: Entity, e2: Entity, ghost c: (Entity, Entity) -> bool) returns (thrown: bool, contact: bool)
    requires ShapeReady(e1) && ShapeReady(e2) && DecidesContact(c)
    ensures thrown <==> GeometryOf(e1).None? || GeometryOf(e2).None?
    ensures !thrown ==> contact == c(e1, e2)
  {
    var g1 := GeometryOf(e1);
    if g1.None? {
      return true, false;
    }
    var g2 := GeometryOf(e2);
    if g2.None? {
      return true, false;
    }
    var a := TransformVertices(g1.value.positions, e1.model);
    var b := TransformVertices(g2.value.positions, e2.model);
    ContactOfWorldShapes(e1, e2, a, b);
    ghost var simplex;
    contact, simplex := Gjk3d(a, b, 1.0);
    thrown := false;
    assert contact == Contact(e1, e2);
  }

  // ---------------------------------------------------------------------
  // Scene and CollisionSystem

  class Scene {
    var entities: seq<Entity>

    constructor ()
      ensures entities == []
    {
      entities := [];
    }

    /** `add`: appends the entity. */
    method Add(entity: Entity)
      modifies this
      ensures entities == old(entities) + [entity]
    {
      entities := entities + [entity];
    }
  }

  class CollisionSystem {
    var collisions: seq<Collision>

    constructor ()
      ensures collisions == []
    {
      collisions := [];
    }

    /**
     * `update`: clears the collision list and tests every pair i < j with GJK
     * on the world-space vertices. `completed` is false when the geometry
     * getter threw; the list then holds what was recorded before the throw.
     */
    method Update(entities: seq<Entity>) returns (completed: bool)
      requires AllReady(entities)
      modifies this
      ensures completed == Sweep(entities, Pairs(|entities|), Contact).completed
      ensures collisions == Sweep(entities, Pairs(|entities|), Contact).records
    {
      var n := |entities|;
      collisions := [];
      ghost var hits: seq<Pair> := [];
      assert DecidesContact(Contact);
      for i := 0 to n
        invariant Sweep(entities, Visited(n, i, i + 1), Contact) == SweepResult(hits, collisions, true)
      {
        var rowDone;
        rowDone, hits := CheckRow(entities, i, hits, Contact);
        if !rowDone {
          return false;
        }
        assert Visited(n, i + 1, i + 2) == Visited(n, i, n);
      }
      return true;
    }

    /** The inner loop of `update`: the pairs (i, j) for j from i + 1 up, tested with `c`. */
    method CheckRow(entities: seq<Entity>, i: nat, ghost hits: seq<Pair>, ghost c: (Entity, Entity) -> bool)
      returns (completed: bool, ghost hits': seq<Pair>)
      requires AllReady(entities) && i < |entities| && DecidesContact(c)
      requires Sweep(entities, Visited(|entities|, i, i + 1), c) == SweepResult(hits, collisions, true)
      modifies this
      ensures completed ==> Sweep(entities, Visited(|entities|, i, |entities|), c) == SweepResult(hits', collisions, true)
      ensures !completed ==> Sweep(entities, Pairs(|entities|), c) == SweepResult(hits', collisions, false)
    {
      hits' := hits;
      var j := i + 1;
      while j < |entities|
        invariant i + 1 <= j <= |entities|
        invariant Sweep(entities, Visited(|entities|, i, j), c) == SweepResult(hits', collisions, true)
      {
        var thrown;
        thrown, hits' := VisitPair(entities, i, j, hits', c);
        if thrown {
          return false, hits';
        }
        j := j + 1;
      }
      return true, hits';
    }

    /** One pass of the inner loop: test (i, j) and record the collision when GJK reports one. */
    method VisitPair(entities: seq<Entity>, i: nat, j: nat, ghost hits: seq<Pair>, ghost c: (Entity, Entity) -> bool)
      returns (thrown: bool, ghost hits': seq<Pair>)
      requires AllReady(entities) && i < j < |entities| && DecidesContact(c)
      requires Sweep(entities, Visited(|entities|, i, j), c) == SweepResult(hits, collisions, true)
      modifies this
      ensures !thrown ==> Sweep(entities, Visited(|entities|, i, j + 1), c) == SweepResult(hits', collisions, true)
      ensures thrown ==> Sweep(entities, Pairs(|entities|), c) == SweepResult(hits', collisions, false)
    {
      var contact;
      thrown, contact := TestPair(entities[i], entities[j], c);
      hits' := hits;
      if thrown {
        RowHalts(entities, i, j, hits, collisions, c);
        return;
      }
      RowAdvance(entities, i, j, hits, collisions, c, contact);
      if contact {
        collisions := collisions + [Collision(entities[i], entities[j], None, None)];
        hits' := hits + [(i, j)];
      }
    }
  }
}
