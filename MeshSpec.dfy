/** The mesh builder's buffers as values: the vertices and indices written so
    far, the overflow flag and the local bounding box, and what one face or
    one custom model does to them. Geometry is kept opaque: a face arrives
    as its four finished vertices, a custom mesh as its finished vertices and
    the triangles the builder skips. */
module MeshSpec {
  import opened Blocks

  /** ChunkVertex: a position and the packed uv, normal and colour bytes,
      which this model does not interpret. */
  datatype ChunkVertex = ChunkVertex(position: Vec3, attributes: nat)

  // ---------------------------------------------------------------------
  // Bounding boxes

  /** An AABB with its "initialised" flag (localAabb / localAabbInit). */
  datatype Box = Box(init: bool, lo: Vec3, hi: Vec3)

  /** The box after a reset: not initialised, both corners at the origin. */
  const EMPTY_BOX: Box := Box(false, Vec3(0.0, 0.0, 0.0), Vec3(0.0, 0.0, 0.0))

  function Min(a: real, b: real): real { if a <= b then a else b }

  function Max(a: real, b: real): real { if a >= b then a else b }

  predicate Contains(b: Box, p: Vec3)
  {
    && b.lo.x <= p.x <= b.hi.x
    && b.lo.y <= p.y <= b.hi.y
    && b.lo.z <= p.z <= b.hi.z
  }

  /** expand_aabb_point: the first point initialises the box, later ones
      widen it. */
  function Expand(b: Box, p: Vec3): (r: Box)
    ensures r.init && Contains(r, p)
    ensures b.init ==> forall q :: Contains(b, q) ==> Contains(r, q)
  {
    if !b.init then Box(true, p, p)
    else Box(true, Vec3(Min(b.lo.x, p.x), Min(b.lo.y, p.y), Min(b.lo.z, p.z)),
                   Vec3(Max(b.hi.x, p.x), Max(b.hi.y, p.y), Max(b.hi.z, p.z)))
  }

  /** The box widened by each point in turn. */
  function ExpandAll(b: Box, ps: seq<Vec3>): Box
    decreases |ps|
  {
    if ps == [] then b else ExpandAll(Expand(b, ps[0]), ps[1..])
  }

  /** The widened box holds every point and everything the old box held. */
  lemma {:induction false} ExpandAllContains(b: Box, ps: seq<Vec3>)
    ensures ps != [] ==> ExpandAll(b, ps).init
    ensures forall k :: 0 <= k < |ps| ==> Contains(ExpandAll(b, ps), ps[k])
    ensures b.init ==> forall q :: Contains(b, q) ==> Contains(ExpandAll(b, ps), q)
    decreases |ps|
  {
    if ps != [] {
      ExpandAllContains(Expand(b, ps[0]), ps[1..]);
      forall k | 0 <= k < |ps|
        ensures Contains(ExpandAll(b, ps), ps[k])
      {
        if k > 0 {
          assert ps[k] == ps[1..][k - 1];
        }
      }
    }
  }

  function Positions(vs: seq<ChunkVertex>): (ps: seq<Vec3>)
    ensures |ps| == |vs| && forall k :: 0 <= k < |vs| ==> ps[k] == vs[k].position
  {
    seq(|vs|, k requires 0 <= k < |vs| => vs[k].position)
  }

  // ---------------------------------------------------------------------
  // Faces and custom meshes

  /** The two index orders: index(0, 1, 3, 1, 2, 3) for faces with
      precalculated lights, index(0, 1, 2, 0, 2, 3) for the others. */
  datatype Winding = Split013 | Split023

  function Pattern(w: Winding): (p: seq<nat>)
    ensures |p| == 6 && forall k :: 0 <= k < 6 ==> p[k] < 4
  {
    match w
    case Split013 => [0, 1, 3, 1, 2, 3]
    case Split023 => [0, 1, 2, 0, 2, 3]
  }

  /** A face: its four corner vertices, in emission order. */
  datatype Quad = Quad(v0: ChunkVertex, v1: ChunkVertex, v2: ChunkVertex, v3: ChunkVertex, winding: Winding)

  function Corners(q: Quad): seq<ChunkVertex>
  {
    [q.v0, q.v1, q.v2, q.v3]
  }

  /** One mesh of a custom model: a vertex per mesh vertex, and for each
      whole triangle whether the builder skips it (a hidden axis-aligned
      triangle). */
  datatype MeshPiece = MeshPiece(vertices: seq<ChunkVertex>, skipped: seq<bool>)

  function Triangles(m: MeshPiece): nat { |m.vertices| / 3 }

  predicate Skipped(m: MeshPiece, t: nat)
  {
    t < |m.skipped| && m.skipped[t]
  }

  /** The vertices of the kept triangles from triangle `t` on, in order. */
  function KeptFrom(m: MeshPiece, t: nat): (vs: seq<ChunkVertex>)
    requires t <= Triangles(m)
    ensures |vs| <= 3 * (Triangles(m) - t) && |vs| % 3 == 0
    decreases Triangles(m) - t
  {
    if t == Triangles(m) then []
    else (if Skipped(m, t) then [] else m.vertices[3 * t .. 3 * t + 3]) + KeptFrom(m, t + 1)
  }

  function Kept(m: MeshPiece): (vs: seq<ChunkVertex>)
    ensures |vs| <= |m.vertices|
  {
    KeptFrom(m, 0)
  }

  /** Kept triangles come whole and in order: with nothing skipped, every
      complete triangle is emitted. */
  lemma {:induction false} NothingSkippedKeepsAll(m: MeshPiece, t: nat)
    requires t <= Triangles(m) && forall k :: 0 <= k < |m.skipped| ==> !m.skipped[k]
    ensures KeptFrom(m, t) == m.vertices[3 * t .. 3 * Triangles(m)]
    decreases Triangles(m) - t
  {
    if t < Triangles(m) {
      NothingSkippedKeepsAll(m, t + 1);
      assert m.vertices[3 * t .. 3 * Triangles(m)]
          == m.vertices[3 * t .. 3 * t + 3] + m.vertices[3 * (t + 1) .. 3 * Triangles(m)];
    }
  }

  /** What one shape hands the builder: a face, or a custom model's meshes. */
  datatype Emission = QuadFace(quad: Quad) | CustomModel(meshes: seq<MeshPiece>)

  // ---------------------------------------------------------------------
  // Buffer state

  datatype MeshState = MeshState(vertices: seq<ChunkVertex>, indices: seq<nat>, overflow: bool, box: Box)

  /** Every index names a vertex written before it. */
  predicate IndicesValid(st: MeshState)
  {
    forall j :: 0 <= j < |st.indices| ==> st.indices[j] < |st.vertices|
  }

  /** An index needs a vertex to name. */
  lemma NoVerticesNoIndices(st: MeshState)
    requires IndicesValid(st)
    ensures |st.indices| > 0 ==> |st.vertices| > 0
  {
    if |st.indices| > 0 {
      assert st.indices[0] < |st.vertices|;
    }
  }

  /** Both counts fit the preallocated arrays. */
  predicate WithinCapacity(st: MeshState, capacity: nat)
  {
    |st.vertices| <= capacity && |st.indices| <= capacity
  }

  /** `later` only appended to `st` and never cleared the overflow flag. */
  predicate Extends(st: MeshState, later: MeshState)
  {
    && st.vertices <= later.vertices
    && st.indices <= later.indices
    && (st.overflow ==> later.overflow)
  }

  function Offsets(pattern: seq<nat>, base: nat): (r: seq<nat>)
    ensures |r| == |pattern| && forall k :: 0 <= k < |r| ==> r[k] == base + pattern[k]
  {
    seq(|pattern|, k requires 0 <= k < |pattern| => base + pattern[k])
  }

  /** The indices base, base + 1, ... of n vertices appended one by one. */
  function Consecutive(base: nat, n: nat): (r: seq<nat>)
    ensures |r| == n && forall k :: 0 <= k < n ==> r[k] == base + k
  {
    seq(n, k requires 0 <= k < n => base + k)
  }

  /** The guard the face functions write: room for four more vertices. The
      six indices of the face are not checked. */
  predicate FaceFitsAsWritten(st: MeshState, capacity: nat)
  {
    |st.vertices| + 4 < capacity
  }

  /** The guard the index arrays need as well: room for six more indices. */
  predicate FaceFits(st: MeshState, capacity: nat)
  {
    FaceFitsAsWritten(st, capacity) && |st.indices| + 6 <= capacity
  }

  /** Four vertex() calls, index() and, outside the dense pass, the box
      widened by the four corners. */
  function AppendQuad(st: MeshState, q: Quad, densePass: bool): MeshState
  {
    MeshState(
      st.vertices + Corners(q),
      st.indices + Offsets(Pattern(q.winding), |st.vertices|),
      st.overflow,
      if densePass then st.box
      else Expand(Expand(Expand(Expand(st.box, q.v0.position), q.v1.position), q.v2.position), q.v3.position))
  }

  /** A face with the guard as written. */
  function FaceStepAsWritten(st: MeshState, q: Quad, capacity: nat, densePass: bool): (r: MeshState)
    ensures r.overflow <==> st.overflow || !FaceFitsAsWritten(st, capacity)
    ensures FaceFitsAsWritten(st, capacity) ==>
              r.vertices == st.vertices + Corners(q) && |r.indices| == |st.indices| + 6 && |r.vertices| < capacity
  {
    if !FaceFitsAsWritten(st, capacity) then st.(overflow := true) else AppendQuad(st, q, densePass)
  }

  /** A face with both guards: a face that does not fit sets the overflow
      flag and writes nothing; one that fits adds four vertices and six
      indices naming them. */
  function FaceStep(st: MeshState, q: Quad, capacity: nat, densePass: bool): (r: MeshState)
    ensures r.overflow <==> st.overflow || !FaceFits(st, capacity)
    ensures !FaceFits(st, capacity) ==> r == st.(overflow := true)
    ensures FaceFits(st, capacity) ==>
              && r.vertices == st.vertices + Corners(q)
              && |r.vertices| < capacity && |r.indices| == |st.indices| + 6 <= capacity
              && forall j :: |st.indices| <= j < |r.indices| ==> |st.vertices| <= r.indices[j] < |r.vertices|
    ensures Extends(st, r) && (WithinCapacity(st, capacity) ==> WithinCapacity(r, capacity))
    ensures IndicesValid(st) ==> IndicesValid(r)
    ensures densePass ==> r.box == st.box
  {
    if !FaceFits(st, capacity) then st.(overflow := true) else AppendQuad(st, q, densePass)
  }

  /** The as-written guard lets three faces into arrays of capacity 13: the
      vertex array holds their 12 vertices, but index() writes 18 indices. */
  lemma FaceGuardAsWrittenOverrunsIndices()
    ensures var v := ChunkVertex(Vec3(0.0, 0.0, 0.0), 0);
            var q := Quad(v, v, v, v, Split023);
            var s0 := MeshState([], [], false, EMPTY_BOX);
            var s3 := FaceStepAsWritten(FaceStepAsWritten(FaceStepAsWritten(s0, q, 13, false), q, 13, false), q, 13, false);
            !s3.overflow && |s3.vertices| == 12 < 13 && |s3.indices| == 18 > 13
  {
  }

  predicate MeshFitsAsWritten(st: MeshState, m: MeshPiece, capacity: nat)
  {
    |st.vertices| + |m.vertices| < capacity
  }

  /** The custom-mesh guard with the index check added. */
  predicate MeshFits(st: MeshState, m: MeshPiece, capacity: nat)
  {
    MeshFitsAsWritten(st, m, capacity) && |st.indices| + |m.vertices| <= capacity
  }

  /** Vertices appended one by one as blockCustomModel does: each with the
      index of its own vertex, and outside the dense pass the box widened by
      its position. */
  function AppendVertices(st: MeshState, vs: seq<ChunkVertex>, densePass: bool): MeshState
  {
    MeshState(
      st.vertices + vs,
      st.indices + Consecutive(|st.vertices|, |vs|),
      st.overflow,
      if densePass then st.box else ExpandAll(st.box, Positions(vs)))
  }

  /** Appending nothing changes nothing. */
  lemma AppendNothing(st: MeshState, densePass: bool)
    ensures AppendVertices(st, [], densePass) == st
  {
    assert Positions([]) == [];
    assert st.vertices + [] == st.vertices;
    assert st.indices + Consecutive(|st.vertices|, 0) == st.indices;
  }

  /** Appending v and then the rest is appending both at once. */
  lemma AppendVerticesCons(st: MeshState, v: ChunkVertex, rest: seq<ChunkVertex>, densePass: bool)
    ensures AppendVertices(st, [v] + rest, densePass)
         == AppendVertices(AppendVertices(st, [v], densePass), rest, densePass)
  {
    var n := |st.vertices|;
    assert st.vertices + ([v] + rest) == (st.vertices + [v]) + rest;
    assert Consecutive(n, 1 + |rest|) == Consecutive(n, 1) + Consecutive(n + 1, |rest|);
    assert st.indices + Consecutive(n, 1 + |rest|) == (st.indices + Consecutive(n, 1)) + Consecutive(n + 1, |rest|);
    var ps := Positions([v] + rest);
    assert ps[0] == v.position && ps[1..] == Positions(rest);
    assert Positions([v]) == [v.position];
    assert ExpandAll(st.box, [v.position]) == Expand(st.box, v.position);
  }

  /** Appending two runs is appending one after the other. */
  lemma {:induction false} AppendVerticesConcat(st: MeshState, a: seq<ChunkVertex>, b: seq<ChunkVertex>, densePass: bool)
    ensures AppendVertices(st, a + b, densePass)
         == AppendVertices(AppendVertices(st, a, densePass), b, densePass)
    decreases |a|
  {
    if a == [] {
      assert [] + b == b;
      AppendNothing(st, densePass);
    } else {
      assert a + b == [a[0]] + (a[1..] + b);
      assert a == [a[0]] + a[1..];
      AppendVerticesCons(st, a[0], a[1..] + b, densePass);
      AppendVerticesConcat(AppendVertices(st, [a[0]], densePass), a[1..], b, densePass);
      AppendVerticesCons(st, a[0], a[1..], densePass);
    }
  }

  /** The kept vertices of a mesh, appended. */
  function AppendMesh(st: MeshState, m: MeshPiece, densePass: bool): MeshState
  {
    AppendVertices(st, Kept(m), densePass)
  }

  /** blockCustomModel over its meshes: the first mesh that does not fit
      sets the overflow flag and ends the model. */
  function MeshesStep(st: MeshState, ms: seq<MeshPiece>, capacity: nat, densePass: bool): (r: MeshState)
    ensures Extends(st, r) && (WithinCapacity(st, capacity) ==> WithinCapacity(r, capacity))
    ensures IndicesValid(st) ==> IndicesValid(r)
    ensures densePass ==> r.box == st.box
    ensures ms == [] ==> r == st
    // a mesh that does not fit writes nothing and only sets the flag
    ensures ms != [] && !MeshFits(st, ms[0], capacity) ==> r == st.(overflow := true)
    // any vertex written leaves the vertex count strictly below capacity
    ensures |r.vertices| > |st.vertices| ==> |r.vertices| < capacity
    decreases |ms|
  {
    if ms == [] then st
    else if !MeshFits(st, ms[0], capacity) then st.(overflow := true)
    else MeshesStep(AppendMesh(st, ms[0], densePass), ms[1..], capacity, densePass)
  }

  function EmitStep(st: MeshState, e: Emission, capacity: nat, densePass: bool): MeshState
  {
    match e
    case QuadFace(q) => FaceStep(st, q, capacity, densePass)
    case CustomModel(ms) => MeshesStep(st, ms, capacity, densePass)
  }

  /** A voxel's shape: its emissions in order. A face that overflows does
      not stop the faces after it. */
  function EmitAll(st: MeshState, es: seq<Emission>, capacity: nat, densePass: bool): MeshState
    decreases |es|
  {
    if es == [] then st else EmitAll(EmitStep(st, es[0], capacity, densePass), es[1..], capacity, densePass)
  }

  /** Emitting only appends, keeps every index naming an earlier vertex and
      keeps both counts within the arrays; the dense pass leaves the box
      alone. */
  lemma {:induction false} EmitAllKeeps(st: MeshState, es: seq<Emission>, capacity: nat, densePass: bool)
    ensures var r := EmitAll(st, es, capacity, densePass);
            && Extends(st, r)
            && (IndicesValid(st) ==> IndicesValid(r))
            && (WithinCapacity(st, capacity) ==> WithinCapacity(r, capacity))
            && (densePass ==> r.box == st.box)
    decreases |es|
  {
    if es != [] {
      var s1 := EmitStep(st, es[0], capacity, densePass);
      EmitAllKeeps(s1, es[1..], capacity, densePass);
    }
  }

  /** Nothing is written once no vertex fits: an emission from a state
      whose vertex count is at capacity only sets the flag. */
  lemma {:induction false} EmitAllAtCapacityWritesNothing(st: MeshState, es: seq<Emission>, capacity: nat, densePass: bool)
    requires |st.vertices| >= capacity
    ensures var r := EmitAll(st, es, capacity, densePass);
            r.vertices == st.vertices && r.indices == st.indices && r.box == st.box
    decreases |es|
  {
    if es != [] {
      var s1 := EmitStep(st, es[0], capacity, densePass);
      assert s1.vertices == st.vertices && s1.indices == st.indices && s1.box == st.box;
      EmitAllAtCapacityWritesNothing(s1, es[1..], capacity, densePass);
    }
  }
}
