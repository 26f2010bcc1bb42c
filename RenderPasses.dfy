/** The mesh builder's passes as values: which voxels each pass draws, in
    what order, what it does to the buffers, how translucent voxels become
    fragments, and the draw-group buckets the passes scan. */
module RenderPasses {
  import opened Wrappers
  import opened Blocks
  import opened MeshSpec

  /** Chunk dimensions; constants.hpp is not part of this model. */
  const CHUNK_W: nat := 16
  const CHUNK_D: nat := 16
  const CHUNK_H: nat := 256

  /** beginEnds has one row per possible draw group. */
  const DRAW_GROUPS: nat := 256

  /** What a pass reads of one chunk. `geometry(i, shape, densePass)` stands
      for the shape functions (blockCube, blockXSprite, blockAABB,
      blockCustomModel): the faces or meshes voxel i hands the builder when
      drawn as `shape`, with the textures of that pass. */
  datatype Scene = Scene(
    voxels: seq<Voxel>,
    defs: seq<Block>,
    drawGroups: seq<uint8>,
    chunkX: int,
    chunkZ: int,
    geometry: (nat, ModelType, bool) -> seq<Emission>)

  /** A std::set<ubyte> in iteration order: ascending, without repeats. */
  predicate StrictlyAscending(groups: seq<uint8>)
  {
    forall i, j :: 0 <= i < j < |groups| ==> groups[i] < groups[j]
  }

  /** blockDefsCache has a definition for every voxel's id, and the draw
      groups are a set. */
  predicate SceneValid(sc: Scene)
  {
    && (forall i :: 0 <= i < |sc.voxels| ==> sc.voxels[i].id < |sc.defs|)
    && StrictlyAscending(sc.drawGroups)
  }

  function DefAt(sc: Scene, i: nat): Block
    requires SceneValid(sc) && i < |sc.voxels|
  {
    sc.defs[sc.voxels[i].id]
  }

  /** def.getVariant(def.getVariantIndex(userbits)). */
  function VariantAt(sc: Scene, i: nat): Variant
    requires SceneValid(sc) && i < |sc.voxels|
  {
    DefAt(sc, i).VariantByBits(sc.voxels[i].state.userbits)
  }

  // ---------------------------------------------------------------------
  // Voxel coordinates

  function VoxelX(i: nat): nat { i % CHUNK_W }

  function VoxelY(i: nat): nat { i / (CHUNK_D * CHUNK_W) }

  function VoxelZ(i: nat): nat { (i / CHUNK_D) % CHUNK_W }

  /** The coordinates recover the voxel's index (y-major, then z, then x). */
  lemma VoxelCoordinates(i: nat)
    ensures VoxelX(i) < CHUNK_W && VoxelZ(i) < CHUNK_D
    ensures i == (VoxelY(i) * CHUNK_D + VoxelZ(i)) * CHUNK_W + VoxelX(i)
  {
    var q := i / 16;
    assert i == q * 16 + i % 16;
    assert q == (q / 16) * 16 + q % 16;
    assert q / 16 == i / 256;
  }

  // ---------------------------------------------------------------------
  // Pass settings and draw-group buckets

  datatype PassConfig = PassConfig(capacity: nat, denseRender: bool, densePass: bool)

  /** beginEnds[g]: first is one past the first voxel index of the group, or
      0 when the group has no voxel; last is the last voxel index. */
  datatype BeginEnd = BeginEnd(first: int, last: int)

  /** Every non-empty row names voxels of the chunk. */
  predicate BeginEndsFit(be: seq<BeginEnd>, n: nat)
  {
    |be| == DRAW_GROUPS &&
    forall g :: 0 <= g < DRAW_GROUPS ==> be[g].first == 0 || (1 <= be[g].first && be[g].last < n)
  }

  function GroupOf(sc: Scene, i: nat): uint8
    requires SceneValid(sc) && i < |sc.voxels|
  {
    VariantAt(sc, i).drawGroup
  }

  /** The row of group g after the bucketing scan over [lo, hi). */
  predicate BucketCorrect(b: BeginEnd, sc: Scene, g: nat, lo: nat, hi: nat)
    requires SceneValid(sc) && hi <= |sc.voxels|
  {
    && (b.first == 0 <==> forall j :: lo <= j < hi ==> GroupOf(sc, j) != g)
    && (b.first == 0 ==> b.last == 0)
    && (b.first != 0 ==>
          && lo <= b.first - 1 <= b.last < hi
          && GroupOf(sc, b.first - 1) == g && GroupOf(sc, b.last) == g
          && (forall j :: lo <= j < b.first - 1 ==> GroupOf(sc, j) != g)
          && (forall j :: b.last < j < hi ==> GroupOf(sc, j) != g))
  }

  predicate BucketsCorrect(be: seq<BeginEnd>, sc: Scene, lo: nat, hi: nat)
    requires SceneValid(sc) && hi <= |sc.voxels|
  {
    |be| == DRAW_GROUPS && forall g :: 0 <= g < DRAW_GROUPS ==> BucketCorrect(be[g], sc, g, lo, hi)
  }

  /** Correct buckets are safe to scan. */
  lemma BucketsFit(be: seq<BeginEnd>, sc: Scene, lo: nat, hi: nat)
    requires SceneValid(sc) && hi <= |sc.voxels| && BucketsCorrect(be, sc, lo, hi)
    ensures BeginEndsFit(be, |sc.voxels|)
  {
    forall g | 0 <= g < DRAW_GROUPS
      ensures be[g].first == 0 || (1 <= be[g].first && be[g].last < |sc.voxels|)
    {
      assert BucketCorrect(be[g], sc, g, lo, hi);
    }
  }

  // ---------------------------------------------------------------------
  // The opaque pass: render()

  /** The filter both passes share: not air, in the group, not a segment. */
  predicate InGroup(sc: Scene, i: nat, g: nat)
    requires SceneValid(sc) && i < |sc.voxels|
  {
    sc.voxels[i].id != BLOCK_AIR && VariantAt(sc, i).drawGroup == g && !sc.voxels[i].state.segment
  }

  /** render() draws a voxel of its group only when its variant's OPTIONAL
      culling matches denseRender and the block is not translucent. */
  predicate DrawnOpaque(sc: Scene, i: nat, g: nat, denseRender: bool)
    requires SceneValid(sc) && i < |sc.voxels|
  {
    && InGroup(sc, i, g)
    && denseRender == (VariantAt(sc, i).culling == Optional)
    && !DefAt(sc, i).translucent
  }

  /** The shape render() draws: cubes always, sprites, AABBs and custom
      models only outside denseRender, anything else never. */
  function OpaqueShape(kind: ModelType, denseRender: bool): Option<ModelType>
  {
    match kind
    case Cube => Some(Cube)
    case XSprite => if denseRender then None else Some(XSprite)
    case AABB => if denseRender then None else Some(AABB)
    case Custom => if denseRender then None else Some(Custom)
    case NoModel => None
  }

  function OpaqueEmissions(sc: Scene, i: nat, cfg: PassConfig): seq<Emission>
    requires SceneValid(sc) && i < |sc.voxels|
  {
    match OpaqueShape(VariantAt(sc, i).model.kind, cfg.denseRender)
    case None => []
    case Some(shape) => sc.geometry(i, shape, cfg.densePass)
  }

  /** Voxels i .. end of group g; the flag says the pass returned because a
      drawn voxel left the overflow flag set. */
  function RenderRange(st: MeshState, sc: Scene, cfg: PassConfig, g: nat, i: int, end: int): (r: (MeshState, bool))
    requires SceneValid(sc) && 0 <= i && end < |sc.voxels|
    decreases end + 1 - i
  {
    if i > end then (st, false)
    else if !DrawnOpaque(sc, i, g, cfg.denseRender) then RenderRange(st, sc, cfg, g, i + 1, end)
    else
      var next := EmitAll(st, OpaqueEmissions(sc, i, cfg), cfg.capacity, cfg.densePass);
      if next.overflow then (next, true) else RenderRange(next, sc, cfg, g, i + 1, end)
  }

  /** render(): the groups in order, groups without voxels skipped. */
  function RenderGroups(st: MeshState, sc: Scene, be: seq<BeginEnd>, cfg: PassConfig, gs: seq<uint8>): MeshState
    requires SceneValid(sc) && BeginEndsFit(be, |sc.voxels|)
    decreases |gs|
  {
    if gs == [] then st
    else if be[gs[0]].first == 0 then RenderGroups(st, sc, be, cfg, gs[1..])
    else
      var r := RenderRange(st, sc, cfg, gs[0], be[gs[0]].first - 1, be[gs[0]].last);
      if r.1 then r.0 else RenderGroups(r.0, sc, be, cfg, gs[1..])
  }

  /** The rest of the pass once a group's range has run. */
  function AfterRange(r: (MeshState, bool), sc: Scene, be: seq<BeginEnd>, cfg: PassConfig, gs: seq<uint8>): MeshState
    requires SceneValid(sc) && BeginEndsFit(be, |sc.voxels|)
  {
    if r.1 then r.0 else RenderGroups(r.0, sc, be, cfg, gs)
  }

  /** What render() skips contributes nothing: air, other groups, segments,
      translucent blocks, a culling mode that does not match denseRender,
      and in denseRender every shape but the cube. */
  lemma OpaqueFilters(st: MeshState, sc: Scene, cfg: PassConfig, g: nat, i: nat, end: int)
    requires SceneValid(sc) && i <= end < |sc.voxels|
    ensures (|| sc.voxels[i].id == BLOCK_AIR || VariantAt(sc, i).drawGroup != g || sc.voxels[i].state.segment
             || DefAt(sc, i).translucent || cfg.denseRender != (VariantAt(sc, i).culling == Optional))
            ==> RenderRange(st, sc, cfg, g, i, end) == RenderRange(st, sc, cfg, g, i + 1, end)
    ensures cfg.denseRender && VariantAt(sc, i).model.kind != Cube ==> OpaqueEmissions(sc, i, cfg) == []
  {
  }

  /** The pass returns exactly when a drawn voxel overflows; otherwise the
      flag is as it was. */
  lemma {:induction false} RenderRangeStops(st: MeshState, sc: Scene, cfg: PassConfig, g: nat, i: int, end: int)
    requires SceneValid(sc) && 0 <= i && end < |sc.voxels|
    ensures var r := RenderRange(st, sc, cfg, g, i, end);
            (r.1 ==> r.0.overflow) && (!r.1 ==> r.0.overflow == st.overflow)
    decreases end + 1 - i
  {
    if i <= end {
      if !DrawnOpaque(sc, i, g, cfg.denseRender) {
        RenderRangeStops(st, sc, cfg, g, i + 1, end);
      } else {
        var next := EmitAll(st, OpaqueEmissions(sc, i, cfg), cfg.capacity, cfg.densePass);
        EmitAllKeeps(st, OpaqueEmissions(sc, i, cfg), cfg.capacity, cfg.densePass);
        if !next.overflow {
          RenderRangeStops(next, sc, cfg, g, i + 1, end);
        }
      }
    }
  }

  /** The pass only appends, keeps indices naming earlier vertices, stays
      within the arrays, and in the dense pass leaves the box alone. */
  predicate PassKeeps(st: MeshState, r: MeshState, cfg: PassConfig)
  {
    && Extends(st, r)
    && (IndicesValid(st) ==> IndicesValid(r))
    && (WithinCapacity(st, cfg.capacity) ==> WithinCapacity(r, cfg.capacity))
    && (cfg.densePass ==> r.box == st.box)
  }

  lemma {:induction false} RenderRangeKeeps(st: MeshState, sc: Scene, cfg: PassConfig, g: nat, i: int, end: int)
    requires SceneValid(sc) && 0 <= i && end < |sc.voxels|
    ensures PassKeeps(st, RenderRange(st, sc, cfg, g, i, end).0, cfg)
    decreases end + 1 - i
  {
    if i <= end {
      if !DrawnOpaque(sc, i, g, cfg.denseRender) {
        RenderRangeKeeps(st, sc, cfg, g, i + 1, end);
      } else {
        var next := EmitAll(st, OpaqueEmissions(sc, i, cfg), cfg.capacity, cfg.densePass);
        EmitAllKeeps(st, OpaqueEmissions(sc, i, cfg), cfg.capacity, cfg.densePass);
        if !next.overflow {
          RenderRangeKeeps(next, sc, cfg, g, i + 1, end);
        }
      }
    }
  }

  lemma {:induction false} RenderGroupsKeeps(st: MeshState, sc: Scene, be: seq<BeginEnd>, cfg: PassConfig, gs: seq<uint8>)
    requires SceneValid(sc) && BeginEndsFit(be, |sc.voxels|)
    ensures PassKeeps(st, RenderGroups(st, sc, be, cfg, gs), cfg)
    decreases |gs|
  {
    if gs != [] {
      if be[gs[0]].first == 0 {
        RenderGroupsKeeps(st, sc, be, cfg, gs[1..]);
      } else {
        var r := RenderRange(st, sc, cfg, gs[0], be[gs[0]].first - 1, be[gs[0]].last);
        RenderRangeKeeps(st, sc, cfg, gs[0], be[gs[0]].first - 1, be[gs[0]].last);
        if !r.1 {
          RenderGroupsKeeps(r.0, sc, be, cfg, gs[1..]);
        }
      }
    }
  }

  // ---------------------------------------------------------------------
  // The translucent pass: renderTranslucent()

  /** A sorting mesh entry: its anchor and its own copy of the vertices. */
  datatype Fragment = Fragment(anchor: Vec3, data: seq<ChunkVertex>)

  /** The buffers, the entries so far, the pass's own box of translucent
      geometry and the running total of entry sizes. */
  datatype TState = TState(mesh: MeshState, fragments: seq<Fragment>, aabb: Box, totalSize: nat)

  predicate DrawnTranslucent(sc: Scene, i: nat, g: nat)
    requires SceneValid(sc) && i < |sc.voxels|
  {
    InGroup(sc, i, g) && DefAt(sc, i).translucent
  }

  /** renderTranslucent() draws every shape kind, whatever denseRender. */
  function TranslucentEmissions(sc: Scene, i: nat, cfg: PassConfig): seq<Emission>
    requires SceneValid(sc) && i < |sc.voxels|
  {
    var kind := VariantAt(sc, i).model.kind;
    if kind == NoModel then [] else sc.geometry(i, kind, cfg.densePass)
  }

  /** The chunk offset plus half a block, added to every copied vertex. */
  function Shifted(v: ChunkVertex, sc: Scene): ChunkVertex
  {
    v.(position := Vec3(v.position.x + (sc.chunkX * CHUNK_W) as real + 0.5,
                        v.position.y + 0.5,
                        v.position.z + (sc.chunkZ * CHUNK_D) as real + 0.5))
  }

  /** The voxel's position in the world, at the block centre. */
  function Anchor(sc: Scene, i: nat): Vec3
  {
    Vec3((VoxelX(i) + sc.chunkX * CHUNK_W) as real + 0.5,
         VoxelY(i) as real + 0.5,
         (VoxelZ(i) + sc.chunkZ * CHUNK_D) as real + 0.5)
  }

  /** vertexBuffer[indexBuffer[j]] for every written index j. */
  function Gathered(m: MeshState): (vs: seq<ChunkVertex>)
    requires IndicesValid(m)
    ensures |vs| == |m.indices| && forall j :: 0 <= j < |vs| ==> vs[j] == m.vertices[m.indices[j]]
  {
    seq(|m.indices|, j requires 0 <= j < |m.indices| => m.vertices[m.indices[j]])
  }

  function FragmentOf(m: MeshState, sc: Scene, i: nat): (f: Fragment)
    requires IndicesValid(m)
    ensures f.anchor == Anchor(sc, i) && |f.data| == |m.indices|
    ensures forall j :: 0 <= j < |f.data| ==> f.data[j] == Shifted(m.vertices[m.indices[j]], sc)
  {
    var vs := Gathered(m);
    Fragment(Anchor(sc, i), seq(|vs|, j requires 0 <= j < |vs| => Shifted(vs[j], sc)))
  }

  /** One fragment out of the buffers: both boxes widened by the unshifted
      positions, the entry appended, the counters back to zero. */
  function ExtractStep(m: MeshState, ts: TState, sc: Scene, i: nat): TState
    requires IndicesValid(m)
  {
    var points := Positions(Gathered(m));
    TState(
      MeshState([], [], m.overflow, ExpandAll(m.box, points)),
      ts.fragments + [FragmentOf(m, sc, i)],
      ExpandAll(ts.aabb, points),
      ts.totalSize + |m.indices|)
  }

  /** One voxel of the translucent pass; a voxel that emits no vertex gives
      no fragment. */
  function TranslucentVoxel(ts: TState, sc: Scene, cfg: PassConfig, g: nat, i: nat): TState
    requires SceneValid(sc) && i < |sc.voxels| && IndicesValid(ts.mesh)
  {
    if !DrawnTranslucent(sc, i, g) then ts
    else
      var m := EmitAll(ts.mesh, TranslucentEmissions(sc, i, cfg), cfg.capacity, cfg.densePass);
      EmitAllKeeps(ts.mesh, TranslucentEmissions(sc, i, cfg), cfg.capacity, cfg.densePass);
      if |m.vertices| == 0 then ts.(mesh := m) else ExtractStep(m, ts, sc, i)
  }

  /** The invariant the translucent pass keeps between voxels. */
  predicate TranslucentInvariant(ts: TState)
  {
    && ts.mesh.vertices == [] && ts.mesh.indices == []
    && ts.totalSize == TotalSize(ts.fragments)
  }

  function TranslucentRange(ts: TState, sc: Scene, cfg: PassConfig, g: nat, i: int, end: int): TState
    requires SceneValid(sc) && 0 <= i && end < |sc.voxels| && TranslucentInvariant(ts)
    decreases end + 1 - i
  {
    if i > end then ts
    else
      var next := TranslucentVoxel(ts, sc, cfg, g, i);
      TranslucentVoxelKeeps(ts, sc, cfg, g, i);
      TranslucentRange(next, sc, cfg, g, i + 1, end)
  }

  function TranslucentGroups(ts: TState, sc: Scene, be: seq<BeginEnd>, cfg: PassConfig, gs: seq<uint8>): TState
    requires SceneValid(sc) && BeginEndsFit(be, |sc.voxels|) && TranslucentInvariant(ts)
    decreases |gs|
  {
    if gs == [] then ts
    else if be[gs[0]].first == 0 then TranslucentGroups(ts, sc, be, cfg, gs[1..])
    else
      var r := TranslucentRange(ts, sc, cfg, gs[0], be[gs[0]].first - 1, be[gs[0]].last);
      TranslucentRangeKeeps(ts, sc, cfg, gs[0], be[gs[0]].first - 1, be[gs[0]].last);
      TranslucentGroups(r, sc, be, cfg, gs[1..])
  }

  /** The rest of the translucent pass once a group's range has run. */
  function AfterTranslucentRange(ts: TState, sc: Scene, be: seq<BeginEnd>, cfg: PassConfig, g: nat, i: int, end: int, gs: seq<uint8>): TState
    requires SceneValid(sc) && BeginEndsFit(be, |sc.voxels|) && 0 <= i && end < |sc.voxels| && TranslucentInvariant(ts)
  {
    TranslucentRangeKeeps(ts, sc, cfg, g, i, end);
    TranslucentGroups(TranslucentRange(ts, sc, cfg, g, i, end), sc, be, cfg, gs)
  }

  /** Each translucent voxel starts and ends with empty buffers, and the
      running total is the sum of the entry sizes. */
  lemma TranslucentVoxelKeeps(ts: TState, sc: Scene, cfg: PassConfig, g: nat, i: nat)
    requires SceneValid(sc) && i < |sc.voxels| && TranslucentInvariant(ts)
    ensures TranslucentInvariant(TranslucentVoxel(ts, sc, cfg, g, i))
    ensures ts.fragments <= TranslucentVoxel(ts, sc, cfg, g, i).fragments
  {
    if DrawnTranslucent(sc, i, g) {
      var es := TranslucentEmissions(sc, i, cfg);
      var m := EmitAll(ts.mesh, es, cfg.capacity, cfg.densePass);
      EmitAllKeeps(ts.mesh, es, cfg.capacity, cfg.densePass);
      if |m.vertices| == 0 {
        NoVerticesNoIndices(m);
      } else {
        TotalSizeAppend(ts.fragments, FragmentOf(m, sc, i));
      }
    }
  }

  lemma {:induction false} TranslucentRangeKeeps(ts: TState, sc: Scene, cfg: PassConfig, g: nat, i: int, end: int)
    requires SceneValid(sc) && 0 <= i && end < |sc.voxels| && TranslucentInvariant(ts)
    ensures TranslucentInvariant(TranslucentRange(ts, sc, cfg, g, i, end))
    ensures ts.fragments <= TranslucentRange(ts, sc, cfg, g, i, end).fragments
    decreases end + 1 - i
  {
    if i <= end {
      TranslucentVoxelKeeps(ts, sc, cfg, g, i);
      TranslucentRangeKeeps(TranslucentVoxel(ts, sc, cfg, g, i), sc, cfg, g, i + 1, end);
    }
  }

  lemma {:induction false} TranslucentGroupsKeeps(ts: TState, sc: Scene, be: seq<BeginEnd>, cfg: PassConfig, gs: seq<uint8>)
    requires SceneValid(sc) && BeginEndsFit(be, |sc.voxels|) && TranslucentInvariant(ts)
    ensures TranslucentInvariant(TranslucentGroups(ts, sc, be, cfg, gs))
    ensures ts.fragments <= TranslucentGroups(ts, sc, be, cfg, gs).fragments
    decreases |gs|
  {
    if gs != [] {
      if be[gs[0]].first == 0 {
        TranslucentGroupsKeeps(ts, sc, be, cfg, gs[1..]);
      } else {
        var r := TranslucentRange(ts, sc, cfg, gs[0], be[gs[0]].first - 1, be[gs[0]].last);
        TranslucentRangeKeeps(ts, sc, cfg, gs[0], be[gs[0]].first - 1, be[gs[0]].last);
        TranslucentGroupsKeeps(r, sc, be, cfg, gs[1..]);
      }
    }
  }

  // ---------------------------------------------------------------------
  // Merging flat translucent geometry

  function TotalSize(fs: seq<Fragment>): nat
    decreases |fs|
  {
    if fs == [] then 0 else |fs[0].data| + TotalSize(fs[1..])
  }

  lemma {:induction false} TotalSizeAppend(fs: seq<Fragment>, f: Fragment)
    ensures TotalSize(fs + [f]) == TotalSize(fs) + |f.data|
    decreases |fs|
  {
    if fs != [] {
      assert (fs + [f])[1..] == fs[1..] + [f];
      TotalSizeAppend(fs[1..], f);
    }
  }

  /** The vertex data of all entries, in order. */
  function Concat(fs: seq<Fragment>): seq<ChunkVertex>
    decreases |fs|
  {
    if fs == [] then [] else fs[0].data + Concat(fs[1..])
  }

  lemma {:induction false} ConcatLength(fs: seq<Fragment>)
    ensures |Concat(fs)| == TotalSize(fs)
    decreases |fs|
  {
    if fs != [] {
      ConcatLength(fs[1..]);
    }
  }

  lemma {:induction false} ConcatAppend(fs: seq<Fragment>, f: Fragment)
    ensures Concat(fs + [f]) == Concat(fs) + f.data
    decreases |fs|
  {
    if fs == [] {
      assert [f][1..] == [];
    } else {
      assert (fs + [f])[1..] == fs[1..] + [f];
      ConcatAppend(fs[1..], f);
    }
  }

  lemma SliceOfAppend<T>(a: seq<T>, b: seq<T>, x: nat, y: nat)
    requires x <= y <= |b|
    ensures (a + b)[|a| + x .. |a| + y] == b[x..y]
  {
    forall i | 0 <= i < y - x
      ensures (a + b)[|a| + x .. |a| + y][i] == b[x..y][i]
    {
      assert (a + b)[|a| + x + i] == b[x + i];
    }
  }

  /** Each entry's data sits in the concatenation at the sum of the sizes
      before it. */
  lemma {:induction false} ConcatPlacesEntries(fs: seq<Fragment>, k: nat)
    requires k < |fs|
    ensures TotalSize(fs[..k]) + |fs[k].data| <= |Concat(fs)|
    ensures Concat(fs)[TotalSize(fs[..k]) .. TotalSize(fs[..k]) + |fs[k].data|] == fs[k].data
    decreases k
  {
    ConcatLength(fs);
    ConcatLength(fs[1..]);
    if k > 0 {
      ConcatPlacesEntries(fs[1..], k - 1);
      assert fs[1..][..k - 1] == fs[..k][1..];
      assert fs[..k][0] == fs[0];
      var before := TotalSize(fs[1..][..k - 1]);
      assert fs[1..][k - 1] == fs[k];
      assert Concat(fs) == fs[0].data + Concat(fs[1..]);
      SliceOfAppend(fs[0].data, Concat(fs[1..]), before, before + |fs[k].data|);
    } else {
      assert fs[..0] == [];
    }
  }

  /** The flat-box test: an extent below 0.01 along any axis. */
  predicate NearlyFlat(b: Box)
  {
    b.hi.y - b.lo.y < 0.01 || b.hi.x - b.lo.x < 0.01 || b.hi.z - b.lo.z < 0.01
  }

  /** Several entries in a flat box become one entry at the first entry's
      anchor holding all their data in order; otherwise the entries stay. */
  function Merged(fs: seq<Fragment>, aabb: Box): (r: seq<Fragment>)
    ensures NearlyFlat(aabb) && |fs| > 1 ==>
              |r| == 1 && r[0].anchor == fs[0].anchor && r[0].data == Concat(fs)
    ensures !(NearlyFlat(aabb) && |fs| > 1) ==> r == fs
  {
    if NearlyFlat(aabb) && |fs| > 1 then [Fragment(fs[0].anchor, Concat(fs))] else fs
  }

  // ---------------------------------------------------------------------
  // build(): the translucent pass, then the sparse, dense and final
  // opaque passes

  /** What the three opaque passes of build() leave in the buffers. */
  datatype OpaquePasses = OpaquePasses(sparse: MeshState, dense: MeshState, final: MeshState)

  /** The sparse pass starts from empty buffers and the given box; the dense
      pass continues it with dense textures; the final pass continues the
      dense vertices with the index list cut back to the sparse pass's. */
  function Opaque(sc: Scene, be: seq<BeginEnd>, capacity: nat, box: Box): OpaquePasses
    requires SceneValid(sc) && BeginEndsFit(be, |sc.voxels|)
  {
    var sparse := RenderGroups(MeshState([], [], false, box), sc, be, PassConfig(capacity, false, false), sc.drawGroups);
    var dense := RenderGroups(sparse, sc, be, PassConfig(capacity, true, true), sc.drawGroups);
    var final := RenderGroups(dense.(indices := sparse.indices), sc, be, PassConfig(capacity, true, false), sc.drawGroups);
    OpaquePasses(sparse, dense, final)
  }

  /** The dense index list starts with the sparse one and the final index
      list does too; the dense pass leaves the box alone; every index of the
      final and of the dense list names a vertex of the final vertex list,
      and all lists fit the arrays. */
  lemma OpaquePassesShape(sc: Scene, be: seq<BeginEnd>, capacity: nat, box: Box)
    requires SceneValid(sc) && BeginEndsFit(be, |sc.voxels|)
    ensures var o := Opaque(sc, be, capacity, box);
            && o.sparse.indices <= o.dense.indices && o.sparse.indices <= o.final.indices
            && o.sparse.vertices <= o.dense.vertices <= o.final.vertices
            && o.dense.box == o.sparse.box
            && IndicesValid(o.dense) && WithinCapacity(o.dense, capacity)
            && IndicesValid(o.final) && WithinCapacity(o.final, capacity)
            && (forall j :: 0 <= j < |o.dense.indices| ==> o.dense.indices[j] < |o.final.vertices|)
  {
    var o := Opaque(sc, be, capacity, box);
    var start := MeshState([], [], false, box);
    RenderGroupsKeeps(start, sc, be, PassConfig(capacity, false, false), sc.drawGroups);
    RenderGroupsKeeps(o.sparse, sc, be, PassConfig(capacity, true, true), sc.drawGroups);
    var resumed := o.dense.(indices := o.sparse.indices);
    assert IndicesValid(resumed) by {
      forall j | 0 <= j < |resumed.indices|
        ensures resumed.indices[j] < |resumed.vertices|
      {
        assert resumed.indices[j] == o.sparse.indices[j] < |o.sparse.vertices|;
      }
    }
    RenderGroupsKeeps(resumed, sc, be, PassConfig(capacity, true, false), sc.drawGroups);
    forall j | 0 <= j < |o.dense.indices|
      ensures o.dense.indices[j] < |o.final.vertices|
    {
    }
  }

  /** What the translucent pass and the opaque passes of build() leave. */
  datatype Passes = Passes(translucent: TState, opaquePasses: OpaquePasses)

  /** The translucent pass starts from empty buffers and an empty box; the
      opaque passes start from the box it left. */
  function BuildPasses(sc: Scene, be: seq<BeginEnd>, capacity: nat): Passes
    requires SceneValid(sc) && BeginEndsFit(be, |sc.voxels|)
  {
    var t0 := TState(MeshState([], [], false, EMPTY_BOX), [], EMPTY_BOX, 0);
    var t := TranslucentGroups(t0, sc, be, PassConfig(capacity, false, false), sc.drawGroups);
    Passes(t, Opaque(sc, be, capacity, t.mesh.box))
  }

  /** The translucent pass leaves its buffers empty with the running total
      equal to the fragment sizes, and the opaque passes keep their shape. */
  lemma BuildPassesShape(sc: Scene, be: seq<BeginEnd>, capacity: nat)
    requires SceneValid(sc) && BeginEndsFit(be, |sc.voxels|)
    ensures var p := BuildPasses(sc, be, capacity);
            && TranslucentInvariant(p.translucent)
            && IndicesValid(p.opaquePasses.final) && WithinCapacity(p.opaquePasses.final, capacity)
            && (forall j :: 0 <= j < |p.opaquePasses.dense.indices| ==> p.opaquePasses.dense.indices[j] < |p.opaquePasses.final.vertices|)
  {
    var t0 := TState(MeshState([], [], false, EMPTY_BOX), [], EMPTY_BOX, 0);
    TranslucentGroupsKeeps(t0, sc, be, PassConfig(capacity, false, false), sc.drawGroups);
    OpaquePassesShape(sc, be, capacity, BuildPasses(sc, be, capacity).translucent.mesh.box);
  }
}
