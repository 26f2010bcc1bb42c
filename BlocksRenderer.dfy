/** The chunk mesh builder: the preallocated vertex array and the two index
    arrays, their counters and flags, and the passes that fill them. Every
    method is proved against the value-level passes of MeshSpec and
    RenderPasses through Abstract(). */
module BlocksRenderer {
  import opened Wrappers
  import opened Blocks
  import opened MeshSpec
  import opened RenderPasses

  // ---------------------------------------------------------------------
  // Light around the chunk

  /** A light value, one 4-bit channel each for red, green, blue and sun, as
      Lightmap::extract returns them. */
  type Nibble = x: int | 0 <= x < 16

  datatype Light = Light(r: Nibble, g: Nibble, b: Nibble, s: Nibble)

  datatype Color = Color(r: real, g: real, b: real, a: real)

  /** The voxel volume around the chunk: the block id and the light of each
      world cell, as chunks->getVoxels filled it. */
  datatype Volume = Volume(blockId: (int, int, int) -> BlockId, light: (int, int, int) -> Light)

  function CellId(vol: Volume, chunkX: int, chunkZ: int, x: int, y: int, z: int): BlockId
  {
    vol.blockId(chunkX * CHUNK_W + x, y, chunkZ * CHUNK_D + z)
  }

  /** Every id the volume holds is the void marker or has a definition. */
  predicate KnownCell(vol: Volume, defs: seq<Block>, chunkX: int, chunkZ: int, x: int, y: int, z: int)
  {
    var id := CellId(vol, chunkX, chunkZ, x, y, z);
    id == BLOCK_VOID || id < |defs|
  }

  /** isOpenForLight: an unloaded cell is closed, a light-passing block is
      open, and otherwise only air is. */
  function IsOpenForLight(vol: Volume, defs: seq<Block>, chunkX: int, chunkZ: int, x: int, y: int, z: int): (open: bool)
    requires KnownCell(vol, defs, chunkX, chunkZ, x, y, z)
    ensures var id := CellId(vol, chunkX, chunkZ, x, y, z);
            && (id == BLOCK_VOID ==> !open)
            && (id != BLOCK_VOID && defs[id].lightPassing ==> open)
            && (id != BLOCK_VOID && !defs[id].lightPassing ==> (open <==> id == BLOCK_AIR))
  {
    var id := CellId(vol, chunkX, chunkZ, x, y, z);
    if id == BLOCK_VOID then false
    else if defs[id].lightPassing then true
    else id == BLOCK_AIR
  }

  /** pickLight: every channel over 15 in an open cell, black otherwise. */
  function PickLight(vol: Volume, defs: seq<Block>, chunkX: int, chunkZ: int, x: int, y: int, z: int): (c: Color)
    requires KnownCell(vol, defs, chunkX, chunkZ, x, y, z)
    ensures !IsOpenForLight(vol, defs, chunkX, chunkZ, x, y, z) ==> c == Color(0.0, 0.0, 0.0, 0.0)
    ensures IsOpenForLight(vol, defs, chunkX, chunkZ, x, y, z) ==>
              var l := vol.light(chunkX * CHUNK_W + x, y, chunkZ * CHUNK_D + z);
              c.r * 15.0 == l.r as real && c.g * 15.0 == l.g as real
              && c.b * 15.0 == l.b as real && c.a * 15.0 == l.s as real
    ensures 0.0 <= c.r <= 1.0 && 0.0 <= c.g <= 1.0 && 0.0 <= c.b <= 1.0 && 0.0 <= c.a <= 1.0
  {
    if IsOpenForLight(vol, defs, chunkX, chunkZ, x, y, z) then
      var l := vol.light(chunkX * CHUNK_W + x, y, chunkZ * CHUNK_D + z);
      Color(l.r as real / 15.0, l.g as real / 15.0, l.b as real / 15.0, l.s as real / 15.0)
    else Color(0.0, 0.0, 0.0, 0.0)
  }

  // ---------------------------------------------------------------------
  // Draw-group buckets

  /** The bucketing scan of build() over the voxels [lo, hi): for each draw
      group one past its first voxel and its last voxel. */
  method BucketDrawGroups(sc: Scene, lo: nat, hi: nat) returns (be: seq<BeginEnd>)
    requires SceneValid(sc) && lo <= hi <= |sc.voxels|
    ensures BucketsCorrect(be, sc, lo, hi)
  {
    be := seq(DRAW_GROUPS, _ => BeginEnd(0, 0));
    var i := lo;
    while i < hi
      invariant lo <= i <= hi
      invariant BucketsCorrect(be, sc, lo, i)
    {
      var g := GroupOf(sc, i);
      ghost var before := be;
      if be[g].first == 0 {
        be := be[g := be[g].(first := i + 1)];
      }
      be := be[g := be[g].(last := i)];
      forall h | 0 <= h < DRAW_GROUPS
        ensures BucketCorrect(be[h], sc, h, lo, i + 1)
      {
        assert BucketCorrect(before[h], sc, h, lo, i);
      }
      i := i + 1;
    }
  }

  // ---------------------------------------------------------------------
  // The mesh that createMesh() hands over

  datatype ChunkMeshData = ChunkMeshData(
    vertices: seq<ChunkVertex>,
    indices: seq<nat>,
    denseIndices: seq<nat>,
    sorting: seq<Fragment>,
    box: Box)

  class BlocksRenderer {
    const capacity: nat
    const vertexBuffer: array<ChunkVertex>
    const indexBuffer: array<nat>
    const denseIndexBuffer: array<nat>
    var vertexCount: nat
    var vertexOffset: nat
    var indexCount: nat
    var denseIndexCount: nat
    var overflow: bool
    var cancelled: bool
    var denseRender: bool
    var densePass: bool
    var localAabb: Box
    var sortingMesh: seq<Fragment>

    /** The three arrays have the capacity and the counters stay in them. */
    ghost predicate Allocated()
      reads this
    {
      && vertexBuffer.Length == capacity
      && indexBuffer.Length == capacity
      && denseIndexBuffer.Length == capacity
      && indexBuffer != denseIndexBuffer
      && vertexCount <= capacity && indexCount <= capacity && denseIndexCount <= capacity
    }

    /** The written part of the buffers as a value. */
    ghost function Abstract(): MeshState
      reads this, vertexBuffer, indexBuffer
      requires Allocated()
    {
      MeshState(vertexBuffer[..vertexCount], indexBuffer[..indexCount], overflow, localAabb)
    }

    /** Between faces the next index base is the vertex count, and every
        written index names a written vertex. */
    ghost predicate Valid()
      reads this, vertexBuffer, indexBuffer
    {
      Allocated() && vertexOffset == vertexCount && IndicesValid(Abstract())
    }

    /** Every dense index names a written vertex. */
    ghost predicate DenseValid()
      reads this, denseIndexBuffer
      requires Allocated()
    {
      forall j :: 0 <= j < denseIndexCount ==> denseIndexBuffer[j] < vertexCount
    }

    function Config(): PassConfig
      reads this
    {
      PassConfig(capacity, denseRender, densePass)
    }

    constructor (capacity: nat)
      ensures Valid() && this.capacity == capacity
      ensures vertexCount == 0 && vertexOffset == 0 && indexCount == 0
      ensures fresh(vertexBuffer) && fresh(indexBuffer) && fresh(denseIndexBuffer)
    {
      this.capacity := capacity;
      vertexBuffer := new ChunkVertex[capacity];
      indexBuffer := new nat[capacity];
      denseIndexBuffer := new nat[capacity];
      vertexCount := 0;
      vertexOffset := 0;
      indexCount := 0;
      denseIndexCount := 0;
    }

    /** vertex(): one vertex at the vertex count. */
    method Vertex(v: ChunkVertex)
      requires Allocated() && vertexCount < capacity
      modifies this`vertexCount, vertexBuffer
      ensures Allocated() && vertexCount == old(vertexCount) + 1
      ensures vertexBuffer[..vertexCount] == old(vertexBuffer[..vertexCount]) + [v]
    {
      vertexBuffer[vertexCount] := v;
      vertexCount := vertexCount + 1;
    }

    /** index(): six indices relative to the vertex offset, which then moves
        past the face's four vertices. The arrays need room for the six. */
    method Index(a: nat, b: nat, c: nat, d: nat, e: nat, f: nat)
      requires Allocated() && indexCount + 6 <= capacity
      modifies this`indexCount, this`vertexOffset, indexBuffer
      ensures Allocated() && vertexOffset == old(vertexOffset) + 4 && indexCount == old(indexCount) + 6
      ensures indexBuffer[..indexCount] == old(indexBuffer[..indexCount]) + Offsets([a, b, c, d, e, f], old(vertexOffset))
    {
      indexBuffer[indexCount] := vertexOffset + a;
      indexBuffer[indexCount + 1] := vertexOffset + b;
      indexBuffer[indexCount + 2] := vertexOffset + c;
      indexBuffer[indexCount + 3] := vertexOffset + d;
      indexBuffer[indexCount + 4] := vertexOffset + e;
      indexBuffer[indexCount + 5] := vertexOffset + f;
      indexCount := indexCount + 6;
      vertexOffset := vertexOffset + 4;
      assert indexBuffer[..indexCount] == old(indexBuffer[..indexCount]) + Offsets([a, b, c, d, e, f], old(vertexOffset));
    }

    /** A face (face, faceAO): the guard, four vertices, six indices and,
        outside the dense pass, the corners added to the box. */
    method Face(q: Quad)
      requires Valid()
      modifies this`overflow, this`vertexCount, this`vertexOffset, this`indexCount, this`localAabb, vertexBuffer, indexBuffer
      ensures Valid() && Abstract() == FaceStep(old(Abstract()), q, capacity, densePass)
    {
      if vertexCount + 4 >= capacity || indexCount + 6 > capacity {
        overflow := true;
        return;
      }
      ghost var st := Abstract();
      Vertex(q.v0);
      Vertex(q.v1);
      Vertex(q.v2);
      Vertex(q.v3);
      assert vertexBuffer[..vertexCount] == st.vertices + Corners(q);
      var p := Pattern(q.winding);
      Index(p[0], p[1], p[2], p[3], p[4], p[5]);
      assert [p[0], p[1], p[2], p[3], p[4], p[5]] == p;
      if !densePass {
        localAabb := Expand(Expand(Expand(Expand(localAabb, q.v0.position), q.v1.position), q.v2.position), q.v3.position);
      }
    }

    /** One vertex of a custom mesh: the vertex, the box outside the dense
        pass, and its own index. */
    method MeshVertex(v: ChunkVertex)
      requires Valid() && vertexCount < capacity && indexCount < capacity
      modifies this`vertexCount, this`vertexOffset, this`indexCount, this`localAabb, vertexBuffer, indexBuffer
      ensures Valid() && Abstract() == AppendVertices(old(Abstract()), [v], densePass)
    {
      ghost var st := Abstract();
      Vertex(v);
      if !densePass {
        localAabb := Expand(localAabb, v.position);
      }
      indexBuffer[indexCount] := vertexOffset;
      indexCount := indexCount + 1;
      vertexOffset := vertexOffset + 1;
      assert Positions([v]) == [v.position];
      assert ExpandAll(st.box, [v.position]) == Expand(st.box, v.position);
      assert indexBuffer[..indexCount] == st.indices + Consecutive(|st.vertices|, 1);
    }

    /** The three vertices of one kept triangle. */
    method EmitTriangle(mesh: MeshPiece, t: nat)
      requires Valid() && t < Triangles(mesh) && vertexCount + 3 < capacity && indexCount + 3 <= capacity
      modifies this`vertexCount, this`vertexOffset, this`indexCount, this`localAabb, vertexBuffer, indexBuffer
      ensures Valid() && Abstract() == AppendVertices(old(Abstract()), mesh.vertices[3 * t .. 3 * t + 3], densePass)
      ensures vertexCount == old(vertexCount) + 3 && indexCount == old(indexCount) + 3
    {
      ghost var start := Abstract();
      ghost var tri := mesh.vertices[3 * t .. 3 * t + 3];
      AppendNothing(start, densePass);
      var i := 0;
      while i < 3
        invariant i <= 3 && Valid()
        invariant vertexCount == |start.vertices| + i && indexCount == |start.indices| + i
        invariant Abstract() == AppendVertices(start, tri[..i], densePass)
      {
        var v := mesh.vertices[3 * t + i];
        assert tri[..i + 1] == tri[..i] + [v];
        AppendVerticesConcat(start, tri[..i], [v], densePass);
        MeshVertex(v);
        i := i + 1;
      }
      assert tri[..3] == tri;
    }

    /** The triangles of one mesh that fits, skipped ones left out. */
    method EmitMesh(mesh: MeshPiece)
      requires Valid() && MeshFits(Abstract(), mesh, capacity)
      modifies this`vertexCount, this`vertexOffset, this`indexCount, this`localAabb, vertexBuffer, indexBuffer
      ensures Valid() && Abstract() == AppendMesh(old(Abstract()), mesh, densePass)
    {
      ghost var goal := AppendMesh(Abstract(), mesh, densePass);
      var t := 0;
      while t < |mesh.vertices| / 3
        invariant t <= Triangles(mesh) && Valid()
        invariant vertexCount + |KeptFrom(mesh, t)| < capacity && indexCount + |KeptFrom(mesh, t)| <= capacity
        invariant goal == AppendVertices(Abstract(), KeptFrom(mesh, t), densePass)
      {
        ghost var later := KeptFrom(mesh, t + 1);
        if t < |mesh.skipped| && mesh.skipped[t] {
          assert KeptFrom(mesh, t) == [] + later == later;
          t := t + 1;
          continue;
        }
        ghost var tri := mesh.vertices[3 * t .. 3 * t + 3];
        ghost var before := Abstract();
        assert KeptFrom(mesh, t) == tri + later;
        AppendVerticesConcat(before, tri, later, densePass);
        EmitTriangle(mesh, t);
        assert Abstract() == AppendVertices(before, tri, densePass);
        t := t + 1;
      }
      AppendNothing(Abstract(), densePass);
    }

    /** blockCustomModel: each mesh guarded on its vertex count; the first
        one that does not fit sets the flag and ends the model. */
    method BlockCustomModel(meshes: seq<MeshPiece>)
      requires Valid()
      modifies this`overflow, this`vertexCount, this`vertexOffset, this`indexCount, this`localAabb, vertexBuffer, indexBuffer
      ensures Valid() && Abstract() == MeshesStep(old(Abstract()), meshes, capacity, densePass)
    {
      ghost var goal := MeshesStep(Abstract(), meshes, capacity, densePass);
      var k := 0;
      while k < |meshes|
        invariant k <= |meshes| && Valid()
        invariant goal == MeshesStep(Abstract(), meshes[k..], capacity, densePass)
      {
        var mesh := meshes[k];
        assert meshes[k..][0] == mesh && meshes[k..][1..] == meshes[k + 1..];
        if vertexCount + |mesh.vertices| >= capacity || indexCount + |mesh.vertices| > capacity {
          overflow := true;
          return;
        }
        EmitMesh(mesh);
        k := k + 1;
      }
    }

    /** A voxel's shape as the shape functions hand it over. */
    method DrawShape(es: seq<Emission>)
      requires Valid()
      modifies this`overflow, this`vertexCount, this`vertexOffset, this`indexCount, this`localAabb, vertexBuffer, indexBuffer
      ensures Valid() && Abstract() == EmitAll(old(Abstract()), es, capacity, densePass)
    {
      ghost var goal := EmitAll(Abstract(), es, capacity, densePass);
      var k := 0;
      while k < |es|
        invariant k <= |es| && Valid()
        invariant goal == EmitAll(Abstract(), es[k..], capacity, densePass)
      {
        assert es[k..][0] == es[k] && es[k..][1..] == es[k + 1..];
        match es[k] {
          case QuadFace(q) => Face(q);
          case CustomModel(ms) => BlockCustomModel(ms);
        }
        k := k + 1;
      }
    }

    /** render(): the opaque pass over the groups in order. */
    method Render(sc: Scene, be: seq<BeginEnd>)
      requires Valid() && SceneValid(sc) && BeginEndsFit(be, |sc.voxels|)
      modifies this`overflow, this`vertexCount, this`vertexOffset, this`indexCount, this`localAabb, vertexBuffer, indexBuffer
      ensures Valid() && Abstract() == RenderGroups(old(Abstract()), sc, be, Config(), sc.drawGroups)
    {
      ghost var goal := RenderGroups(Abstract(), sc, be, Config(), sc.drawGroups);
      var gi := 0;
      while gi < |sc.drawGroups|
        invariant gi <= |sc.drawGroups| && Valid()
        invariant goal == RenderGroups(Abstract(), sc, be, Config(), sc.drawGroups[gi..])
      {
        var g := sc.drawGroups[gi];
        assert sc.drawGroups[gi..][0] == g && sc.drawGroups[gi..][1..] == sc.drawGroups[gi + 1..];
        var begin := be[g].first;
        if begin == 0 {
          gi := gi + 1;
          continue;
        }
        var end := be[g].last;
        var i := begin - 1;
        while i <= end
          invariant begin - 1 <= i && Valid()
          invariant goal == AfterRange(RenderRange(Abstract(), sc, Config(), g, i, end), sc, be, Config(), sc.drawGroups[gi + 1..])
          decreases end + 1 - i
        {
          if !DrawnOpaque(sc, i, g, denseRender) {
            i := i + 1;
            continue;
          }
          DrawShape(OpaqueEmissions(sc, i, Config()));
          if overflow {
            return;
          }
          i := i + 1;
        }
        gi := gi + 1;
      }
    }

    /** The fragment of one translucent voxel: the vertices named by the
        index list, shifted into the world, both boxes widened by the
        unshifted positions, the counters back to zero. */
    method ExtractFragment(sc: Scene, i: nat, aabb: Box) returns (f: Fragment, aabbOut: Box)
      requires Valid()
      modifies this`vertexCount, this`vertexOffset, this`indexCount, this`localAabb
      ensures Valid() && vertexCount == 0 && indexCount == 0
      ensures var m := old(Abstract());
              var points := Positions(Gathered(m));
              && f == FragmentOf(m, sc, i)
              && aabbOut == ExpandAll(aabb, points)
              && localAabb == ExpandAll(m.box, points)
    {
      ghost var m := Abstract();
      ghost var points := Positions(Gathered(m));
      var data: seq<ChunkVertex> := [];
      aabbOut := aabb;
      var j := 0;
      while j < indexCount
        invariant vertexCount == |m.vertices| && indexCount == |m.indices| && vertexOffset == vertexCount
        invariant j <= indexCount && |data| == j
        invariant forall k :: 0 <= k < j ==> data[k] == Shifted(m.vertices[m.indices[k]], sc)
        invariant ExpandAll(aabb, points) == ExpandAll(aabbOut, points[j..])
        invariant ExpandAll(m.box, points) == ExpandAll(localAabb, points[j..])
      {
        assert indexBuffer[j] == m.indices[j];
        var v := vertexBuffer[indexBuffer[j]];
        assert points[j..][0] == v.position && points[j..][1..] == points[j + 1..];
        aabbOut := Expand(aabbOut, v.position);
        localAabb := Expand(localAabb, v.position);
        data := data + [Shifted(v, sc)];
        j := j + 1;
      }
      f := Fragment(Anchor(sc, i), data);
      vertexCount := 0;
      vertexOffset := 0;
      indexCount := 0;
    }

    /** The merge of renderTranslucent(): the entries copied one after the
        other into one buffer of the total size. */
    static method MergeFragments(fs: seq<Fragment>, aabb: Box, totalSize: nat) returns (r: seq<Fragment>)
      requires totalSize == TotalSize(fs)
      ensures r == Merged(fs, aabb)
      ensures NearlyFlat(aabb) && |fs| > 1 ==> |r[0].data| == totalSize
    {
      if NearlyFlat(aabb) && |fs| > 1 {
        var data: seq<ChunkVertex> := [];
        var k := 0;
        while k < |fs|
          invariant k <= |fs| && data == Concat(fs[..k])
        {
          assert fs[..k + 1] == fs[..k] + [fs[k]];
          ConcatAppend(fs[..k], fs[k]);
          data := data + fs[k].data;
          k := k + 1;
        }
        assert fs[..k] == fs;
        ConcatLength(fs);
        r := [Fragment(fs[0].anchor, data)];
      } else {
        r := fs;
      }
    }

    /** One voxel of renderTranslucent(): its shape drawn, and a fragment
        taken out when it emitted vertices. */
    method TranslucentStep(sc: Scene, g: nat, i: nat, fragments: seq<Fragment>, aabb: Box, totalSize: nat)
        returns (fragmentsOut: seq<Fragment>, aabbOut: Box, totalSizeOut: nat)
      requires Valid() && SceneValid(sc) && i < |sc.voxels| && vertexCount == 0 && indexCount == 0
      requires totalSize == TotalSize(fragments)
      modifies this`overflow, this`vertexCount, this`vertexOffset, this`indexCount, this`localAabb, vertexBuffer, indexBuffer
      ensures Valid() && vertexCount == 0 && indexCount == 0 && totalSizeOut == TotalSize(fragmentsOut)
      ensures TState(Abstract(), fragmentsOut, aabbOut, totalSizeOut)
           == TranslucentVoxel(TState(old(Abstract()), fragments, aabb, totalSize), sc, Config(), g, i)
    {
      fragmentsOut, aabbOut, totalSizeOut := fragments, aabb, totalSize;
      if !DrawnTranslucent(sc, i, g) {
        return;
      }
      DrawShape(TranslucentEmissions(sc, i, Config()));
      NoVerticesNoIndices(Abstract());
      if vertexCount == 0 {
        return;
      }
      var f: Fragment;
      f, aabbOut := ExtractFragment(sc, i, aabb);
      TotalSizeAppend(fragments, f);
      fragmentsOut := fragments + [f];
      totalSizeOut := totalSize + |f.data|;
    }

    /** renderTranslucent(): translucent voxels of every group in order, a
        fragment for each that emitted vertices, then the merge. */
    method RenderTranslucent(sc: Scene, be: seq<BeginEnd>) returns (mesh: seq<Fragment>)
      requires Valid() && SceneValid(sc) && BeginEndsFit(be, |sc.voxels|)
      requires vertexCount == 0 && indexCount == 0
      modifies this`overflow, this`vertexCount, this`vertexOffset, this`indexCount, this`localAabb, vertexBuffer, indexBuffer
      ensures Valid()
      ensures var t := TranslucentGroups(TState(old(Abstract()), [], EMPTY_BOX, 0), sc, be, Config(), sc.drawGroups);
              Abstract() == t.mesh && mesh == Merged(t.fragments, t.aabb)
    {
      var fragments: seq<Fragment> := [];
      var aabb := EMPTY_BOX;
      var totalSize: nat := 0;
      ghost var goal := TranslucentGroups(TState(Abstract(), fragments, aabb, totalSize), sc, be, Config(), sc.drawGroups);
      var gi := 0;
      while gi < |sc.drawGroups|
        invariant gi <= |sc.drawGroups| && Valid() && vertexCount == 0 && indexCount == 0
        invariant totalSize == TotalSize(fragments)
        invariant goal == TranslucentGroups(TState(Abstract(), fragments, aabb, totalSize), sc, be, Config(), sc.drawGroups[gi..])
      {
        var g := sc.drawGroups[gi];
        assert sc.drawGroups[gi..][0] == g && sc.drawGroups[gi..][1..] == sc.drawGroups[gi + 1..];
        var begin := be[g].first;
        if begin == 0 {
          gi := gi + 1;
          continue;
        }
        var end := be[g].last;
        var i := begin - 1;
        while i <= end
          invariant begin - 1 <= i && Valid() && vertexCount == 0 && indexCount == 0
          invariant totalSize == TotalSize(fragments)
          invariant goal == AfterTranslucentRange(TState(Abstract(), fragments, aabb, totalSize), sc, be, Config(), g, i, end,
                                                  sc.drawGroups[gi + 1..])
          decreases end + 1 - i
        {
          fragments, aabb, totalSize := TranslucentStep(sc, g, i, fragments, aabb, totalSize);
          i := i + 1;
        }
        gi := gi + 1;
      }
      mesh := MergeFragments(fragments, aabb, totalSize);
    }

    /** The counter reset build() does before each pass group. */
    method ResetCounters()
      requires Allocated()
      modifies this`overflow, this`vertexCount, this`vertexOffset, this`indexCount
      ensures Valid() && Abstract() == MeshState([], [], false, localAabb)
    {
      overflow := false;
      vertexCount := 0;
      vertexOffset := 0;
      indexCount := 0;
    }

    /** The dense index copy: the first indexCount indices into the dense
        index array. */
    method CopyDenseIndices()
      requires Valid()
      modifies this`denseIndexCount, denseIndexBuffer
      ensures Valid() && Abstract() == old(Abstract()) && denseIndexCount == indexCount
      ensures denseIndexBuffer[..denseIndexCount] == indexBuffer[..indexCount]
    {
      denseIndexCount := indexCount;
      var k := 0;
      while k < denseIndexCount
        invariant k <= denseIndexCount == indexCount
        invariant denseIndexBuffer[..k] == indexBuffer[..k]
      {
        denseIndexBuffer[k] := indexBuffer[k];
        k := k + 1;
      }
    }

    /** The opaque half of build(): the sparse pass, the dense pass, the
        dense index copy, the index count set back to the sparse pass's and
        the final pass with sparse textures. */
    method OpaqueRender(sc: Scene, be: seq<BeginEnd>)
      requires Allocated() && SceneValid(sc) && BeginEndsFit(be, |sc.voxels|)
      modifies this`overflow, this`vertexCount, this`vertexOffset, this`indexCount, this`denseIndexCount
      modifies this`denseRender, this`densePass, this`localAabb, vertexBuffer, indexBuffer, denseIndexBuffer
      ensures Valid() && DenseValid() && denseRender && !densePass
      ensures var o := Opaque(sc, be, capacity, old(localAabb));
              Abstract() == o.final && denseIndexBuffer[..denseIndexCount] == o.dense.indices
    {
      ghost var o := Opaque(sc, be, capacity, localAabb);
      OpaquePassesShape(sc, be, capacity, localAabb);
      ResetCounters();
      denseIndexCount := 0;
      denseRender := false;
      densePass := false;
      Render(sc, be);
      assert Abstract() == o.sparse;
      var endIndex := indexCount;

      denseRender := true;
      densePass := true;
      Render(sc, be);
      assert Abstract() == o.dense;
      CopyDenseIndices();

      assert indexBuffer[..endIndex] == o.dense.indices[..endIndex] == o.sparse.indices;
      indexCount := endIndex;
      densePass := false;
      assert Abstract() == o.dense.(indices := o.sparse.indices);
      Render(sc, be);
      assert Abstract() == o.final;
      assert denseIndexBuffer[..denseIndexCount] == o.dense.indices;
      forall j | 0 <= j < denseIndexCount
        ensures denseIndexBuffer[j] < vertexCount
      {
        assert denseIndexBuffer[j] == o.dense.indices[j];
      }
    }

    /** build(): the local box reset; nothing more when the chunk's corner
        cell is not loaded; otherwise the buckets, the translucent pass and
        the opaque passes. */
    method Build(sc: Scene, vol: Volume, bottom: nat, top: nat) returns (ghost be: seq<BeginEnd>)
      requires Valid() && SceneValid(sc) && bottom <= top && top * (CHUNK_W * CHUNK_D) <= |sc.voxels|
      modifies this, vertexBuffer, indexBuffer, denseIndexBuffer
      ensures Valid()
      ensures cancelled <==> vol.blockId(sc.chunkX * CHUNK_W, 0, sc.chunkZ * CHUNK_D) == BLOCK_VOID
      ensures cancelled ==>
                && localAabb == EMPTY_BOX
                && vertexCount == old(vertexCount) && indexCount == old(indexCount)
                && denseIndexCount == old(denseIndexCount) && overflow == old(overflow)
                && sortingMesh == old(sortingMesh)
                && unchanged(vertexBuffer, indexBuffer, denseIndexBuffer)
      ensures !cancelled ==>
                && BucketsCorrect(be, sc, bottom * (CHUNK_W * CHUNK_D), top * (CHUNK_W * CHUNK_D))
                && BeginEndsFit(be, |sc.voxels|)
                && denseRender && !densePass && DenseValid()
                && var p := BuildPasses(sc, be, capacity);
                   && Abstract() == p.opaquePasses.final
                   && denseIndexBuffer[..denseIndexCount] == p.opaquePasses.dense.indices
                   && sortingMesh == Merged(p.translucent.fragments, p.translucent.aabb)
    {
      be := [];
      localAabb := EMPTY_BOX;
      if vol.blockId(sc.chunkX * CHUNK_W, 0, sc.chunkZ * CHUNK_D) == BLOCK_VOID {
        cancelled := true;
        return;
      }
      var totalBegin := bottom * (CHUNK_W * CHUNK_D);
      var totalEnd := top * (CHUNK_W * CHUNK_D);
      var buckets := BucketDrawGroups(sc, totalBegin, totalEnd);
      be := buckets;
      BucketsFit(buckets, sc, totalBegin, totalEnd);
      cancelled := false;

      ResetCounters();
      denseRender := false;
      densePass := false;
      sortingMesh := RenderTranslucent(sc, buckets);
      OpaqueRender(sc, buckets);
    }

    /** createMesh(): the written vertices, both index lists, the sorting
        mesh and the box, or a zero box when nothing widened it. */
    function CreateMesh(): (d: ChunkMeshData)
      reads this, vertexBuffer, indexBuffer, denseIndexBuffer
      requires Allocated()
      ensures |d.vertices| == vertexCount && |d.indices| == indexCount && |d.denseIndices| == denseIndexCount
      ensures Valid() ==> forall j :: 0 <= j < |d.indices| ==> d.indices[j] < |d.vertices|
      ensures DenseValid() ==> forall j :: 0 <= j < |d.denseIndices| ==> d.denseIndices[j] < |d.vertices|
      ensures d.box.init ==> d.box == localAabb
      ensures !localAabb.init ==> d.box == EMPTY_BOX
    {
      ChunkMeshData(
        vertexBuffer[..vertexCount],
        indexBuffer[..indexCount],
        denseIndexBuffer[..denseIndexCount],
        sortingMesh,
        if localAabb.init then localAabb else EMPTY_BOX)
    }
  }
}
