/** ContentGfxCache: the atlas UV region of every block side, per variant,
    in one flat table, and the custom models with their UVs remapped into
    the atlas. */
module GfxCache {
  import opened Wrappers
  import opened Blocks

  const MAX_VARIANTS: nat := 16
  const SIDES: nat := 6

  /** Slots per block: sides x variants x {normal, opaque}. */
  const SLOTS_PER_BLOCK: nat := SIDES * MAX_VARIANTS * 2

  /** The placeholder texture for a name missing from the atlas. Its value
      lives in core_defs.hpp, which is not part of this model. */
  const TEXTURE_NOTFOUND: string := "notfound"

  datatype UVRegion = UVRegion(u1: real, v1: real, u2: real, v2: real)

  datatype UV = UV(u: real, v: real)

  datatype MeshVertex = MeshVertex(coord: Vec3, uv: UV, normal: Vec3)

  datatype Mesh = Mesh(texture: string, vertices: seq<MeshVertex>, shading: bool)

  datatype Model = Model(meshes: seq<Mesh>)

  /** The block atlas: texture name to region. */
  type Atlas = map<string, UVRegion>

  datatype CacheError =
    | ModelMissing(name: string)   // Assets::require for a model that is not loaded
    | ModelNotFound                // "model not found"
    | NoVariants                   // variants.at(0) on an empty list: std::out_of_range

  // ---------------------------------------------------------------------
  // Slot indexing

  /** getRegionIndex: the flat slot of (block, variant, side, isOpaque). */
  function RegionIndex(id: nat, variant: nat, side: nat, isOpaque: bool): nat
  {
    ((id * SIDES + side) * MAX_VARIANTS + variant) * 2 + (if isOpaque then 1 else 0)
  }

  datatype Slot = Slot(id: nat, variant: nat, side: nat, isOpaque: bool)

  /** The inverse of RegionIndex. */
  function SlotOf(index: nat): (s: Slot)
    ensures s.variant < MAX_VARIANTS && s.side < SIDES
  {
    Slot(index / SLOTS_PER_BLOCK, (index / 2) % MAX_VARIANTS, (index / (2 * MAX_VARIANTS)) % SIDES, index % 2 == 1)
  }

  lemma RegionIndexRoundTrip(id: nat, variant: nat, side: nat, isOpaque: bool)
    requires variant < MAX_VARIANTS && side < SIDES
    ensures SlotOf(RegionIndex(id, variant, side, isOpaque)) == Slot(id, variant, side, isOpaque)
  {
    var o := if isOpaque then 1 else 0;
    var k := RegionIndex(id, variant, side, isOpaque);
    assert k == id * 192 + side * 32 + variant * 2 + o;
    assert k % 2 == o && k / 2 == id * 96 + side * 16 + variant;
    assert (k / 2) % 16 == variant;
    assert k / 32 == id * 6 + side;
    assert (k / 32) % 6 == side;
    assert k / 192 == id;
  }

  lemma SlotOfRoundTrip(index: nat)
    ensures var s := SlotOf(index); RegionIndex(s.id, s.variant, s.side, s.isOpaque) == index
  {
    var s := SlotOf(index);
    var q1, q2 := index / 2, index / 32;
    assert index == q1 * 2 + index % 2;
    assert q2 == q1 / 16 && q1 == q2 * 16 + s.variant;
    assert s.id == q2 / 6 && q2 == s.id * 6 + s.side;
  }

  /** Distinct face slots never share a table entry. */
  lemma RegionIndexInjective(id1: nat, v1: nat, s1: nat, o1: bool, id2: nat, v2: nat, s2: nat, o2: bool)
    requires v1 < MAX_VARIANTS && s1 < SIDES && v2 < MAX_VARIANTS && s2 < SIDES
    ensures RegionIndex(id1, v1, s1, o1) == RegionIndex(id2, v2, s2, o2) <==>
            id1 == id2 && v1 == v2 && s1 == s2 && o1 == o2
  {
    RegionIndexRoundTrip(id1, v1, s1, o1);
    RegionIndexRoundTrip(id2, v2, s2, o2);
  }

  /** Every slot of a block below `count` lies inside the table refresh()
      allocates for `count` blocks. */
  lemma RegionIndexInTable(count: nat, id: nat, variant: nat, side: nat, isOpaque: bool)
    requires id < count && variant < MAX_VARIANTS && side < SIDES
    ensures RegionIndex(id, variant, side, isOpaque) < count * SLOTS_PER_BLOCK
  {
    assert RegionIndex(id, variant, side, isOpaque) < id * 192 + 192;
  }

  /** modelKey: the block id shifted above the low byte, which holds the
      variant. The two bit fields do not overlap, so the shift is a product
      by 256 and the bitwise or a sum. */
  function ModelKey(id: BlockId, variant: uint8): nat
  {
    id * 256 + variant
  }

  lemma ModelKeyFields(id: BlockId, variant: uint8)
    ensures ModelKey(id, variant) / 256 == id && ModelKey(id, variant) % 256 == variant
    ensures ModelKey(id, variant) < 0x100_0000
  {
  }

  lemma ModelKeyInjective(id1: BlockId, variant1: uint8, id2: BlockId, variant2: uint8)
    ensures ModelKey(id1, variant1) == ModelKey(id2, variant2) <==> id1 == id2 && variant1 == variant2
  {
    ModelKeyFields(id1, variant1);
    ModelKeyFields(id2, variant2);
  }

  // ---------------------------------------------------------------------
  // Texture resolution

  datatype FaceTextures = FaceTextures(tex: string, texOpaque: string)

  /** The two texture names stored for one side of a variant. */
  function ResolveFace(name: string, atlas: Atlas, culling: CullingMode, denseRender: bool): (f: FaceTextures)
    // a name missing from the atlas falls back to the placeholder
    ensures var tex := if name in atlas then name else TEXTURE_NOTFOUND;
            && (name + "_opaque" !in atlas ==> f == FaceTextures(tex, tex))
            && ((name + "_opaque" in atlas && culling == Optional && !denseRender)
                  ==> f == FaceTextures(name + "_opaque", name + "_opaque"))
            && ((name + "_opaque" in atlas && !(culling == Optional && !denseRender))
                  ==> f == FaceTextures(tex, name + "_opaque"))
  {
    var tex := if name in atlas then name else TEXTURE_NOTFOUND;
    var texOpaque := name + "_opaque";
    if texOpaque !in atlas then FaceTextures(tex, tex)
    else if culling == Optional && !denseRender then FaceTextures(texOpaque, texOpaque)
    else FaceTextures(tex, texOpaque)
  }

  /** Both resolved names can be looked up once the placeholder is in the
      atlas. */
  lemma ResolvedFaceInAtlas(name: string, atlas: Atlas, culling: CullingMode, denseRender: bool)
    requires TEXTURE_NOTFOUND in atlas
    ensures var f := ResolveFace(name, atlas, culling, denseRender);
            f.tex in atlas && f.texOpaque in atlas
  {
  }

  /** The region a refreshed slot holds: the normal slot the resolved
      texture, the opaque slot the resolved opaque texture. */
  function SlotRegion(atlas: Atlas, v: Variant, side: nat, isOpaque: bool, denseRender: bool): UVRegion
    requires TEXTURE_NOTFOUND in atlas && side < |v.textureFaces|
  {
    var f := ResolveFace(v.textureFaces[side], atlas, v.culling, denseRender);
    ResolvedFaceInAtlas(v.textureFaces[side], atlas, v.culling, denseRender);
    if isOpaque then atlas[f.texOpaque] else atlas[f.tex]
  }

  // ---------------------------------------------------------------------
  // Custom model UV remapping

  /** std::string::find: the first position of `c`. */
  function Find(s: string, c: char): (r: Option<nat>)
    ensures r.Some? ==> r.value < |s| && s[r.value] == c && c !in s[..r.value]
    ensures r.None? <==> c !in s
  {
    if s == [] then None
    else if s[0] == c then Some(0)
    else match Find(s[1..], c)
      case None => None
      case Some(p) =>
        assert s[..p + 1] == [s[0]] + s[1..][..p];
        Some(p + 1)
  }

  /** The atlas region a mesh's "pack:texture" reference names, if any. */
  function MeshRegion(mesh: Mesh, atlas: Atlas): Option<UVRegion>
  {
    match Find(mesh.texture, ':')
    case None => None
    case Some(pos) =>
      var name := mesh.texture[pos + 1..];
      if name in atlas then Some(atlas[name]) else None
  }

  /** The mesh with every vertex UV mapped into its atlas region; meshes
      without such a region are kept as they are. */
  function RemapMesh(mesh: Mesh, atlas: Atlas, uvApply: (UVRegion, UV) -> UV): (m: Mesh)
    ensures m.texture == mesh.texture && m.shading == mesh.shading && |m.vertices| == |mesh.vertices|
    ensures MeshRegion(mesh, atlas).None? ==> m == mesh
    ensures MeshRegion(mesh, atlas).Some? ==>
              forall j :: 0 <= j < |m.vertices| ==>
                m.vertices[j] == mesh.vertices[j].(uv := uvApply(MeshRegion(mesh, atlas).value, mesh.vertices[j].uv))
  {
    match MeshRegion(mesh, atlas)
    case None => mesh
    case Some(region) =>
      mesh.(vertices := seq(|mesh.vertices|, j requires 0 <= j < |mesh.vertices| =>
                              mesh.vertices[j].(uv := uvApply(region, mesh.vertices[j].uv))))
  }

  function RemapModel(model: Model, atlas: Atlas, uvApply: (UVRegion, UV) -> UV): (m: Model)
    ensures |m.meshes| == |model.meshes|
    ensures forall i :: 0 <= i < |m.meshes| ==> m.meshes[i] == RemapMesh(model.meshes[i], atlas, uvApply)
  {
    Model(seq(|model.meshes|, i requires 0 <= i < |model.meshes| => RemapMesh(model.meshes[i], atlas, uvApply)))
  }

  /** The UV loop of refreshVariant, rewriting the model's meshes one
      vertex at a time. */
  method RemapModelUVs(model: Model, atlas: Atlas, uvApply: (UVRegion, UV) -> UV) returns (result: Model)
    ensures result == RemapModel(model, atlas, uvApply)
  {
    var meshes := model.meshes;
    var i := 0;
    while i < |meshes|
      invariant i <= |meshes| == |model.meshes|
      invariant forall k :: 0 <= k < i ==> meshes[k] == RemapMesh(model.meshes[k], atlas, uvApply)
      invariant forall k :: i <= k < |meshes| ==> meshes[k] == model.meshes[k]
    {
      var mesh := meshes[i];
      var pos := Find(mesh.texture, ':');
      if pos.Some? && mesh.texture[pos.value + 1..] in atlas {
        var region := atlas[mesh.texture[pos.value + 1..]];
        var vertices := mesh.vertices;
        var j := 0;
        while j < |vertices|
          invariant j <= |vertices| == |mesh.vertices|
          invariant forall k :: 0 <= k < j ==> vertices[k] == mesh.vertices[k].(uv := uvApply(region, mesh.vertices[k].uv))
          invariant forall k :: j <= k < |vertices| ==> vertices[k] == mesh.vertices[k]
        {
          vertices := vertices[j := vertices[j].(uv := uvApply(region, vertices[j].uv))];
          j := j + 1;
        }
        assert vertices == RemapMesh(mesh, atlas, uvApply).vertices;
        meshes := meshes[i := mesh.(vertices := vertices)];
      }
      i := i + 1;
    }
    result := Model(meshes);
  }

  // ---------------------------------------------------------------------
  // Which variants refresh(def, atlas) visits

  predicate WellFormedBlock(def: Block)
  {
    && WellFormedVariant(def.defaults)
    && (def.variants.Some? ==> forall v :: v in def.variants.value ==> WellFormedVariant(v))
  }

  /** size_t arithmetic is modulo 2^64. */
  const SIZE_T_MODULUS: nat := 0x1_0000_0000_0000_0000

  /** The bound of the variant loop as written: `variants.size() - 1`,
      computed in size_t. */
  function VariantLoopBoundAsWritten(size: nat): (b: nat)
    requires size < SIZE_T_MODULUS
    ensures b < SIZE_T_MODULUS
    ensures size >= 1 ==> b == size - 1
    ensures size == 0 ==> b == SIZE_T_MODULUS - 1
  {
    (size + SIZE_T_MODULUS - 1) % SIZE_T_MODULUS
  }

  /** The as-written loop visits every i with 1 <= i < bound. With no
      variants the bound wraps around and variants[1] of the empty list is
      read; with 18 variants variant index 16 is written, and its slots are
      those of variant 0 of the next side, or of the next block after the
      last side. */
  lemma VariantLoopAsWrittenOverruns(id: nat, side: nat, isOpaque: bool)
    requires side < SIDES
    ensures 1 < VariantLoopBoundAsWritten(0)
    ensures MAX_VARIANTS < VariantLoopBoundAsWritten(MAX_VARIANTS + 2)
    ensures side + 1 < SIDES ==> RegionIndex(id, MAX_VARIANTS, side, isOpaque) == RegionIndex(id, 0, side + 1, isOpaque)
    ensures side + 1 == SIDES ==> RegionIndex(id, MAX_VARIANTS, side, isOpaque) == RegionIndex(id + 1, 0, 0, isOpaque)
  {
  }

  /** The corrected bound: the loop never reads past the list and never
      writes a variant index the table has no slots for. Wherever the
      as-written bound is harmless the two agree. */
  function VariantLoopBound(size: nat): (b: nat)
    ensures b <= MAX_VARIANTS
    ensures b == 0 || b < size
    ensures 1 <= size <= MAX_VARIANTS + 1 ==> b == VariantLoopBoundAsWritten(size)
    ensures size > MAX_VARIANTS + 1 ==> b == MAX_VARIANTS
  {
    if size == 0 then 0 else if size - 1 < MAX_VARIANTS then size - 1 else MAX_VARIANTS
  }

  /** The defaults as variant 0, then variants 1 .. size-2: the loop bound
      `size() - 1` leaves out the last variant. */
  predicate Refreshed(def: Block, variant: nat)
  {
    variant == 0 || (def.variants.Some? && 1 <= variant < VariantLoopBound(|def.variants.value|))
  }

  function RefreshedVariant(def: Block, variant: nat): (v: Variant)
    requires WellFormedBlock(def) && Refreshed(def, variant)
    ensures WellFormedVariant(v)
  {
    if variant == 0 then def.defaults else def.variants.value[variant]
  }

  /** A definition has its last variant skipped whenever it has two or
      more. */
  lemma LastVariantNotRefreshed(def: Block)
    requires def.variants.Some? && |def.variants.value| >= 2
    ensures !Refreshed(def, |def.variants.value| - 1)
    ensures forall v :: 0 < v < |def.variants.value| - 1 && v < MAX_VARIANTS ==> Refreshed(def, v)
  {
  }

  /** The definition after refresh(def): variants[0] replaced by the
      defaults. */
  function RefreshedDefinition(def: Block): (d: Block)
    requires WellFormedBlock(def) && def.variants != Some([])
    ensures d.defaults == def.defaults && d.id == def.id
    ensures d.GetVariant(0) == def.defaults
    ensures def.variants.Some? ==>
              (d.variants.Some? && |d.variants.value| == |def.variants.value| &&
               d.variants.value[0] == def.defaults && d.variants.value[1..] == def.variants.value[1..])
  {
    if def.variants.None? then def
    else def.(variants := Some(def.variants.value[0 := def.defaults]))
  }

  /** The slot belongs to a variant of `id` that refresh(def) writes. */
  predicate WrittenBy(def: Block, index: nat)
  {
    SlotOf(index).id == def.id && Refreshed(def, SlotOf(index).variant)
  }

  /** What a slot written by refresh(def) holds. */
  function RefreshedRegion(def: Block, atlas: Atlas, denseRender: bool, index: nat): UVRegion
    requires WellFormedBlock(def) && TEXTURE_NOTFOUND in atlas && Refreshed(def, SlotOf(index).variant)
  {
    var slot := SlotOf(index);
    SlotRegion(atlas, RefreshedVariant(def, slot.variant), slot.side, slot.isOpaque, denseRender)
  }

  /** A refreshed slot, addressed by its parts, holds the region of that
      side's resolved texture (or resolved opaque texture). */
  lemma RefreshedRegionOfSlot(def: Block, atlas: Atlas, denseRender: bool, variant: nat, side: nat, isOpaque: bool)
    requires WellFormedBlock(def) && TEXTURE_NOTFOUND in atlas && Refreshed(def, variant) && side < SIDES
    ensures WrittenBy(def, RegionIndex(def.id, variant, side, isOpaque))
    ensures RefreshedRegion(def, atlas, denseRender, RegionIndex(def.id, variant, side, isOpaque))
              == SlotRegion(atlas, RefreshedVariant(def, variant), side, isOpaque, denseRender)
  {
    assert variant < MAX_VARIANTS;
    RegionIndexRoundTrip(def.id, variant, side, isOpaque);
  }

  /** The table once refreshVariant has run for one variant. */
  function VariantWritten(table: seq<UVRegion>, id: nat, variantIndex: nat, variant: Variant, atlas: Atlas, denseRender: bool)
    : (t: seq<UVRegion>)
    requires WellFormedVariant(variant) && TEXTURE_NOTFOUND in atlas
    ensures |t| == |table|
  {
    seq(|table|, k requires 0 <= k < |table| =>
      if SlotOf(k).id == id && SlotOf(k).variant == variantIndex
      then SlotRegion(atlas, variant, SlotOf(k).side, SlotOf(k).isOpaque, denseRender)
      else table[k])
  }

  /** The table once refreshVariant has written the sides below `upTo`. */
  function SidesWritten(table: seq<UVRegion>, id: nat, variantIndex: nat, variant: Variant, atlas: Atlas,
                        denseRender: bool, upTo: nat): (t: seq<UVRegion>)
    requires WellFormedVariant(variant) && TEXTURE_NOTFOUND in atlas
    ensures |t| == |table|
  {
    seq(|table|, k requires 0 <= k < |table| =>
      if SlotOf(k).id == id && SlotOf(k).variant == variantIndex && SlotOf(k).side < upTo
      then SlotRegion(atlas, variant, SlotOf(k).side, SlotOf(k).isOpaque, denseRender)
      else table[k])
  }

  /** One side: its normal slot and the opaque slot after it. */
  lemma SidesWrittenStep(table: seq<UVRegion>, id: nat, variantIndex: nat, variant: Variant, atlas: Atlas,
                         denseRender: bool, side: nat)
    requires WellFormedVariant(variant) && TEXTURE_NOTFOUND in atlas
    requires variantIndex < MAX_VARIANTS && side < SIDES && RegionIndex(id, variantIndex, side, true) < |table|
    ensures var i := RegionIndex(id, variantIndex, side, false);
            var f := ResolveFace(variant.textureFaces[side], atlas, variant.culling, denseRender);
            && i + 1 == RegionIndex(id, variantIndex, side, true)
            && f.tex in atlas && f.texOpaque in atlas
            && SidesWritten(table, id, variantIndex, variant, atlas, denseRender, side)[i := atlas[f.tex]][i + 1 := atlas[f.texOpaque]]
               == SidesWritten(table, id, variantIndex, variant, atlas, denseRender, side + 1)
  {
    var i := RegionIndex(id, variantIndex, side, false);
    var f := ResolveFace(variant.textureFaces[side], atlas, variant.culling, denseRender);
    ResolvedFaceInAtlas(variant.textureFaces[side], atlas, variant.culling, denseRender);
    RegionIndexRoundTrip(id, variantIndex, side, false);
    RegionIndexRoundTrip(id, variantIndex, side, true);
    var before := SidesWritten(table, id, variantIndex, variant, atlas, denseRender, side);
    var after := SidesWritten(table, id, variantIndex, variant, atlas, denseRender, side + 1);
    var w := before[i := atlas[f.tex]][i + 1 := atlas[f.texOpaque]];
    forall k | 0 <= k < |table|
      ensures w[k] == after[k]
    {
      if k != i && k != i + 1 {
        SlotOfRoundTrip(k);
      }
    }
  }

  /** Once all six sides are written, every slot of the variant holds its
      region. */
  lemma SidesWrittenAll(table: seq<UVRegion>, id: nat, variantIndex: nat, variant: Variant, atlas: Atlas, denseRender: bool)
    requires WellFormedVariant(variant) && TEXTURE_NOTFOUND in atlas && variantIndex < MAX_VARIANTS
    ensures SidesWritten(table, id, variantIndex, variant, atlas, denseRender, SIDES)
         == VariantWritten(table, id, variantIndex, variant, atlas, denseRender)
    ensures forall side: nat, isOpaque: bool :: side < SIDES && RegionIndex(id, variantIndex, side, isOpaque) < |table| ==>
              VariantWritten(table, id, variantIndex, variant, atlas, denseRender)[RegionIndex(id, variantIndex, side, isOpaque)]
              == SlotRegion(atlas, variant, side, isOpaque, denseRender)
  {
    forall side: nat, isOpaque: bool | side < SIDES && RegionIndex(id, variantIndex, side, isOpaque) < |table|
      ensures VariantWritten(table, id, variantIndex, variant, atlas, denseRender)[RegionIndex(id, variantIndex, side, isOpaque)]
              == SlotRegion(atlas, variant, side, isOpaque, denseRender)
    {
      RegionIndexRoundTrip(id, variantIndex, side, isOpaque);
    }
  }

  /** The table once refresh(def) has handled the variants below `upTo`. */
  function TableAfter(table: seq<UVRegion>, def: Block, atlas: Atlas, denseRender: bool, upTo: nat): (t: seq<UVRegion>)
    requires WellFormedBlock(def) && TEXTURE_NOTFOUND in atlas
    ensures |t| == |table|
  {
    seq(|table|, k requires 0 <= k < |table| =>
      if WrittenBy(def, k) && SlotOf(k).variant < upTo then RefreshedRegion(def, atlas, denseRender, k) else table[k])
  }

  lemma TableAfterStep(table: seq<UVRegion>, def: Block, atlas: Atlas, denseRender: bool, variant: nat)
    requires WellFormedBlock(def) && TEXTURE_NOTFOUND in atlas && Refreshed(def, variant)
    ensures VariantWritten(TableAfter(table, def, atlas, denseRender, variant), def.id, variant,
                           RefreshedVariant(def, variant), atlas, denseRender)
            == TableAfter(table, def, atlas, denseRender, variant + 1)
  {
  }

  /** The models map once refresh(def) has handled the variants below
      `upTo`, every custom model among them found. */
  function ModelsAfter(models: map<nat, Model>, def: Block, atlas: Atlas, assets: map<string, Model>,
                       uvApply: (UVRegion, UV) -> UV, upTo: nat): map<nat, Model>
    requires WellFormedBlock(def)
  {
    if upTo == 0 then models
    else
      var before := ModelsAfter(models, def, atlas, assets, uvApply, upTo - 1);
      var v := upTo - 1;
      if Refreshed(def, v) && RefreshedVariant(def, v).model.kind == Custom && RefreshedVariant(def, v).model.name in assets
      then before[ModelKey(def.id, v) := RemapModel(assets[RefreshedVariant(def, v).model.name], atlas, uvApply)]
      else before
  }

  /** Every refreshed custom variant's key holds its remapped model. */
  lemma {:induction false} ModelsAfterHolds(models: map<nat, Model>, def: Block, atlas: Atlas, assets: map<string, Model>,
                                            uvApply: (UVRegion, UV) -> UV, upTo: nat, variant: nat)
    requires WellFormedBlock(def) && variant < upTo && Refreshed(def, variant)
    requires RefreshedVariant(def, variant).model.kind == Custom && RefreshedVariant(def, variant).model.name in assets
    ensures variant < 0x100
    ensures ModelKey(def.id, variant) in ModelsAfter(models, def, atlas, assets, uvApply, upTo)
    ensures ModelsAfter(models, def, atlas, assets, uvApply, upTo)[ModelKey(def.id, variant)]
            == RemapModel(assets[RefreshedVariant(def, variant).model.name], atlas, uvApply)
  {
    if variant < upTo - 1 {
      ModelsAfterHolds(models, def, atlas, assets, uvApply, upTo - 1, variant);
      if Refreshed(def, upTo - 1) {
        ModelKeyInjective(def.id, variant, def.id, upTo - 1);
      }
    }
  }

  /** Keys of other blocks are left alone. */
  lemma {:induction false} ModelsAfterKeepsOthers(models: map<nat, Model>, def: Block, atlas: Atlas, assets: map<string, Model>,
                                                  uvApply: (UVRegion, UV) -> UV, upTo: nat, key: nat)
    requires WellFormedBlock(def) && key in models && key / 256 != def.id
    ensures key in ModelsAfter(models, def, atlas, assets, uvApply, upTo)
    ensures ModelsAfter(models, def, atlas, assets, uvApply, upTo)[key] == models[key]
  {
    if upTo > 0 {
      ModelsAfterKeepsOthers(models, def, atlas, assets, uvApply, upTo - 1, key);
      if Refreshed(def, upTo - 1) {
        ModelKeyFields(def.id, upTo - 1);
      }
    }
  }

  class ContentGfxCache {
    /** settings.denseRender. */
    const denseRender: bool
    /** The loaded model assets by name. */
    const modelAssets: map<string, Model>
    /** UVRegion::apply, which is not part of this model. */
    const uvApply: (UVRegion, UV) -> UV

    var sideregions: array<UVRegion>
    var models: map<nat, Model>

    constructor (denseRender: bool, modelAssets: map<string, Model>, uvApply: (UVRegion, UV) -> UV)
      ensures this.denseRender == denseRender && this.modelAssets == modelAssets && this.uvApply == uvApply
      ensures sideregions.Length == 0 && models == map[]
    {
      this.denseRender, this.modelAssets, this.uvApply := denseRender, modelAssets, uvApply;
      sideregions := new UVRegion[0];
      models := map[];
    }

    /** getRegion: the normal slot for the dense pass, the opaque slot
        otherwise. */
    function GetRegion(id: nat, variant: nat, side: nat, dense: bool): UVRegion
      reads this, sideregions
      requires RegionIndex(id, variant, side, !dense) < sideregions.Length
    {
      sideregions[RegionIndex(id, variant, side, !dense)]
    }

    /** getModel: throws when no model is stored under the key. */
    function GetModel(id: BlockId, variant: uint8): (r: Result<Model, CacheError>)
      reads this
      ensures r.Failure? <==> ModelKey(id, variant) !in models
      ensures r.Failure? ==> r.error == ModelNotFound
      ensures r.Success? ==> r.value == models[ModelKey(id, variant)]
    {
      var key := ModelKey(id, variant);
      if key in models then Success(models[key]) else Failure(ModelNotFound)
    }

    /** The side loop of refreshVariant: for each side the resolved
        texture's region in the normal slot and the resolved opaque
        texture's in the slot after it. */
    method WriteSides(id: nat, variant: Variant, variantIndex: uint8, atlas: Atlas)
      requires WellFormedVariant(variant) && TEXTURE_NOTFOUND in atlas
      requires variantIndex < MAX_VARIANTS && id < sideregions.Length / SLOTS_PER_BLOCK
      modifies sideregions
      ensures sideregions[..] == SidesWritten(old(sideregions[..]), id, variantIndex, variant, atlas, denseRender, SIDES)
    {
      ghost var table := sideregions[..];
      var side := 0;
      while side < SIDES
        invariant side <= SIDES
        invariant sideregions[..] == SidesWritten(table, id, variantIndex, variant, atlas, denseRender, side)
      {
        var f := ResolveFace(variant.textureFaces[side], atlas, variant.culling, denseRender);
        var index := RegionIndex(id, variantIndex, side, false);
        RegionIndexInTable(sideregions.Length / SLOTS_PER_BLOCK, id, variantIndex, side, true);
        SidesWrittenStep(table, id, variantIndex, variant, atlas, denseRender, side);
        sideregions[index] := atlas[f.tex];
        sideregions[index + 1] := atlas[f.texOpaque];
        side := side + 1;
      }
    }

    /** refreshVariant: writes exactly the 12 slots of (def.id, variantIndex)
        and, for a custom model, stores the remapped model. */
    method RefreshVariant(def: Block, variant: Variant, variantIndex: uint8, atlas: Atlas)
      returns (outcome: Outcome<CacheError>)
      requires WellFormedVariant(variant) && TEXTURE_NOTFOUND in atlas
      requires variantIndex < MAX_VARIANTS && def.id < sideregions.Length / SLOTS_PER_BLOCK
      modifies this`models, sideregions
      ensures sideregions == old(sideregions)
      ensures forall side: nat, isOpaque: bool :: side < SIDES ==>
                sideregions[RegionIndex(def.id, variantIndex, side, isOpaque)] == SlotRegion(atlas, variant, side, isOpaque, denseRender)
      ensures forall k :: 0 <= k < sideregions.Length && !(SlotOf(k).id == def.id && SlotOf(k).variant == variantIndex) ==>
                sideregions[k] == old(sideregions[k])
      ensures sideregions[..] == VariantWritten(old(sideregions[..]), def.id, variantIndex, variant, atlas, denseRender)
      ensures outcome.Fail? <==> variant.model.kind == Custom && variant.model.name !in modelAssets
      ensures outcome.Fail? ==> outcome.error == ModelMissing(variant.model.name) && models == old(models)
      ensures outcome.Pass? && variant.model.kind != Custom ==> models == old(models)
      ensures outcome.Pass? && variant.model.kind == Custom ==>
                models == old(models)[ModelKey(def.id, variantIndex) := RemapModel(modelAssets[variant.model.name], atlas, uvApply)]
    {
      ghost var table := sideregions[..];
      WriteSides(def.id, variant, variantIndex, atlas);
      SidesWrittenAll(table, def.id, variantIndex, variant, atlas, denseRender);
      if variant.model.kind == Custom {
        if variant.model.name !in modelAssets {
          return Fail(ModelMissing(variant.model.name));
        }
        var model := RemapModelUVs(modelAssets[variant.model.name], atlas, uvApply);
        models := models[ModelKey(def.id, variantIndex) := model];
      }
      outcome := Pass;
    }

    /** refresh(def, atlas): the defaults as variant 0, variants 1 .. size-2,
        then variants[0] is overwritten with the defaults. Only the slots
        and model keys of `def` change, also when a model is missing. */
    method RefreshBlock(def: Block, atlas: Atlas) returns (updated: Block, outcome: Outcome<CacheError>)
      requires WellFormedBlock(def) && TEXTURE_NOTFOUND in atlas
      requires def.id < sideregions.Length / SLOTS_PER_BLOCK
      modifies this`models, sideregions
      ensures sideregions == old(sideregions)
      ensures forall k :: 0 <= k < sideregions.Length && !WrittenBy(def, k) ==> sideregions[k] == old(sideregions[k])
      ensures forall key :: key in old(models) && key / 256 != def.id ==>
                key in models && models[key] == old(models)[key]
      ensures outcome.Pass? ==>
                forall k :: 0 <= k < sideregions.Length && WrittenBy(def, k) ==>
                  sideregions[k] == RefreshedRegion(def, atlas, denseRender, k)
      ensures outcome.Pass? ==>
                forall variant: nat :: Refreshed(def, variant) && RefreshedVariant(def, variant).model.kind == Custom ==>
                  RefreshedVariant(def, variant).model.name in modelAssets && variant < 0x100 &&
                  ModelKey(def.id, variant) in models &&
                  models[ModelKey(def.id, variant)] == RemapModel(modelAssets[RefreshedVariant(def, variant).model.name], atlas, uvApply)
      ensures def.variants == Some([]) ==> outcome.Fail?
      ensures outcome.Fail? ==>
                || (outcome.error == NoVariants && def.variants == Some([]))
                || exists variant: nat :: Refreshed(def, variant) && RefreshedVariant(def, variant).model.kind == Custom &&
                     RefreshedVariant(def, variant).model.name !in modelAssets
      ensures outcome.Pass? ==> updated == RefreshedDefinition(def)
    {
      updated := def;
      ghost var table := sideregions[..];
      ghost var before := models;
      assert TableAfter(table, def, atlas, denseRender, 0) == table;
      outcome := RefreshVariant(def, def.defaults, 0, atlas);
      TableAfterStep(table, def, atlas, denseRender, 0);
      if outcome.Fail? {
        assert Refreshed(def, 0) && RefreshedVariant(def, 0) == def.defaults;
        return;
      }
      var i := 1;
      var last := if def.variants.Some? then VariantLoopBound(|def.variants.value|) else 0;
      while i < last
        invariant 1 <= i && (i == 1 || i <= last) && outcome.Pass?
        invariant sideregions == old(sideregions)
        invariant sideregions[..] == TableAfter(table, def, atlas, denseRender, i)
        invariant models == ModelsAfter(before, def, atlas, modelAssets, uvApply, i)
        invariant forall variant: nat :: variant < i && Refreshed(def, variant) && RefreshedVariant(def, variant).model.kind == Custom ==>
                    RefreshedVariant(def, variant).model.name in modelAssets
      {
        var variant := def.variants.value[i];
        assert variant in def.variants.value;
        outcome := RefreshVariant(def, variant, i, atlas);
        TableAfterStep(table, def, atlas, denseRender, i);
        if outcome.Fail? {
          assert Refreshed(def, i) && RefreshedVariant(def, i) == variant;
          forall key | key in before && key / 256 != def.id
            ensures key in models && models[key] == before[key]
          {
            ModelsAfterKeepsOthers(before, def, atlas, modelAssets, uvApply, i, key);
          }
          return;
        }
        i := i + 1;
      }
      forall key | key in before && key / 256 != def.id
        ensures key in models && models[key] == before[key]
      {
        ModelsAfterKeepsOthers(before, def, atlas, modelAssets, uvApply, i, key);
      }
      forall variant: nat | Refreshed(def, variant) && RefreshedVariant(def, variant).model.kind == Custom
        ensures RefreshedVariant(def, variant).model.name in modelAssets && variant < 0x100 &&
                ModelKey(def.id, variant) in models &&
                models[ModelKey(def.id, variant)] == RemapModel(modelAssets[RefreshedVariant(def, variant).model.name], atlas, uvApply)
      {
        ModelsAfterHolds(before, def, atlas, modelAssets, uvApply, i, variant);
      }
      if def.variants.Some? {
        if |def.variants.value| == 0 {
          return def, Fail(NoVariants);
        }
        updated := def.(variants := Some(def.variants.value[0 := def.defaults]));
      }
    }

    /** refresh(): a fresh table of count * 192 slots, then refresh(def) for
        every block in id order, stopping at the first missing model.
        Models stored before are kept unless a refreshed block overwrites
        them. */
    method Refresh(blocks: seq<Block>, atlas: Atlas) returns (updated: seq<Block>, outcome: Outcome<CacheError>)
      requires TEXTURE_NOTFOUND in atlas
      requires forall i :: 0 <= i < |blocks| ==> blocks[i].id == i && WellFormedBlock(blocks[i])
      modifies this
      ensures fresh(sideregions) && sideregions.Length == |blocks| * SLOTS_PER_BLOCK
      ensures forall key :: key in old(models) && key / 256 >= |blocks| ==> key in models && models[key] == old(models)[key]
      ensures outcome.Pass? ==> forall i :: 0 <= i < |blocks| ==> blocks[i].variants != Some([])
      ensures outcome.Pass? ==>
                |updated| == |blocks| && forall i :: 0 <= i < |blocks| ==> updated[i] == RefreshedDefinition(blocks[i])
      ensures outcome.Pass? ==>
                forall k :: 0 <= k < sideregions.Length && SlotOf(k).id < |blocks| && WrittenBy(blocks[SlotOf(k).id], k) ==>
                  sideregions[k] == RefreshedRegion(blocks[SlotOf(k).id], atlas, denseRender, k)
      ensures outcome.Pass? ==>
                forall i, variant: nat :: 0 <= i < |blocks| && Refreshed(blocks[i], variant) &&
                                          RefreshedVariant(blocks[i], variant).model.kind == Custom ==>
                  RefreshedVariant(blocks[i], variant).model.name in modelAssets && variant < 0x100 &&
                  ModelKey(i, variant) in models &&
                  models[ModelKey(i, variant)] == RemapModel(modelAssets[RefreshedVariant(blocks[i], variant).model.name], atlas, uvApply)
      ensures outcome.Fail? ==>
                || (outcome.error == NoVariants && exists i :: 0 <= i < |blocks| && blocks[i].variants == Some([]))
                || exists i, variant: nat :: 0 <= i < |blocks| && Refreshed(blocks[i], variant) &&
                     RefreshedVariant(blocks[i], variant).model.kind == Custom &&
                     RefreshedVariant(blocks[i], variant).model.name !in modelAssets
    {
      sideregions := new UVRegion[|blocks| * SLOTS_PER_BLOCK];
      updated := [];
      outcome := Pass;
      var i := 0;
      while i < |blocks|
        invariant i <= |blocks| && fresh(sideregions) && sideregions.Length == |blocks| * SLOTS_PER_BLOCK
        invariant forall j :: 0 <= j < i ==> blocks[j].variants != Some([])
        invariant |updated| == i && forall j :: 0 <= j < i ==> updated[j] == RefreshedDefinition(blocks[j])
        invariant forall k :: 0 <= k < sideregions.Length && SlotOf(k).id < i && WrittenBy(blocks[SlotOf(k).id], k) ==>
                    sideregions[k] == RefreshedRegion(blocks[SlotOf(k).id], atlas, denseRender, k)
        invariant forall key :: key in old(models) && key / 256 >= i ==> key in models && models[key] == old(models)[key]
        invariant forall j, variant: nat :: 0 <= j < i && Refreshed(blocks[j], variant) &&
                                            RefreshedVariant(blocks[j], variant).model.kind == Custom ==>
                    RefreshedVariant(blocks[j], variant).model.name in modelAssets && variant < 0x100 &&
                    ModelKey(j, variant) in models &&
                    models[ModelKey(j, variant)] == RemapModel(modelAssets[RefreshedVariant(blocks[j], variant).model.name], atlas, uvApply)
      {
        forall j, variant: nat | 0 <= j < i && Refreshed(blocks[j], variant) && RefreshedVariant(blocks[j], variant).model.kind == Custom
          ensures ModelKey(j, variant) / 256 == j
        {
          assert variant < 0x100;
          ModelKeyFields(j, variant);
        }
        var def, o := RefreshBlock(blocks[i], atlas);
        if o.Fail? {
          outcome := o;
          return;
        }
        updated := updated + [def];
        i := i + 1;
      }
    }
  }

  /** After refreshVariant, getRegion in the dense pass reads the side's
      resolved texture and outside it the resolved opaque texture. */
  lemma GetRegionAfterRefresh(c: ContentGfxCache, table: seq<UVRegion>, id: nat, variant: Variant, variantIndex: uint8,
                              atlas: Atlas, side: nat)
    requires WellFormedVariant(variant) && TEXTURE_NOTFOUND in atlas
    requires variantIndex < MAX_VARIANTS && side < SIDES && id < c.sideregions.Length / SLOTS_PER_BLOCK
    requires c.sideregions[..] == VariantWritten(table, id, variantIndex, variant, atlas, c.denseRender)
    ensures c.GetRegion(id, variantIndex, side, true) == SlotRegion(atlas, variant, side, false, c.denseRender)
    ensures c.GetRegion(id, variantIndex, side, false) == SlotRegion(atlas, variant, side, true, c.denseRender)
  {
    var written := VariantWritten(table, id, variantIndex, variant, atlas, c.denseRender);
    var normal, opaqueSlot := RegionIndex(id, variantIndex, side, false), RegionIndex(id, variantIndex, side, true);
    RegionIndexInTable(c.sideregions.Length / SLOTS_PER_BLOCK, id, variantIndex, side, true);
    RegionIndexRoundTrip(id, variantIndex, side, false);
    RegionIndexRoundTrip(id, variantIndex, side, true);
    assert c.sideregions[normal] == written[normal] == SlotRegion(atlas, variant, side, false, c.denseRender);
    assert c.sideregions[opaqueSlot] == written[opaqueSlot] == SlotRegion(atlas, variant, side, true, c.denseRender);
  }
}
