/** The block and voxel data the graphics cache and the mesh builder read.
    Block.hpp and voxel.hpp are not part of this model: only the fields the
    modelled code touches are kept. */
module Blocks {
  import opened Wrappers

  /** blockid_t, 16-bit unsigned. */
  type BlockId = x: int | 0 <= x < 0x1_0000

  type uint8 = x: int | 0 <= x < 0x100

  /** The highest block id marks a voxel whose chunk is not loaded. */
  const BLOCK_VOID: BlockId := 0xFFFF

  /** Air. */
  const BLOCK_AIR: BlockId := 0

  /** The modelled code only asks whether a variant's culling is OPTIONAL;
      the other modes all behave as Default. */
  datatype CullingMode = Default | Optional

  /** BlockModelType: BLOCK (a full cube), XSPRITE, AABB, CUSTOM, and the
      kinds the renderer draws nothing for. */
  datatype ModelType = Cube | XSprite | AABB | Custom | NoModel

  datatype BlockModel = BlockModel(kind: ModelType, name: string)

  /** One shape variant of a block. */
  datatype Variant = Variant(
    textureFaces: seq<string>,
    culling: CullingMode,
    model: BlockModel,
    drawGroup: uint8)

  /** A variant names one texture per side. */
  predicate WellFormedVariant(v: Variant)
  {
    |v.textureFaces| == 6
  }

  /** A block definition. `variantIndexOf` is Block::getVariantIndex, which
      selects a variant from a voxel's user bits; it is kept abstract. */
  datatype Block = Block(
    id: BlockId,
    defaults: Variant,
    variants: Option<seq<Variant>>,
    variantIndexOf: nat -> uint8,
    translucent: bool,
    shadeless: bool,
    ambientOcclusion: bool,
    lightPassing: bool)
  {
    /** Block::getVariant: variant 0, a block without variants and an index
        past the list all give the defaults. */
    function GetVariant(index: uint8): (v: Variant)
      ensures v == defaults || (variants.Some? && v in variants.value)
      ensures variants.Some? && 0 < index < |variants.value| ==> v == variants.value[index]
    {
      if index == 0 || variants.None? || index >= |variants.value| then defaults
      else variants.value[index]
    }

    function VariantByBits(userbits: nat): Variant
    {
      GetVariant(variantIndexOf(userbits))
    }
  }

  datatype BlockState = BlockState(rotation: nat, userbits: nat, segment: bool)

  datatype Voxel = Voxel(id: BlockId, state: BlockState)

  /** Exact stand-in for the renderer's float vectors. */
  datatype Vec3 = Vec3(x: real, y: real, z: real)
}
