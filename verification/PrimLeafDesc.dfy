/** The header of triangle, quad and procedural leaves (rtbuild/leaf.h:74-153):
    the constructor admits geometry IDs of 30 bits, the field keeps 29. */
module PrimLeafDesc {
  const MAX_GEOM_INDEX: nat := 0x3FFF_FFFF
  const GEOM_INDEX_RANGE: nat := 0x2000_0000

  /** The part of a geometry ID that a header keeps. */
  function GeomIndex(geomID: nat): nat {
    geomID % GEOM_INDEX_RANGE
  }

  /** The other admitted ID with the same index. */
  function Twin(geomID: nat): nat {
    if geomID < GEOM_INDEX_RANGE then geomID + GEOM_INDEX_RANGE else geomID - GEOM_INDEX_RANGE
  }

  /** The masks of the geometries 0 to count - 1. */
  datatype Masks = Masks(of: nat -> bv8, count: nat)

  /** The mask of a geometry, or of its twin where the scene has one. */
  predicate MaskStored(masks: Masks, geomID: nat, mask: bv8) {
    mask == masks.of(geomID) || (Twin(geomID) < masks.count && mask == masks.of(Twin(geomID)))
  }

  /** Headers are compared by index, so geometries of the same index share one. */
  lemma SharedMask(masks: Masks, g: nat, h: nat, mask: bv8)
    requires g <= MAX_GEOM_INDEX && h <= MAX_GEOM_INDEX && GeomIndex(g) == GeomIndex(h)
    requires g < masks.count && h < masks.count && MaskStored(masks, g, mask)
    ensures MaskStored(masks, h, mask)
  {
    assert g == h || g == Twin(h);
  }

  /** Up to 2^29 geometries the mask is exact. */
  lemma ExactMask(masks: Masks, geomID: nat, mask: bv8)
    requires masks.count <= GEOM_INDEX_RANGE && geomID < masks.count && MaskStored(masks, geomID, mask)
    ensures mask == masks.of(geomID) && GeomIndex(geomID) == geomID
  {
  }
}
