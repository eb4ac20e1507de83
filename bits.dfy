/**
 * Bitsets of the entity-component-system and the two registries that hand
 * out bits. `std::bitset<BITSIZE>` is modelled as the set of its set bit
 * positions; the width and both registries live in files that are not part
 * of this model, so they are left uninterpreted here: constants without a
 * defining value, about which nothing is assumed.
 */
module Bits {

  /** A bitset width: a positive compile-time constant. */
  type Width = n: nat | n > 0 witness 1

  /** The width of every mask (`BITSIZE`, defined in Bitsize.h). */
  const BITSIZE: Width

  /** A `std::bitset<BITSIZE>`: the positions of its set bits. */
  type Mask = s: set<nat> | forall b :: b in s ==> b < BITSIZE witness {}

  /** A component kind (`EComponent::Type`). */
  type ComponentType(==)

  /** The dynamic type of a concrete system (what `typeid` distinguishes). */
  type SystemType(==)

  /** `SComponentHandleManager::GetBitMask(Type)`: the bits of a component kind. */
  const ComponentBitMask: ComponentType -> Mask

  /** `SSystemBitManager::GetBitMaskFor(System)`: the identity bits of a system type. */
  const SystemBitMaskFor: SystemType -> Mask

  /**
   * `(Owned & Required) == Required`, the bitwise containment test the
   * subscription rule is phrased in: it holds exactly when every required
   * bit is owned.
   */
  function Covers(owned: Mask, required: Mask): (r: bool)
    ensures r <==> required <= owned
  {
    owned * required == required
  }
}
