/**
 * `FTransform`: a translation, a rotation, a scale and a non-owning parent
 * pointer. The vector and quaternion types and their arithmetic belong to
 * the engine's math library, which is not part of this model: they are
 * abstract types and uninterpreted operations, so what is verified here is
 * which fields each operation writes and with what.
 */
module Transforms {

  /** `Vector3f`. */
  type Vector3f(==,0,!new)
  /** `FQuaternion`. */
  type Quaternion(==,0,!new)

  /** `Vector3f()`, the value-initialised vector. */
  const DefaultVector: Vector3f
  /** `Vector3f(1.0f, 1.0f, 1.0f)`. */
  const UnitScale: Vector3f
  /** `FQuaternion()`, the value-initialised quaternion. */
  const DefaultRotation: Quaternion

  /** `Quaternion * Vector3f`: the vector rotated. */
  const Rotated: (Quaternion, Vector3f) -> Vector3f
  /** `Vector3f += Vector3f`. */
  const VectorSum: (Vector3f, Vector3f) -> Vector3f
  /** `FQuaternion *= FQuaternion`. */
  const QuaternionProduct: (Quaternion, Quaternion) -> Quaternion

  /** `==` and `!=` of the math types, as the math library defines them. */
  const VectorEq: (Vector3f, Vector3f) -> bool
  const VectorNe: (Vector3f, Vector3f) -> bool
  const QuaternionEq: (Quaternion, Quaternion) -> bool
  const QuaternionNe: (Quaternion, Quaternion) -> bool

  class Transform {
    var translation: Vector3f
    var rotation: Quaternion
    var scale: Vector3f
    /** A non-owning pointer; null for a root transform. */
    var parent: Transform?

    /** `FTransform()`: at the origin, unrotated, unit scale, no parent. */
    constructor ()
      ensures translation == DefaultVector && rotation == DefaultRotation
      ensures scale == UnitScale && parent == null
    {
      translation := DefaultVector;
      rotation := DefaultRotation;
      scale := UnitScale;
      parent := null;
    }

    /** `FTransform(Position)`: at `position`, unrotated, unit scale, no parent. */
    constructor At(position: Vector3f)
      ensures translation == position && rotation == DefaultRotation
      ensures scale == UnitScale && parent == null
    {
      translation := position;
      rotation := DefaultRotation;
      scale := UnitScale;
      parent := null;
    }

    /** `FTransform(const FTransform&)`: all four fields of `other`, sharing its parent. */
    constructor Copy(other: Transform)
      ensures translation == other.translation && rotation == other.rotation
      ensures scale == other.scale && parent == other.parent
    {
      translation := other.translation;
      rotation := other.rotation;
      scale := other.scale;
      parent := other.parent;
    }

    /** `operator=`: takes all four fields of `other` and returns this transform. */
    method Assign(other: Transform) returns (self: Transform)
      modifies this
      ensures self == this
      ensures translation == old(other.translation) && rotation == old(other.rotation)
      ensures scale == old(other.scale) && parent == old(other.parent)
    {
      translation := other.translation;
      rotation := other.rotation;
      scale := other.scale;
      parent := other.parent;
      self := this;
    }

    function GetPosition(): (r: Vector3f)
      reads this
      ensures r == translation
    {
      translation
    }

    function GetRotation(): (r: Quaternion)
      reads this
      ensures r == rotation
    {
      rotation
    }

    function GetScale(): (r: Vector3f)
      reads this
      ensures r == scale
    {
      scale
    }

    function GetParent(): (r: Transform?)
      reads this
      ensures r == parent
    {
      parent
    }

    method SetPosition(position: Vector3f)
      modifies this`translation
      ensures GetPosition() == position
    {
      translation := position;
    }

    /** Moves by `offset` expressed in the transform's own rotated frame. */
    method Translate(offset: Vector3f)
      modifies this`translation
      ensures translation == VectorSum(old(translation), Rotated(rotation, offset))
    {
      translation := VectorSum(translation, Rotated(rotation, offset));
    }

    method SetRotation(newRotation: Quaternion)
      modifies this`rotation
      ensures GetRotation() == newRotation
    {
      rotation := newRotation;
    }

    /** Composes `delta` onto the current rotation, on the right. */
    method Rotate(delta: Quaternion)
      modifies this`rotation
      ensures rotation == QuaternionProduct(old(rotation), delta)
    {
      rotation := QuaternionProduct(rotation, delta);
    }

    method SetScale(newScale: Vector3f)
      modifies this`scale
      ensures GetScale() == newScale
    {
      scale := newScale;
    }

    method SetParent(newParent: Transform?)
      modifies this`parent
      ensures GetParent() == newParent
    {
      parent := newParent;
    }
  }

  /**
   * `operator==`: the same parent pointer and equal position, rotation and
   * scale. A transform equals itself when the math types' `==` is reflexive.
   */
  function Equal(lhs: Transform, rhs: Transform): (r: bool)
    reads lhs, rhs
    ensures r ==> lhs.parent == rhs.parent
    ensures lhs == rhs && (forall v :: VectorEq(v, v)) && (forall q :: QuaternionEq(q, q)) ==> r
  {
    && lhs.GetParent() == rhs.GetParent()
    && VectorEq(lhs.GetPosition(), rhs.GetPosition())
    && QuaternionEq(lhs.GetRotation(), rhs.GetRotation())
    && VectorEq(lhs.GetScale(), rhs.GetScale())
  }

  /**
   * `operator!=`: a different parent pointer, or some field that compares
   * unequal. A transform is never unequal to itself when the math types'
   * `!=` is irreflexive.
   */
  function NotEqual(lhs: Transform, rhs: Transform): (r: bool)
    reads lhs, rhs
    ensures lhs.parent != rhs.parent ==> r
    ensures lhs == rhs && (forall v :: !VectorNe(v, v)) && (forall q :: !QuaternionNe(q, q)) ==> !r
  {
    || lhs.GetParent() != rhs.GetParent()
    || VectorNe(lhs.GetPosition(), rhs.GetPosition())
    || QuaternionNe(lhs.GetRotation(), rhs.GetRotation())
    || VectorNe(lhs.GetScale(), rhs.GetScale())
  }

  /** `!=` negates `==` on transforms whenever it does so on vectors and quaternions. */
  lemma NotEqualNegatesEqual(lhs: Transform, rhs: Transform)
    requires forall u, v :: VectorNe(u, v) == !VectorEq(u, v)
    requires forall p, q :: QuaternionNe(p, q) == !QuaternionEq(p, q)
    ensures NotEqual(lhs, rhs) <==> !Equal(lhs, rhs)
  {
  }

  /** A copy compares equal to its original whenever the math types' `==` is reflexive. */
  method CopyIsEqual(original: Transform) returns (copy: Transform)
    requires forall v :: VectorEq(v, v)
    requires forall q :: QuaternionEq(q, q)
    ensures fresh(copy) && Equal(copy, original)
  {
    copy := new Transform.Copy(original);
  }
}
