/**
 * The `ISystem` base class: a component-type interest mask, an identity
 * mask stamped by the system manager, and the ordered list of IDs of the
 * game objects the system currently processes.
 */
module Systems {
  import opened Bits

  /** `FGameObject::ID`. */
  type ObjectId(==)

  /** What `CheckInterest` reads of an `FGameObject`: its ID and the bits of the component kinds it owns. */
  datatype GameObject = GameObject(id: ObjectId, components: Mask)

  /** No element occurs twice. */
  predicate Distinct<T(==)>(s: seq<T>)
  {
    forall i, j :: 0 <= i < j < |s| ==> s[i] != s[j]
  }

  /** `s` with every occurrence of `x` dropped, the others in their order. */
  function Without<T(==)>(s: seq<T>, x: T): (r: seq<T>)
    ensures forall y :: y in r ==> y in s && y != x
    ensures forall y :: y in s && y != x ==> y in r
    ensures x !in s ==> r == s
    ensures Distinct(s) ==> Distinct(r)
  {
    if s == [] then []
    else if s[0] == x then Without(s[1..], x)
    else
      var rest := Without(s[1..], x);
      assert Distinct(s) ==> s[0] !in s[1..] && Distinct(s[1..]);
      assert Distinct([s[0]] + rest) <== s[0] !in rest && Distinct(rest);
      [s[0]] + rest
  }

  /** `vector::erase(begin() + i)`: the entry at `i` goes, later entries shift down by one. */
  function RemoveAt<T>(s: seq<T>, i: nat): (r: seq<T>)
    requires i < |s|
    ensures |r| == |s| - 1
    ensures forall j :: 0 <= j < i ==> r[j] == s[j]
    ensures forall j :: i <= j < |r| ==> r[j] == s[j + 1]
  {
    s[..i] + s[i + 1..]
  }

  /** In a list without duplicates, erasing the found entry is dropping that ID. */
  lemma {:induction false} RemoveAtIsWithout<T>(s: seq<T>, i: nat)
    requires Distinct(s) && i < |s|
    ensures RemoveAt(s, i) == Without(s, s[i])
  {
    if i == 0 {
      assert s[0] !in s[1..];
      assert RemoveAt(s, 0) == s[1..];
    } else {
      assert Distinct(s[1..]);
      RemoveAtIsWithout(s[1..], i - 1);
      assert RemoveAt(s, i) == [s[0]] + RemoveAt(s[1..], i - 1);
      assert s[1..][i - 1] == s[i];
    }
  }

  /** Dropping `x` distributes over concatenation. */
  lemma {:induction false} WithoutAppend<T>(s: seq<T>, t: seq<T>, x: T)
    ensures Without(s + t, x) == Without(s, x) + Without(t, x)
  {
    if s == [] {
      assert s + t == t;
    } else {
      var st := s + t;
      assert st[0] == s[0] && st[1..] == s[1..] + t;
      WithoutAppend(s[1..], t, x);
      if s[0] == x {
        calc {
          Without(st, x);
          Without(s[1..] + t, x);
          Without(s[1..], x) + Without(t, x);
          Without(s, x) + Without(t, x);
        }
      } else {
        calc {
          Without(st, x);
          [s[0]] + Without(s[1..] + t, x);
          [s[0]] + (Without(s[1..], x) + Without(t, x));
          ([s[0]] + Without(s[1..], x)) + Without(t, x);
          Without(s, x) + Without(t, x);
        }
      }
    }
  }

  /** `std::find`: the first position of `x` in `s`, or `|s|` if there is none. */
  method Find<T(==)>(s: seq<T>, x: T) returns (i: nat)
    ensures i <= |s|
    ensures i < |s| ==> s[i] == x
    ensures forall j :: 0 <= j < i ==> s[j] != x
    ensures i == |s| <==> x !in s
  {
    i := 0;
    while i < |s| && s[i] != x
      invariant i <= |s|
      invariant forall j :: 0 <= j < i ==> s[j] != x
    {
      i := i + 1;
    }
  }

  /**
   * The subscription list after `CheckInterest(obj)` by a system whose
   * interest mask is `interest`: an object that owns every required kind is
   * appended unless it is already listed; one that does not is dropped.
   */
  function Rechecked(ids: seq<ObjectId>, interest: Mask, obj: GameObject): (r: seq<ObjectId>)
    ensures obj.id in r <==> Covers(obj.components, interest)
    ensures forall y :: y in ids && y != obj.id ==> y in r
    ensures forall y :: y in r && y != obj.id ==> y in ids
    ensures Distinct(ids) ==> Distinct(r)
  {
    if Covers(obj.components, interest) then
      if obj.id in ids then ids else ids + [obj.id]
    else
      Without(ids, obj.id)
  }

  /** Re-checking only touches the checked object's entry: every other ID keeps its place in the order. */
  lemma RecheckedKeepsOthers(ids: seq<ObjectId>, interest: Mask, obj: GameObject)
    ensures Without(Rechecked(ids, interest, obj), obj.id) == Without(ids, obj.id)
  {
    if Covers(obj.components, interest) && obj.id !in ids {
      WithoutAppend(ids, [obj.id], obj.id);
      assert Without([obj.id], obj.id) == [];
    }
  }

  /** A second re-check of an unchanged object changes nothing. */
  lemma RecheckedIdempotent(ids: seq<ObjectId>, interest: Mask, obj: GameObject)
    ensures Rechecked(Rechecked(ids, interest, obj), interest, obj) == Rechecked(ids, interest, obj)
  {
  }

  /**
   * The subscription list after the system re-checks `objs`, in order: one
   * re-check per component added to or removed from an object.
   */
  function RecheckAll(ids: seq<ObjectId>, interest: Mask, objs: seq<GameObject>): seq<ObjectId>
    decreases |objs|
  {
    if objs == [] then ids
    else RecheckAll(Rechecked(ids, interest, objs[0]), interest, objs[1..])
  }

  /** Re-checks never introduce a duplicate. */
  lemma {:induction false} RecheckAllKeepsDistinct(ids: seq<ObjectId>, interest: Mask, objs: seq<GameObject>)
    requires Distinct(ids)
    ensures Distinct(RecheckAll(ids, interest, objs))
    decreases |objs|
  {
    if objs != [] {
      RecheckAllKeepsDistinct(Rechecked(ids, interest, objs[0]), interest, objs[1..]);
    }
  }

  /** An object that is never re-checked keeps its membership. */
  lemma {:induction false} RecheckAllUnchecked(ids: seq<ObjectId>, interest: Mask, objs: seq<GameObject>, y: ObjectId)
    requires forall k :: 0 <= k < |objs| ==> objs[k].id != y
    ensures y in RecheckAll(ids, interest, objs) <==> y in ids
    decreases |objs|
  {
    if objs != [] {
      assert objs[0].id != y;
      assert forall j :: 0 <= j < |objs| - 1 ==> objs[1..][j].id == objs[j + 1].id;
      RecheckAllUnchecked(Rechecked(ids, interest, objs[0]), interest, objs[1..], y);
    }
  }

  /**
   * After any sequence of re-checks, an object is subscribed exactly when
   * its last re-check (`objs[k]`) found it owning every required kind.
   */
  lemma {:induction false} RecheckAllFollowsLastCheck(ids: seq<ObjectId>, interest: Mask, objs: seq<GameObject>, k: nat)
    requires k < |objs|
    requires forall j :: k < j < |objs| ==> objs[j].id != objs[k].id
    ensures objs[k].id in RecheckAll(ids, interest, objs) <==> Covers(objs[k].components, interest)
    decreases |objs|
  {
    var next := Rechecked(ids, interest, objs[0]);
    assert forall j :: 0 <= j < |objs| - 1 ==> objs[1..][j] == objs[j + 1];
    if k == 0 {
      RecheckAllUnchecked(next, interest, objs[1..], objs[0].id);
    } else {
      RecheckAllFollowsLastCheck(next, interest, objs[1..], k - 1);
    }
  }

  /**
   * The type mask of a system whose constructor called `AddComponentType`
   * for each kind of `kinds`, in that order, starting from the empty bitset.
   */
  function MaskOf(kinds: seq<ComponentType>): Mask
  {
    if kinds == [] then {}
    else MaskOf(kinds[..|kinds| - 1]) + ComponentBitMask(kinds[|kinds| - 1])
  }

  /** The accumulated mask is the union of the bits of the added kinds. */
  lemma {:induction false} MaskOfIsUnion(kinds: seq<ComponentType>)
    ensures forall b :: b in MaskOf(kinds) <==> exists k :: k in kinds && b in ComponentBitMask(k)
  {
    if kinds != [] {
      var init := kinds[..|kinds| - 1];
      MaskOfIsUnion(init);
      assert kinds == init + [kinds[|kinds| - 1]];
    }
  }

  /** The mask depends only on which kinds were added, not on their order or repetition. */
  lemma MaskOfOrderIndependent(a: seq<ComponentType>, b: seq<ComponentType>)
    requires forall k :: k in a <==> k in b
    ensures MaskOf(a) == MaskOf(b)
  {
    MaskOfIsUnion(a);
    MaskOfIsUnion(b);
  }

  /** Adding the same kind twice gives the mask of adding it once. */
  lemma AddComponentTypeIdempotent(kinds: seq<ComponentType>, k: ComponentType)
    ensures MaskOf(kinds + [k, k]) == MaskOf(kinds + [k])
  {
    assert (kinds + [k, k])[..|kinds| + 1] == kinds + [k];
  }

  class System {
    /** The concrete system type, standing in for `typeid(*System)`. */
    const kind: SystemType
    /** `mTypeBitMask`: the component kinds the system requires. */
    var typeMask: Mask
    /** `mSystemBitMask`: the identity bits, written by the manager. */
    var systemMask: Mask
    /** `mGameObjectIDs`: the objects the system processes. */
    var objectIds: seq<ObjectId>

    /** No object is subscribed twice. */
    ghost predicate Valid()
      reads this
    {
      Distinct(objectIds)
    }

    /** A new system: both masks clear, no objects. */
    constructor (kind: SystemType)
      ensures Valid()
      ensures this.kind == kind
      ensures typeMask == {} && systemMask == {} && objectIds == []
    {
      this.kind := kind;
      typeMask := {};
      systemMask := {};
      objectIds := [];
    }

    /** `mTypeBitMask |= GetBitMask(Type)`: the mask gains the kind's bits and keeps all it had. */
    method AddComponentType(t: ComponentType)
      modifies this`typeMask
      ensures typeMask == old(typeMask) + ComponentBitMask(t)
      ensures old(typeMask) <= typeMask && ComponentBitMask(t) <= typeMask
    {
      typeMask := typeMask + ComponentBitMask(t);
    }

    /** The identity bits, read without changing anything. */
    function GetSystemBitMask(): (r: Mask)
      reads this
      ensures r == systemMask
    {
      systemMask
    }

    /** The interest mask, read without changing anything. */
    function GetTypeBitMask(): (r: Mask)
      reads this
      ensures r == typeMask
    {
      typeMask
    }

    /** The subscribed IDs in order, read without changing anything; a valid system lists none twice. */
    function GetGameObjectIDs(): (r: seq<ObjectId>)
      reads this
      ensures r == objectIds
      ensures Valid() ==> Distinct(r)
    {
      objectIds
    }

    /** Assigns the identity bits; the getter then returns them and nothing else changes. */
    method SetSystemBitMask(bits: Mask)
      modifies this`systemMask
      ensures GetSystemBitMask() == bits
    {
      systemMask := bits;
    }

    /**
     * Subscribes `obj` if it owns every required component kind and drops
     * it otherwise.
     */
    method CheckInterest(obj: GameObject)
      requires Valid()
      modifies this`objectIds
      ensures Valid()
      ensures objectIds == Rechecked(old(objectIds), typeMask, obj)
      ensures obj.id in objectIds <==> Covers(obj.components, typeMask)
    {
      var i := Find(objectIds, obj.id);
      if Covers(obj.components, typeMask) {
        if i == |objectIds| {
          objectIds := objectIds + [obj.id];
        }
      } else if i < |objectIds| {
        RemoveAtIsWithout(objectIds, i);
        objectIds := RemoveAt(objectIds, i);
      }
    }

    /** Drops `obj` from the subscription list; the other IDs keep their order. */
    method RemoveObject(obj: GameObject)
      requires Valid()
      modifies this`objectIds
      ensures Valid()
      ensures objectIds == Without(old(objectIds), obj.id)
      ensures obj.id !in objectIds
    {
      var i := Find(objectIds, obj.id);
      if i < |objectIds| {
        RemoveAtIsWithout(objectIds, i);
        objectIds := RemoveAt(objectIds, i);
      }
    }
  }
}
