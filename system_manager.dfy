/**
 * `FSystemManager`: the ordered collection of registered systems. Systems
 * are appended on registration, found by position or by their concrete
 * type (first match in registration order), and removed by position or by
 * type, later entries moving down one place.
 */
module SystemManagement {
  import opened Bits
  import opened Systems

  /**
   * The position of the first system of type `kind`, or `|systems|` when
   * there is none.
   */
  function IndexOfKind(systems: seq<System>, kind: SystemType): (r: nat)
    ensures r <= |systems|
    ensures r < |systems| ==> systems[r].kind == kind
    ensures forall j :: 0 <= j < r ==> systems[j].kind != kind
  {
    if systems == [] then 0
    else if systems[0].kind == kind then 0
    else 1 + IndexOfKind(systems[1..], kind)
  }

  /** Appending cannot change which system of a type comes first once there is one. */
  lemma {:induction false} IndexOfKindAppend(systems: seq<System>, s: System, kind: SystemType)
    ensures IndexOfKind(systems, kind) < |systems| ==>
              IndexOfKind(systems + [s], kind) == IndexOfKind(systems, kind)
    ensures IndexOfKind(systems, kind) == |systems| ==>
              IndexOfKind(systems + [s], kind) == if s.kind == kind then |systems| else |systems| + 1
  {
    if systems != [] {
      assert (systems + [s])[1..] == systems[1..] + [s];
      IndexOfKindAppend(systems[1..], s, kind);
    }
  }

  /** A list of distinct systems stays distinct after erasing an entry. */
  lemma RemoveAtKeepsDistinct<T>(s: seq<T>, i: nat)
    requires Distinct(s) && i < |s|
    ensures Distinct(RemoveAt(s, i))
  {
  }

  class SystemManager {
    /** `mSystems`, in registration order. */
    var systems: seq<System>

    /** Each system is registered once and keeps its own subscription invariant. */
    ghost predicate Valid()
      reads this, systems
    {
      && Distinct(systems)
      && forall i :: 0 <= i < |systems| ==> systems[i].Valid()
    }

    constructor ()
      ensures Valid() && systems == []
    {
      systems := [];
    }

    /**
     * `AddSystem<T>(...)`: constructs a system of type `kind` and appends
     * it, stamped with the registry's identity bits for that type. The
     * derived constructor of `T` registers its interest by calling
     * `AddComponentType` for each kind of `kinds`, in order. A second
     * system of a type already present is appended all the same.
     */
    method AddSystem(kind: SystemType, kinds: seq<ComponentType>) returns (s: System)
      requires Valid()
      modifies this
      ensures Valid()
      ensures fresh(s) && s.kind == kind
      ensures s.GetSystemBitMask() == SystemBitMaskFor(kind)
      ensures s.GetTypeBitMask() == MaskOf(kinds) && s.objectIds == []
      ensures systems == old(systems) + [s]
      ensures |systems| == |old(systems)| + 1 && systems[|systems| - 1] == s
    {
      s := new System(kind);
      for i := 0 to |kinds|
        invariant s.typeMask == MaskOf(kinds[..i])
        invariant s.kind == kind && s.systemMask == {} && s.objectIds == []
        invariant systems == old(systems) && Valid()
      {
        assert kinds[..i + 1][..i] == kinds[..i];
        s.AddComponentType(kinds[i]);
      }
      assert kinds[..|kinds|] == kinds;
      s.SetSystemBitMask(SystemBitMaskFor(kind));
      systems := systems + [s];
    }

    /** `RemoveSystem(Index)`: erases the entry at `index`; later entries shift down by one. */
    method RemoveSystem(index: nat)
      requires Valid()
      requires index < |systems|
      modifies this
      ensures Valid()
      ensures systems == RemoveAt(old(systems), index)
    {
      RemoveAtKeepsDistinct(systems, index);
      systems := RemoveAt(systems, index);
    }

    /** The loop of `GetSystem<T>()`: scans in order and stops at the first system of type `kind`. */
    method FindKind(kind: SystemType) returns (i: nat)
      ensures i == IndexOfKind(systems, kind)
    {
      i := 0;
      while i < |systems| && systems[i].kind != kind
        invariant i <= |systems|
        invariant forall j :: 0 <= j < i ==> systems[j].kind != kind
      {
        i := i + 1;
      }
      IndexOfKindIsFirst(systems, kind, i);
    }

    /**
     * `GetSystem<T>()`: the first system of type `kind` in registration
     * order, or null when no system of that type is registered.
     */
    method GetSystemOfKind(kind: SystemType) returns (s: System?)
      ensures s == null <==> forall j :: 0 <= j < |systems| ==> systems[j].kind != kind
      ensures s != null ==> s.kind == kind && s == systems[IndexOfKind(systems, kind)]
    {
      var i := FindKind(kind);
      s := if i < |systems| then systems[i] else null;
    }

    /** `GetSystem(Index)`: the system at position `index`. */
    method GetSystem(index: nat) returns (s: System)
      requires index < |systems|
      ensures s == systems[index]
    {
      s := systems[index];
    }

    /**
     * `RemoveSystem<T>()`: erases the first system of type `kind`; all
     * others keep their relative order.
     */
    method RemoveSystemOfKind(kind: SystemType)
      requires Valid()
      requires exists j :: 0 <= j < |systems| && systems[j].kind == kind
      modifies this
      ensures Valid()
      ensures systems == RemoveAt(old(systems), IndexOfKind(old(systems), kind))
    {
      var i := FindKind(kind);
      RemoveAtKeepsDistinct(systems, i);
      systems := RemoveAt(systems, i);
    }

    /**
     * `CheckInterest(GameObject, UpdatedComponent)`: every registered
     * system re-checks `obj`, in registration order.
     */
    method CheckInterest(obj: GameObject)
      requires Valid()
      modifies systems
      ensures Valid()
      ensures forall j :: 0 <= j < |systems| ==>
                systems[j].typeMask == old(systems[j].typeMask) && systems[j].systemMask == old(systems[j].systemMask)
      ensures forall j :: 0 <= j < |systems| ==>
                systems[j].objectIds == Rechecked(old(systems[j].objectIds), systems[j].typeMask, obj)
    {
      var i := 0;
      while i < |systems|
        invariant i <= |systems|
        invariant Valid()
        invariant forall j :: 0 <= j < |systems| ==>
                    systems[j].typeMask == old(systems[j].typeMask) && systems[j].systemMask == old(systems[j].systemMask)
        invariant forall j :: 0 <= j < i ==>
                    systems[j].objectIds == Rechecked(old(systems[j].objectIds), systems[j].typeMask, obj)
        invariant forall j :: i <= j < |systems| ==> systems[j].objectIds == old(systems[j].objectIds)
      {
        systems[i].CheckInterest(obj);
        i := i + 1;
      }
    }
  }

  /** The scan's stopping point is the first system of the type. */
  lemma IndexOfKindIsFirst(systems: seq<System>, kind: SystemType, i: nat)
    requires i <= |systems|
    requires i < |systems| ==> systems[i].kind == kind
    requires forall j :: 0 <= j < i ==> systems[j].kind != kind
    ensures i == IndexOfKind(systems, kind)
  {
  }

  /**
   * Registering a type twice keeps both systems, and lookup by type then
   * finds the one registered first.
   */
  method AddTwiceFindsFirst(m: SystemManager, kind: SystemType, kinds: seq<ComponentType>)
    returns (first: System, second: System, found: System?)
    requires m.Valid()
    requires forall j :: 0 <= j < |m.systems| ==> m.systems[j].kind != kind
    modifies m
    ensures m.Valid()
    ensures m.systems == old(m.systems) + [first, second]
    ensures first != second && first.kind == kind && second.kind == kind
    ensures found == first
  {
    first := m.AddSystem(kind, kinds);
    second := m.AddSystem(kind, kinds);
    IndexOfKindIsFirst(m.systems, kind, |m.systems| - 2);
    found := m.GetSystemOfKind(kind);
  }
}
