/**
 * A change event on one entity: the entity before the change, after it, or
 * both. An event with no old entity is an insertion, one with no new entity a
 * deletion, and one with both an update of a single entity (same type, same id).
 */
module EntityEvents {
  import opened Wrappers

  /** An immutable type; types are compared by identity. */
  datatype EntityType = EntityType(qualifiedName: string)

  /** An object handed to the event: an immutable object, with its type, the
      value of its id property and the rest of its state, or any other object. */
  datatype EntityObject<I, S> =
    | ImmutableObject(immutableType: EntityType, id: I, state: S)
    | OtherObject(state: S)

  datatype EventType = Insert | Delete | Update

  /** The `IllegalArgumentException`s of the constructor. */
  datatype EventError = BothNull | OldNotImmutable | NewNotImmutable | TypeMismatch | IdMismatch

  /** Whether two entities can be the two sides of one event. */
  predicate SameEntity<I(==), S>(o: EntityObject<I, S>, n: EntityObject<I, S>)
  {
    o.ImmutableObject? && n.ImmutableObject? && o.immutableType == n.immutableType && o.id == n.id
  }

  datatype EntityEvent<I(==), S(==)> = EntityEvent(oldEntity: Option<EntityObject<I, S>>, newEntity: Option<EntityObject<I, S>>)
  {
    /** What the constructor guarantees of every event. */
    predicate Valid()
    {
      && (oldEntity.Some? || newEntity.Some?)
      && (oldEntity.Some? ==> oldEntity.value.ImmutableObject?)
      && (newEntity.Some? ==> newEntity.value.ImmutableObject?)
      && (oldEntity.Some? && newEntity.Some? ==> SameEntity(oldEntity.value, newEntity.value))
    }

    /** `getEventType()`: classified by which side is missing. */
    function GetEventType(): (t: EventType)
      ensures t == Insert <==> oldEntity.None?
      ensures t == Delete <==> oldEntity.Some? && newEntity.None?
      ensures t == Update <==> oldEntity.Some? && newEntity.Some?
    {
      if oldEntity.None? then Insert
      else if newEntity.None? then Delete
      else Update
    }

    /** `getImmutableType()`: read from the old entity when there is one, else from
        the new one; on a valid event both sides agree. */
    function GetImmutableType(): (t: EntityType)
      requires Valid()
      ensures oldEntity.Some? ==> t == oldEntity.value.immutableType
      ensures newEntity.Some? ==> t == newEntity.value.immutableType
    {
      if oldEntity.Some? then oldEntity.value.immutableType else newEntity.value.immutableType
    }

    /** `getId()`: the value of the type's id property, read from the old entity
        when there is one, else from the new one; on a valid event both sides agree. */
    function GetId(): (id: I)
      requires Valid()
      ensures oldEntity.Some? ==> id == oldEntity.value.id
      ensures newEntity.Some? ==> id == newEntity.value.id
    {
      if oldEntity.Some? then oldEntity.value.id else newEntity.value.id
    }

    /** `equals`: two events are equal when their old entities and their new entities are. */
    function Equals(other: EntityEvent<I, S>): (r: bool)
      ensures r <==> this == other
    {
      oldEntity == other.oldEntity && newEntity == other.newEntity
    }

    /** `hashCode()`: `Objects.hash(oldEntity, newEntity)`, that is `Arrays.hashCode`
        over the two entities in 32-bit arithmetic, a missing entity hashing to 0. */
    function HashCode(hashOf: EntityObject<I, S> -> int): (h: int)
      ensures MinInt32 <= h <= MaxInt32
    {
      HashStep(HashStep(1, HashOrZero(oldEntity, hashOf)), HashOrZero(newEntity, hashOf))
    }

    /** The hash is the polynomial `31^2 + 31 * h(old) + h(new)` reduced to the `int` range. */
    lemma HashCodeClosedForm(hashOf: EntityObject<I, S> -> int)
      ensures HashCode(hashOf) == Wrap32(961 + 31 * HashOrZero(oldEntity, hashOf) + HashOrZero(newEntity, hashOf))
    {
      WrapAbsorbs(31 + HashOrZero(oldEntity, hashOf), HashOrZero(newEntity, hashOf));
    }
  }

  const MinInt32: int := -0x8000_0000
  const MaxInt32: int := 0x7fff_ffff

  /** Java's `int` overflow: the value congruent to `x` modulo 2^32 in the `int` range. */
  function Wrap32(x: int): (r: int)
    ensures MinInt32 <= r <= MaxInt32
    ensures (r - x) % 0x1_0000_0000 == 0
  {
    (x + 0x8000_0000) % 0x1_0000_0000 - 0x8000_0000
  }

  /** One step of `Arrays.hashCode`: `31 * result + element`. */
  function HashStep(acc: int, element: int): int
  {
    Wrap32(31 * acc + element)
  }

  function HashOrZero<I, S>(e: Option<EntityObject<I, S>>, hashOf: EntityObject<I, S> -> int): int
  {
    if e.Some? then Wrap32(hashOf(e.value)) else 0
  }

  /** Wrapping an intermediate result does not change the final one. */
  lemma WrapAbsorbs(x: int, y: int)
    ensures Wrap32(31 * Wrap32(x) + y) == Wrap32(31 * x + y)
  {
    var m := 0x1_0000_0000;
    var w := Wrap32(x);
    var q := (w - x) / m;
    assert w - x == q * m;
    assert 31 * w + y == (31 * x + y) + (31 * q) * m;
    ShiftInvariant(31 * x + y, 31 * q);
  }

  lemma ShiftInvariant(x: int, q: int)
    ensures Wrap32(x + q * 0x1_0000_0000) == Wrap32(x)
  {
  }

  /** The constructor: it rejects two missing entities, non-immutable objects, and
      two entities of different types or with different ids. */
  function NewEntityEvent<I(==), S(==)>(oldEntity: Option<EntityObject<I, S>>, newEntity: Option<EntityObject<I, S>>)
    : (r: Result<EntityEvent<I, S>, EventError>)
    ensures r.Success? <==> EntityEvent(oldEntity, newEntity).Valid()
    ensures r.Success? ==> r.value.oldEntity == oldEntity && r.value.newEntity == newEntity
    ensures oldEntity.None? && newEntity.None? ==> r == Failure(BothNull)
    ensures oldEntity.Some? && newEntity.Some?
            && oldEntity.value.ImmutableObject? && newEntity.value.ImmutableObject? ==>
              && (oldEntity.value.immutableType != newEntity.value.immutableType ==> r == Failure(TypeMismatch))
              && (oldEntity.value.immutableType == newEntity.value.immutableType && oldEntity.value.id != newEntity.value.id
                  ==> r == Failure(IdMismatch))
  {
    if oldEntity.None? && newEntity.None? then Failure(BothNull)
    else if oldEntity.Some? && !oldEntity.value.ImmutableObject? then Failure(OldNotImmutable)
    else if newEntity.Some? && !newEntity.value.ImmutableObject? then Failure(NewNotImmutable)
    else if oldEntity.Some? && newEntity.Some? && oldEntity.value.immutableType != newEntity.value.immutableType then
      Failure(TypeMismatch)
    else if oldEntity.Some? && newEntity.Some? && oldEntity.value.id != newEntity.value.id then Failure(IdMismatch)
    else Success(EntityEvent(oldEntity, newEntity))
  }

  /** Every event the constructor accepts is an insertion carrying the new entity,
      a deletion carrying the old one, or an update of one entity whose type and id
      are those of both sides. */
  lemma EventKinds<I, S>(oldEntity: Option<EntityObject<I, S>>, newEntity: Option<EntityObject<I, S>>)
    requires NewEntityEvent(oldEntity, newEntity).Success?
    ensures var e := NewEntityEvent(oldEntity, newEntity).value;
            match e.GetEventType()
            case Insert => newEntity.Some? && e.GetId() == newEntity.value.id
                           && e.GetImmutableType() == newEntity.value.immutableType
            case Delete => oldEntity.Some? && e.GetId() == oldEntity.value.id
                           && e.GetImmutableType() == oldEntity.value.immutableType
            case Update => SameEntity(oldEntity.value, newEntity.value) && e.GetId() == oldEntity.value.id
                           && e.GetImmutableType() == newEntity.value.immutableType
  {
  }

  /** The `equals`/`hashCode` contract: equal events have equal hash codes. */
  lemma HashConsistent<I, S>(a: EntityEvent<I, S>, b: EntityEvent<I, S>, hashOf: EntityObject<I, S> -> int)
    requires a.Equals(b)
    ensures a.HashCode(hashOf) == b.HashCode(hashOf)
  {
  }
}
