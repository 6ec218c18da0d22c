/** The creation and update stamps every entity carries (Common/BaseEntity.cs).
    The clock is a parameter: `now` is the reading of DateTime.UtcNow. */
module Common {

  /** The referral rows of the store are values (Entities.Referral), not
      instances of this class: their writes set `updatedAt` directly, and
      the ordering rule below is stated for this class only. */
  class BaseEntity {
    var createdAt: nat
    var updatedAt: nat

    /** The stamps are in order: the entity was not updated before it was made. */
    ghost predicate Ordered()
      reads this
    {
      createdAt <= updatedAt
    }

    /** Both stamps are initialised from the clock. */
    constructor (now: nat)
      ensures createdAt == now && updatedAt == now
      ensures Ordered()
    {
      createdAt := now;
      updatedAt := now;
    }

    /** Refreshes UpdatedAt from the clock; CreatedAt is outside the frame.
        With a clock that does not run backwards the stamps stay in order, and
        a second call at the same instant leaves the state as the first left it. */
    method UpdateTimestamp(now: nat)
      modifies this`updatedAt
      ensures updatedAt == now
      ensures old(Ordered()) && old(updatedAt) <= now ==> Ordered()
    {
      updatedAt := now;
    }
  }

  /** Two refreshes at one clock reading give the state of one. */
  method UpdateTwiceAtOneInstant(e: BaseEntity, now: nat)
    modifies e
    ensures e.createdAt == old(e.createdAt) && e.updatedAt == now
  {
    e.UpdateTimestamp(now);
    ghost var once := (e.createdAt, e.updatedAt);
    e.UpdateTimestamp(now);
    assert (e.createdAt, e.updatedAt) == once;
  }
}
