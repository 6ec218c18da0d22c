/** The user and referral records (Entities/User.cs, Entities/Referral.cs).
    Both extend BaseEntity, so each carries its two clock stamps. */
module Entities {
  import opened Ids
  import opened Enums
  import opened Outcomes

  /** What Enumerable.First throws on an empty sequence. */
  const NoElements := "Sequence contains no elements"

  datatype User = User(
    userId: Guid,
    firstName: string,
    lastName: string,
    email: string,
    referralCode: string,
    referralId: Guid,
    createdAt: nat,
    updatedAt: nat)
  {
    /** "First L.": the first name, a space, the first letter of the last
        name and a full stop. `LastName.First()` throws on an empty last name. */
    function ShortDisplayName(): (r: Result<string>)
      ensures r.Failure? <==> lastName == []
      ensures r.Failure? ==> r.error == InvalidOperation(NoElements)
      ensures r.Success? ==>
        && |r.value| == |firstName| + 3
        && r.value[..|firstName|] == firstName
        && r.value[|firstName|] == ' '
        && r.value[|firstName| + 1] == lastName[0]
        && r.value[|r.value| - 1] == '.'
    {
      if lastName == [] then Failure(InvalidOperation(NoElements))
      else Success(firstName + " " + [lastName[0]] + ".")
    }
  }

  /** The display name is derived: it depends on the two names and nothing else. */
  lemma ShortDisplayNameDependsOnNames(u: User, v: User)
    requires u.firstName == v.firstName && u.lastName == v.lastName
    ensures u.ShortDisplayName() == v.ShortDisplayName()
  {
  }

  /** Alice Bag is shown as "Alice B.". */
  lemma AliceBagShortName(u: User)
    requires u.firstName == "Alice" && u.lastName == "Bag"
    ensures u.ShortDisplayName() == Success("Alice B.")
  {
    assert u.lastName[0] == 'B';
    assert u.firstName + " " + [u.lastName[0]] + "." == "Alice B.";
  }

  datatype Referral = Referral(
    referralId: Guid,
    userId: Guid,
    claimedByUserId: Option<Guid>,
    referredDeepLink: string,
    status: ReferralStatus,
    createdAt: nat,
    updatedAt: nat)
  {
    /** The repository reads both a null and an Empty claimant as "not claimed". */
    predicate IsClaimed(): (b: bool)
      ensures claimedByUserId == None ==> !b
      ensures claimedByUserId == Some(Empty) ==> !b
      ensures b <==> claimedByUserId != None && claimedByUserId != Some(Empty)
    {
      claimedByUserId.Some? && claimedByUserId.value != Empty
    }
  }

  /** A referral as `new Referral { UserId, ReferredDeepLink }` builds it: a
      fresh id, no claimant, status InProgress, both stamps from the clock. */
  function NewReferral(referralId: Guid, userId: Guid, link: string, now: nat): (r: Referral)
    ensures r.referralId == referralId && r.userId == userId && r.referredDeepLink == link
    ensures r.claimedByUserId == None && !r.IsClaimed()
    ensures r.status.IsClaimable() && !r.status.IsTerminal()
    ensures r.createdAt == now && r.updatedAt == now
  {
    Referral(referralId, userId, None, link, InProgress, now, now)
  }
}
