/** The referral lifecycle (Repositories/ReferralRepository.cs): create, list,
    update the status of, and claim referrals. Each write runs its guards in
    the code's order and changes the table only once all of them have passed;
    every operation is one atomic step. */
module ReferralRepository {
  import opened Ids
  import opened Enums
  import opened Outcomes
  import opened Entities
  import opened DeepLinkService
  import opened UserRepository
  import opened ReferralTable

  const EmptyReferralIdMessage := "Referral Id cannot be empty."
  const EmptyClaimantIdMessage := "Claimant User Id cannot be empty."
  const ReferralNotFoundMessage := "Referral not found."
  /** What EF Core's FirstAsync fails with when no row matches. */
  const NoRowMessage := "Sequence contains no elements."
  const MustBeClaimedMessage := "Referral must be claimed before it can be marked as completed."
  const TerminalStatusMessage := "Cannot update referral status of Completed or Abandoned referrals."
  const AlreadyClaimedMessage := "Referral has already been claimed."
  const NotClaimableMessage := "Referral is not in a claimable state."
  const SelfClaimMessage := "User cannot claim their own referral."
  const DuplicateClaimMessage := "Claimant has already claimed a referral."

  class ReferralRepository {
    /** The Referrals table, in insertion order. */
    var referrals: seq<Referral>
    /** The Users table; the repository never writes it. */
    const users: map<Guid, User>

    ghost predicate Valid()
      reads this
    {
      WellKeyed(users) && Consistent(referrals, users)
    }

    constructor (users: map<Guid, User>, referrals: seq<Referral>)
      requires WellKeyed(users) && Consistent(referrals, users)
      ensures Valid() && this.users == users && this.referrals == referrals
    {
      this.users := users;
      this.referrals := referrals;
    }

    /** AddReferralForUserAsync. `newReferralId` is the Guid.NewGuid the new
        row is given, `draws` the random link id, `now` the clock. */
    method AddReferralForUser(userId: Guid, newReferralId: Guid, draws: seq<nat>, now: nat)
      returns (r: Result<Referral>)
      requires Valid()
      requires IsDraws(draws)
      requires newReferralId != Empty && FindReferral(referrals, newReferralId).None?
      modifies this
      ensures Valid()
      ensures userId == Empty ==> r == Failure(ArgumentNull(UserRepository.EmptyUserIdMessage, "userId"))
      ensures userId != Empty ==>
        match GetUserById(users, userId)
        case Failure(e) => r == Failure(Aggregate(e))
        case Success(u) =>
          match GetDeepLink(u.userId, u.referralCode, draws)
          case Failure(e) => r == Failure(e)
          case Success(link) => r == Success(NewReferral(newReferralId, userId, link, now))
      ensures r.Success? ==>
        && userId in users
        && r.value.userId == userId && !r.value.IsClaimed() && r.value.status == InProgress
        && LinkCode(r.value.referredDeepLink) == Some(users[userId].referralCode)
      ensures r.Failure? ==> referrals == old(referrals)
      ensures r.Success? ==> referrals == old(referrals) + [r.value]
      ensures Evolves(old(referrals), referrals)
    {
      if userId == Empty {
        return Failure(ArgumentNull(UserRepository.EmptyUserIdMessage, "userId"));
      }
      var query := GetUserById(users, userId);
      if query.Failure? {
        return Failure(Aggregate(query.error));
      }
      var user := query.value;
      var link := GetDeepLink(user.userId, user.referralCode, draws);
      if link.Failure? {
        return Failure(link.error);
      }
      var referral := NewReferral(newReferralId, user.userId, link.value, now);
      DeepLinkEndsWithCode(user.userId, user.referralCode, draws);
      AppendKeepsConsistent(referrals, users, referral);
      referrals := referrals + [referral];
      r := Success(referral);
    }

    /** GetReferralsByUserIdAsync: the user's referrals in table order; an
        empty list is a result, not an error. */
    function GetReferralsByUserId(userId: Guid): (r: Result<seq<Referral>>)
      reads this
      ensures r.Failure? <==> userId == Empty
      ensures r.Failure? ==> r.error == ArgumentNull(UserRepository.EmptyUserIdMessage, "userId")
      ensures r.Success? ==> r.value == ReferralsOf(referrals, userId)
      ensures r.Success? ==> forall x :: x in r.value <==> x in referrals && x.userId == userId
    {
      if userId == Empty then Failure(ArgumentNull(UserRepository.EmptyUserIdMessage, "userId"))
      else Success(ReferralsOf(referrals, userId))
    }

    /** UpdateReferralStatusAsync. The claim check for a Completed request
        runs before the terminal-status check. */
    method UpdateReferralStatus(referralId: Guid, status: ReferralStatus, now: nat)
      returns (r: Result<Referral>)
      requires Valid()
      modifies this
      ensures Valid()
      ensures referralId == Empty ==> r == Failure(ArgumentNull(EmptyReferralIdMessage, "referralId"))
      ensures referralId != Empty ==>
        match FindReferral(old(referrals), referralId)
        case None => r == Failure(Aggregate(InvalidOperation(NoRowMessage)))
        case Some(i) =>
          var current := old(referrals)[i];
          if status == Completed && !current.IsClaimed() then
            r == Failure(BadRequest(MustBeClaimedMessage))
          else if current.status.IsTerminal() then
            r == Failure(BadRequest(TerminalStatusMessage))
          else
            && r == Success(current.(status := status, updatedAt := now))
            && referrals == old(referrals)[i := r.value]
      ensures r.Failure? ==> referrals == old(referrals)
      ensures Evolves(old(referrals), referrals)
    {
      if referralId == Empty {
        return Failure(ArgumentNull(EmptyReferralIdMessage, "referralId"));
      }
      var found := FindReferral(referrals, referralId);
      if found.None? {
        return Failure(Aggregate(InvalidOperation(NoRowMessage)));
      }
      var i := found.value;
      var referral := referrals[i];
      if status == Completed && !referral.IsClaimed() {
        return Failure(BadRequest(MustBeClaimedMessage));
      }
      if referral.status.IsTerminal() {
        return Failure(BadRequest(TerminalStatusMessage));
      }
      SetStatusKeepsConsistent(referrals, users, i, status, now);
      var updated := referral.(status := status, updatedAt := now);
      referrals := referrals[i := updated];
      r := Success(updated);
    }

    /** ClaimReferralAsync: seven guards in the code's order, then the
        referral is completed with the claimant recorded. */
    method ClaimReferral(referralId: Guid, claimant: Guid, now: nat)
      returns (r: Result<Referral>)
      requires Valid()
      modifies this
      ensures Valid()
      ensures referralId == Empty ==> r == Failure(ArgumentNull(EmptyReferralIdMessage, "referralId"))
      ensures referralId != Empty && claimant == Empty ==>
        r == Failure(ArgumentNull(EmptyClaimantIdMessage, "claimedByUserId"))
      ensures referralId != Empty && claimant != Empty ==>
        match FindReferral(old(referrals), referralId)
        case None => r == Failure(BadRequest(ReferralNotFoundMessage))
        case Some(i) =>
          var current := old(referrals)[i];
          if current.IsClaimed() then r == Failure(BadRequest(AlreadyClaimedMessage))
          else if current.status != InProgress then r == Failure(BadRequest(NotClaimableMessage))
          else if GetUserById(users, claimant).Failure? then
            r == Failure(GetUserById(users, claimant).error)
          else if claimant == current.userId then r == Failure(BadRequest(SelfClaimMessage))
          else if HoldsActiveClaim(old(referrals), claimant) then
            r == Failure(BadRequest(DuplicateClaimMessage))
          else
            && r == Success(current.(status := Completed, claimedByUserId := Some(claimant), updatedAt := now))
            && referrals == old(referrals)[i := r.value]
      ensures r.Failure? ==> referrals == old(referrals)
      ensures Evolves(old(referrals), referrals)
    {
      if referralId == Empty {
        return Failure(ArgumentNull(EmptyReferralIdMessage, "referralId"));
      }
      if claimant == Empty {
        return Failure(ArgumentNull(EmptyClaimantIdMessage, "claimedByUserId"));
      }
      var found := FindReferral(referrals, referralId);
      if found.None? {
        return Failure(BadRequest(ReferralNotFoundMessage));
      }
      var i := found.value;
      var referral := referrals[i];
      if referral.IsClaimed() {
        return Failure(BadRequest(AlreadyClaimedMessage));
      }
      if referral.status != InProgress {
        return Failure(BadRequest(NotClaimableMessage));
      }
      var lookup := GetUserById(users, claimant);
      if lookup.Failure? {
        return Failure(lookup.error);
      }
      if lookup.value.userId == referral.userId {
        return Failure(BadRequest(SelfClaimMessage));
      }
      if HoldsActiveClaim(referrals, lookup.value.userId) {
        return Failure(BadRequest(DuplicateClaimMessage));
      }
      ClaimKeepsConsistent(referrals, users, i, claimant, now);
      var claimed := referral.(status := Completed, claimedByUserId := Some(claimant), updatedAt := now);
      referrals := referrals[i := claimed];
      r := Success(claimed);
    }
  }
}
