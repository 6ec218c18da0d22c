/** Clients of the repository that run the lifecycle against the seed store
    and state what each call returns. They use only the contracts of the
    repository's methods. */
module Scenarios {
  import opened Ids
  import opened Enums
  import opened Outcomes
  import opened Entities
  import opened DeepLinkService
  import opened UserRepository
  import opened ReferralTable
  import opened ReferralRepository
  import opened Seed

  method OpenSeedStore() returns (repo: ReferralRepository)
    ensures fresh(repo) && repo.Valid()
    ensures repo.users == SeedUsers && repo.referrals == SeedReferrals
  {
    SeedIsConsistent();
    repo := new ReferralRepository(SeedUsers, SeedReferrals);
  }

  /** Creating a referral for Alice (code AL1C3B) appends an unclaimed,
      InProgress referral whose link ends with her code; listing her
      referrals then shows her three seeded ones followed by the new one. */
  method CreateForAlice(newReferralId: Guid, draws: seq<nat>, now: nat)
    returns (r: Result<Referral>, listed: Result<seq<Referral>>)
    requires IsDraws(draws)
    requires newReferralId != Empty && FindReferral(SeedReferrals, newReferralId).None?
    ensures r.Success? && r.value.userId == Alice && r.value.referralId == newReferralId
    ensures r.value.status == InProgress && r.value.claimedByUserId == None
    ensures LinkCode(r.value.referredDeepLink) == Some("AL1C3B")
    ensures listed == Success(SeedReferrals[..3] + [r.value])
  {
    var repo := OpenSeedStore();
    var alice := SeedUsers[Alice];
    assert alice.userId == Alice && alice.referralCode == "AL1C3B";
    assert GetUserById(SeedUsers, Alice) == Success(alice);
    assert GetDeepLink(Alice, "AL1C3B", draws).Success?;
    r := repo.AddReferralForUser(Alice, newReferralId, draws, now);
    listed := repo.GetReferralsByUserId(Alice);
    SeedListingOfAlice();
    ReferralsOfAppendOwn(SeedReferrals, r.value);
  }

  /** Creating a referral for an unknown user reports the lookup's NotFound,
      wrapped by Task.Result, and adds nothing. */
  method CreateForUnknownUser(userId: Guid, newReferralId: Guid, draws: seq<nat>, now: nat)
    returns (r: Result<Referral>, listed: Result<seq<Referral>>)
    requires IsDraws(draws) && userId != Empty && userId !in SeedUsers
    requires newReferralId != Empty && FindReferral(SeedReferrals, newReferralId).None?
    ensures r == Failure(Aggregate(NotFound(UserNotFoundMessage)))
    ensures listed == Success([])
  {
    var repo := OpenSeedStore();
    SeedLookups();
    r := repo.AddReferralForUser(userId, newReferralId, draws, now);
    listed := repo.GetReferralsByUserId(userId);
    SeedListingOfStranger(userId);
  }

  /** The seed table after Joan's claim of Open1: both open referrals are
      still found where they were, Open1 is claimed, Joan holds an active
      claim, and Kathleen's Open2 is still open and unclaimed. */
  lemma AfterJoanClaims(now: nat)
    ensures var claimed := SeedReferrals[0 := SeedReferrals[0].(status := Completed,
                             claimedByUserId := Some(Joan), updatedAt := now)];
      && FindReferral(claimed, Open1) == Some(0)
      && FindReferral(claimed, Open2) == Some(4)
      && claimed[0].IsClaimed() && HoldsActiveClaim(claimed, Joan)
      && !claimed[4].IsClaimed() && claimed[4].status == InProgress && claimed[4].userId == Kathleen
  {
    var claimed := SeedReferrals[0 := SeedReferrals[0].(status := Completed,
                     claimedByUserId := Some(Joan), updatedAt := now)];
    SeedLookups();
    FindReferralAfterUpdate(SeedReferrals, 0, claimed[0], Open1);
    FindReferralAfterUpdate(SeedReferrals, 0, claimed[0], Open2);
    ClaimIsExclusive(SeedReferrals, 0, Joan, now);
  }

  /** Joan, who holds no claim, claims Alice's open referral: it becomes
      Completed with Joan as claimant. A second claim of it by Poly is
      refused as already claimed, and Joan cannot claim Kathleen's open
      referral as well. */
  method ClaimByJoan(now: nat) returns (first: Result<Referral>, again: Result<Referral>,
                                       other: Result<Referral>)
    ensures first.Success? && first.value.referralId == Open1
    ensures first.value.status == Completed && first.value.claimedByUserId == Some(Joan)
    ensures again == Failure(BadRequest(AlreadyClaimedMessage))
    ensures other == Failure(BadRequest(DuplicateClaimMessage))
  {
    var repo := OpenSeedStore();
    SeedLookups();
    assert !HoldsActiveClaim(SeedReferrals, Joan);
    first := repo.ClaimReferral(Open1, Joan, now);
    ghost var claimed := repo.referrals;
    AfterJoanClaims(now);
    again := repo.ClaimReferral(Open1, Poly, now);
    assert repo.referrals == claimed;
    other := repo.ClaimReferral(Open2, Joan, now);
  }

  /** Alice cannot claim her own referral. */
  method SelfClaim(now: nat) returns (r: Result<Referral>)
    ensures r == Failure(BadRequest(SelfClaimMessage))
  {
    var repo := OpenSeedStore();
    SeedLookups();
    r := repo.ClaimReferral(Open1, Alice, now);
  }

  /** Debbie already holds the claim on Kathleen's completed referral, so
      she cannot claim Kathleen's open one. */
  method DuplicateClaim(now: nat) returns (r: Result<Referral>)
    ensures r == Failure(BadRequest(DuplicateClaimMessage))
  {
    var repo := OpenSeedStore();
    SeedLookups();
    assert SeedReferrals[3].claimedByUserId == Some(Debbie);
    assert HoldsActiveClaim(SeedReferrals, Debbie);
    r := repo.ClaimReferral(Open2, Debbie, now);
  }

  /** An abandoned, unclaimed referral is not claimable. */
  method ClaimAbandoned(now: nat) returns (r: Result<Referral>)
    ensures r == Failure(BadRequest(NotClaimableMessage))
  {
    var repo := OpenSeedStore();
    SeedLookups();
    r := repo.ClaimReferral(Dropped1, Joan, now);
  }

  /** A claimed referral is already claimed, whoever asks. */
  method ClaimClaimed(claimant: Guid, now: nat) returns (r: Result<Referral>)
    requires claimant != Empty
    ensures r == Failure(BadRequest(AlreadyClaimedMessage))
  {
    var repo := OpenSeedStore();
    SeedLookups();
    assert SeedReferrals[1].IsClaimed();
    r := repo.ClaimReferral(Claimed1, claimant, now);
  }

  /** A completed referral refuses every status, Abandoned included. */
  method UpdateCompleted(status: ReferralStatus, now: nat) returns (r: Result<Referral>)
    ensures r == Failure(BadRequest(TerminalStatusMessage))
  {
    var repo := OpenSeedStore();
    SeedLookups();
    assert SeedReferrals[1].IsClaimed() && SeedReferrals[1].status.IsTerminal();
    r := repo.UpdateReferralStatus(Claimed1, status, now);
  }

  /** Asking an abandoned, unclaimed referral to become Completed reports the
      missing claim, because that check runs before the terminal-status check. */
  method CompleteAbandoned(now: nat) returns (r: Result<Referral>)
    ensures r == Failure(BadRequest(MustBeClaimedMessage))
  {
    var repo := OpenSeedStore();
    SeedLookups();
    r := repo.UpdateReferralStatus(Dropped1, Completed, now);
  }

  /** The seed table after Open2 is abandoned: Open2 is still found at its
      place, now Abandoned and still unclaimed. */
  lemma AfterOpen2Abandoned(now: nat)
    ensures var dropped := SeedReferrals[4 := SeedReferrals[4].(status := Abandoned, updatedAt := now)];
      && FindReferral(dropped, Open2) == Some(4)
      && dropped[4].status == Abandoned && !dropped[4].IsClaimed()
  {
    var dropped := SeedReferrals[4 := SeedReferrals[4].(status := Abandoned, updatedAt := now)];
    SeedLookups();
    FindReferralAfterUpdate(SeedReferrals, 4, dropped[4], Open2);
  }

  /** An open referral can be abandoned, and is terminal afterwards: not even
      InProgress can be set again. */
  method AbandonOpen(now: nat, later: nat) returns (first: Result<Referral>, back: Result<Referral>)
    ensures first.Success? && first.value.status == Abandoned && first.value.updatedAt == now
    ensures first.value.referralId == Open2 && first.value.claimedByUserId == None
    ensures back == Failure(BadRequest(TerminalStatusMessage))
  {
    var repo := OpenSeedStore();
    SeedLookups();
    first := repo.UpdateReferralStatus(Open2, Abandoned, now);
    AfterOpen2Abandoned(now);
    back := repo.UpdateReferralStatus(Open2, InProgress, later);
  }

  /** Ids that are Empty or unknown are refused without any write. */
  method UnknownAndEmptyIds(unknown: Guid, now: nat)
    returns (update: Result<Referral>, claim: Result<Referral>, emptyClaimant: Result<Referral>)
    requires unknown != Empty && FindReferral(SeedReferrals, unknown).None?
    ensures update == Failure(Aggregate(InvalidOperation(NoRowMessage)))
    ensures claim == Failure(BadRequest(ReferralNotFoundMessage))
    ensures emptyClaimant == Failure(ArgumentNull(EmptyClaimantIdMessage, "claimedByUserId"))
  {
    var repo := OpenSeedStore();
    SeedLookups();
    update := repo.UpdateReferralStatus(unknown, InProgress, now);
    claim := repo.ClaimReferral(unknown, Joan, now);
    emptyClaimant := repo.ClaimReferral(Open1, Empty, now);
  }
}
