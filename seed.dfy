/** The store the application starts with (MockDbContext.SeedData): five
    users and five referrals, all stamped at clock reading 0. */
module Seed {
  import opened Ids
  import opened Enums
  import opened Outcomes
  import opened Entities
  import opened DeepLinkService
  import opened UserRepository
  import opened ReferralTable

  const Alice := Guid(0x29fd60d2_cf8b_4f93_ab8b_d9e5d768fc1a)
  const Kathleen := Guid(0xb1c2d3e4_f5a6_7b8c_9d0e_f1a2b3c4d5e6)
  const Debbie := Guid(0xc1d2e3f4_a5b6_7c8d_9e0f_1a2b3c4d5e6f)
  const Joan := Guid(0xa80afede_b590_4c5a_a449_10d6c65d091c)
  const Poly := Guid(0xfd9e60df_7b1c_41fa_8e96_ee561a7ee870)

  /** Alice's referral, InProgress and unclaimed. */
  const Open1 := Guid(0x714c572a_4ff7_4801_8684_2672ade84c1b)
  /** Alice's referral, Completed and claimed by Kathleen. */
  const Claimed1 := Guid(0x13d2920e_f5c4_4ee6_a97a_1ff50d55eda8)
  /** Alice's referral, Abandoned and unclaimed. */
  const Dropped1 := Guid(0x5c3f2acc_cabb_422d_89fa_d7d616ed382c)
  /** Kathleen's referral, Completed and claimed by Debbie. */
  const Claimed2 := Guid(0x32e765a3_7cb7_4872_a1fe_1cebbe313300)
  /** Kathleen's referral, InProgress and unclaimed. */
  const Open2 := Guid(0x37889b4f_6b59_46ef_87ac_4b5b9862414d)

  function SeedUser(id: Guid, first: string, last: string, email: string, code: string): User {
    User(id, first, last, email, code, Empty, 0, 0)
  }

  const SeedUsers: map<Guid, User> := map[
    Alice := SeedUser(Alice, "Alice", "Bag", "alice.bag@annagram.io", "AL1C3B"),
    Kathleen := SeedUser(Kathleen, "Kathleen", "Hannah", "kathleen.hannah@annagram.io", "KT5Y8B"),
    Debbie := SeedUser(Debbie, "Debbie", "Harry", "debbie.harry@annagram.io", "DE3H4R"),
    Joan := SeedUser(Joan, "Joan", "Jett", "joan.jett@annagram.io", "JO4J3T"),
    Poly := SeedUser(Poly, "Poly", "Styrene", "poly.styrene@annagram.io", "PO9S7R")
  ]

  const SeedReferrals: seq<Referral> := [
    Referral(Open1, Alice, None, FormatLink("lo32ing90ab", "AL1C3B"), InProgress, 0, 0),
    Referral(Claimed1, Alice, Some(Kathleen), FormatLink("pqj82jabb9q", "AL1C3B"), Completed, 0, 0),
    Referral(Dropped1, Alice, None, FormatLink("lo32dq4abbe", "AL1C3B"), Abandoned, 0, 0),
    Referral(Claimed2, Kathleen, Some(Debbie), FormatLink("ddb4int09u9", "KT5Y8B"), Completed, 0, 0),
    Referral(Open2, Kathleen, None, FormatLink("jqbdbnt76i9", "KT5Y8B"), InProgress, 0, 0)
  ]

  /** Every seeded link carries its owner's referral code. */
  lemma SeedLinksCarryOwnerCodes()
    ensures forall i :: 0 <= i < |SeedReferrals| ==>
      SeedReferrals[i].userId in SeedUsers
      && LinkCode(SeedReferrals[i].referredDeepLink) == Some(SeedUsers[SeedReferrals[i].userId].referralCode)
  {
    ParseFormat("lo32ing90ab", "AL1C3B");
    ParseFormat("pqj82jabb9q", "AL1C3B");
    ParseFormat("lo32dq4abbe", "AL1C3B");
    ParseFormat("ddb4int09u9", "KT5Y8B");
    ParseFormat("jqbdbnt76i9", "KT5Y8B");
  }

  /** Where each seeded referral sits in the table. */
  lemma SeedLookups()
    ensures FindReferral(SeedReferrals, Open1) == Some(0)
    ensures FindReferral(SeedReferrals, Claimed1) == Some(1)
    ensures FindReferral(SeedReferrals, Dropped1) == Some(2)
    ensures FindReferral(SeedReferrals, Claimed2) == Some(3)
    ensures FindReferral(SeedReferrals, Open2) == Some(4)
  {
    forall i | 0 <= i < |SeedReferrals|
      ensures FindReferral(SeedReferrals, SeedReferrals[i].referralId) == Some(i)
    {
      FindReferralAt(SeedReferrals, i);
    }
  }

  /** Listing the seed store: Alice has the first three referrals, in
      table order. */
  lemma SeedListingOfAlice()
    ensures ReferralsOf(SeedReferrals, Alice) == SeedReferrals[..3]
  {
    var head, tail := SeedReferrals[..3], SeedReferrals[3..];
    assert SeedReferrals == head + tail;
    assert forall i :: 0 <= i < |head| ==> head[i].userId == Alice;
    assert forall i :: 0 <= i < |tail| ==> tail[i].userId == Kathleen;
    ReferralsOfAppend(head, tail, Alice);
    ReferralsOfOwnRows(head, Alice);
    ReferralsOfOtherRows(tail, Alice);
  }

  /** A user who is not in the store has no referrals in it. */
  lemma SeedListingOfStranger(stranger: Guid)
    requires stranger !in SeedUsers
    ensures ReferralsOf(SeedReferrals, stranger) == []
  {
    SeedRowsMatchUsers();
    ReferralsOfOtherRows(SeedReferrals, stranger);
  }

  lemma SeedUsersWellKeyed()
    ensures WellKeyed(SeedUsers)
  {
  }

  lemma SeedIdsUnique()
    ensures UniqueIds(SeedReferrals)
  {
  }

  lemma SeedClaimsCompleted()
    ensures ClaimedAreCompleted(SeedReferrals)
  {
  }

  lemma SeedClaimsExclusive()
    ensures OneActiveClaimPerUser(SeedReferrals)
    ensures HoldsActiveClaim(SeedReferrals, Kathleen) && HoldsActiveClaim(SeedReferrals, Debbie)
  {
    assert SeedReferrals[1].claimedByUserId == Some(Kathleen);
    assert SeedReferrals[3].claimedByUserId == Some(Debbie);
  }

  lemma SeedRowsMatchUsers()
    ensures RowsMatchUsers(SeedReferrals, SeedUsers)
  {
    SeedLinksCarryOwnerCodes();
  }

  /** The seed store obeys every consistency rule the lifecycle keeps. */
  lemma SeedIsConsistent()
    ensures WellKeyed(SeedUsers) && Consistent(SeedReferrals, SeedUsers)
  {
    SeedUsersWellKeyed();
    SeedIdsUnique();
    SeedClaimsCompleted();
    SeedClaimsExclusive();
    SeedRowsMatchUsers();
  }
}
