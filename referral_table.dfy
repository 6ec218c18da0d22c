/** The referral table the repository works on: a sequence of rows in
    insertion order, the lookups the repository runs over it, and the
    consistency rules the lifecycle keeps. */
module ReferralTable {
  import opened Ids
  import opened Enums
  import opened Outcomes
  import opened Entities
  import opened DeepLinkService

  /** `FirstOrDefault(r => r.ReferralId == referralId)`: the index of the
      first row with that id, or None. */
  function FindReferral(rs: seq<Referral>, referralId: Guid): (r: Option<nat>)
    ensures r.Some? ==> r.value < |rs| && rs[r.value].referralId == referralId
    ensures r.Some? ==> forall j :: 0 <= j < r.value ==> rs[j].referralId != referralId
    ensures r.None? <==> forall j :: 0 <= j < |rs| ==> rs[j].referralId != referralId
  {
    if rs == [] then None
    else if rs[0].referralId == referralId then Some(0)
    else match FindReferral(rs[1..], referralId)
      case None => None
      case Some(k) => Some(k + 1)
  }

  /** A row whose id no earlier row has is the one the lookup finds. */
  lemma FindReferralAt(rs: seq<Referral>, i: nat)
    requires i < |rs|
    requires forall j :: 0 <= j < i ==> rs[j].referralId != rs[i].referralId
    ensures FindReferral(rs, rs[i].referralId) == Some(i)
  {
  }

  /** Rewriting a row without changing its id leaves every lookup as it was. */
  lemma FindReferralAfterUpdate(rs: seq<Referral>, i: nat, row: Referral, referralId: Guid)
    requires i < |rs| && row.referralId == rs[i].referralId
    ensures FindReferral(rs[i := row], referralId) == FindReferral(rs, referralId)
  {
    var after := rs[i := row];
    assert forall j :: 0 <= j < |rs| ==> after[j].referralId == rs[j].referralId;
    match FindReferral(rs, referralId)
    case None =>
    case Some(k) =>
      var found := FindReferral(after, referralId);
      assert found.Some? && found.value <= k;
  }

  /** `Where(r => r.UserId == userId)`: the user's rows, in table order. */
  function ReferralsOf(rs: seq<Referral>, userId: Guid): (r: seq<Referral>)
    ensures |r| <= |rs|
    ensures forall x :: x in r <==> x in rs && x.userId == userId
  {
    if rs == [] then []
    else (if rs[0].userId == userId then [rs[0]] else []) + ReferralsOf(rs[1..], userId)
  }

  /** Filtering keeps table order: the rows of a + b are those of a, then those of b. */
  lemma {:induction false} ReferralsOfAppend(a: seq<Referral>, b: seq<Referral>, userId: Guid)
    ensures ReferralsOf(a + b, userId) == ReferralsOf(a, userId) + ReferralsOf(b, userId)
  {
    if a == [] {
      assert a + b == b;
    } else {
      assert (a + b)[1..] == a[1..] + b;
      ReferralsOfAppend(a[1..], b, userId);
    }
  }

  /** A table holding only the user's rows lists whole. */
  lemma {:induction false} ReferralsOfOwnRows(rs: seq<Referral>, userId: Guid)
    requires forall i :: 0 <= i < |rs| ==> rs[i].userId == userId
    ensures ReferralsOf(rs, userId) == rs
  {
    if rs != [] {
      ReferralsOfOwnRows(rs[1..], userId);
      assert [rs[0]] + rs[1..] == rs;
    }
  }

  /** A row appended for the user is listed last. */
  lemma ReferralsOfAppendOwn(rs: seq<Referral>, row: Referral)
    ensures ReferralsOf(rs + [row], row.userId) == ReferralsOf(rs, row.userId) + [row]
  {
    ReferralsOfAppend(rs, [row], row.userId);
    ReferralsOfOwnRows([row], row.userId);
  }

  /** A table holding none of the user's rows lists nothing. */
  lemma ReferralsOfOtherRows(rs: seq<Referral>, userId: Guid)
    requires forall i :: 0 <= i < |rs| ==> rs[i].userId != userId
    ensures ReferralsOf(rs, userId) == []
  {
  }

  /** `Any(r => r.ClaimedByUserId == claimant && r.Status != Abandoned)`. */
  predicate HoldsActiveClaim(rs: seq<Referral>, claimant: Guid): (b: bool)
    ensures !b <==> forall i :: 0 <= i < |rs| && rs[i].claimedByUserId == Some(claimant) ==> rs[i].status == Abandoned
  {
    exists i :: 0 <= i < |rs| && rs[i].claimedByUserId == Some(claimant) && rs[i].status != Abandoned
  }

  // ---- Consistency rules of the table --------------------------------------

  /** The table key: ids are set and distinct. */
  predicate UniqueIds(rs: seq<Referral>) {
    && (forall i :: 0 <= i < |rs| ==> rs[i].referralId != Empty)
    && (forall i, j :: 0 <= i < j < |rs| ==> rs[i].referralId != rs[j].referralId)
  }

  /** Claiming completes a referral, so every claimed referral is Completed. */
  predicate ClaimedAreCompleted(rs: seq<Referral>) {
    forall i :: 0 <= i < |rs| && rs[i].IsClaimed() ==> rs[i].status == Completed
  }

  /** No user is the claimant of two referrals that are not Abandoned. */
  predicate OneActiveClaimPerUser(rs: seq<Referral>) {
    forall i, j :: 0 <= i < |rs| && 0 <= j < |rs| && i != j
      && rs[i].IsClaimed() && rs[i].status != Abandoned && rs[j].status != Abandoned
      ==> rs[j].claimedByUserId != rs[i].claimedByUserId
  }

  /** Each referral belongs to a known user and its link carries that user's
      referral code; a claimant is a known user other than the owner. */
  predicate RowsMatchUsers(rs: seq<Referral>, users: map<Guid, User>) {
    forall i :: 0 <= i < |rs| ==>
      && rs[i].userId in users
      && LinkCode(rs[i].referredDeepLink) == Some(users[rs[i].userId].referralCode)
      && (rs[i].IsClaimed() ==>
            rs[i].claimedByUserId.value in users && rs[i].claimedByUserId.value != rs[i].userId)
  }

  predicate Consistent(rs: seq<Referral>, users: map<Guid, User>) {
    && UniqueIds(rs)
    && ClaimedAreCompleted(rs)
    && OneActiveClaimPerUser(rs)
    && RowsMatchUsers(rs, users)
  }

  // ---- How a row may change over time --------------------------------------

  /** A later version of a row: identity, owner, link and creation stamp are
      fixed; a set claimant never changes; a terminal status is never left;
      Completed is reached only with a claimant. */
  predicate Succeeds(before: Referral, after: Referral) {
    && after.referralId == before.referralId
    && after.userId == before.userId
    && after.referredDeepLink == before.referredDeepLink
    && after.createdAt == before.createdAt
    && (before.IsClaimed() ==> after.claimedByUserId == before.claimedByUserId)
    && (before.status.IsTerminal() ==> after.status == before.status)
    && (after.status == Completed && before.status != Completed ==> after.IsClaimed())
  }

  /** A later version of the table: rows are only appended, and each old row
      has a later version in its place. */
  predicate Evolves(before: seq<Referral>, after: seq<Referral>) {
    |before| <= |after| && forall i :: 0 <= i < |before| ==> Succeeds(before[i], after[i])
  }

  /** Any run of operations evolves the table: the relation composes. */
  lemma EvolvesTransitive(a: seq<Referral>, b: seq<Referral>, c: seq<Referral>)
    requires Evolves(a, b) && Evolves(b, c)
    ensures Evolves(a, c)
  {
  }

  // ---- The three writes keep the table consistent --------------------------

  /** Appending a fresh, unclaimed InProgress row of a known user, whose link
      carries that user's code. */
  lemma AppendKeepsConsistent(rs: seq<Referral>, users: map<Guid, User>, r: Referral)
    requires Consistent(rs, users)
    requires r.referralId != Empty && FindReferral(rs, r.referralId).None?
    requires !r.IsClaimed() && r.status == InProgress
    requires r.userId in users && LinkCode(r.referredDeepLink) == Some(users[r.userId].referralCode)
    ensures Consistent(rs + [r], users) && Evolves(rs, rs + [r])
  {
  }

  /** Setting the status of an unclaimed InProgress row to InProgress or Abandoned. */
  lemma SetStatusKeepsConsistent(rs: seq<Referral>, users: map<Guid, User>, i: nat,
                                 status: ReferralStatus, now: nat)
    requires Consistent(rs, users) && i < |rs|
    requires rs[i].status == InProgress && status != Completed
    ensures Consistent(rs[i := rs[i].(status := status, updatedAt := now)], users)
    ensures Evolves(rs, rs[i := rs[i].(status := status, updatedAt := now)])
  {
  }

  /** Claiming an unclaimed InProgress row for a known user who is not its
      owner and holds no active claim. */
  lemma ClaimKeepsConsistent(rs: seq<Referral>, users: map<Guid, User>, i: nat,
                             claimant: Guid, now: nat)
    requires Consistent(rs, users) && i < |rs|
    requires !rs[i].IsClaimed() && rs[i].status == InProgress
    requires claimant != Empty && claimant in users && claimant != rs[i].userId
    requires !HoldsActiveClaim(rs, claimant)
    ensures var c := rs[i].(status := Completed, claimedByUserId := Some(claimant), updatedAt := now);
      Consistent(rs[i := c], users) && Evolves(rs, rs[i := c])
  {
  }

  /** After a claim the referral is claimed and the claimant holds an active
      claim: a second claim of the referral, or a second claim by the same
      claimant, is refused. */
  lemma ClaimIsExclusive(rs: seq<Referral>, i: nat, claimant: Guid, now: nat)
    requires i < |rs| && claimant != Empty
    ensures var after := rs[i := rs[i].(status := Completed, claimedByUserId := Some(claimant), updatedAt := now)];
      after[i].IsClaimed() && HoldsActiveClaim(after, claimant)
  {
  }
}
