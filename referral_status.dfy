/** The three-state status of a referral (Enums/ReferralStatus.cs). */
module Enums {

  datatype ReferralStatus = InProgress | Completed | Abandoned {

    /** The integer C# gives each member from its declaration order. */
    function Ordinal(): (n: nat)
      ensures n < 3
      ensures n == 0 <==> this == InProgress
      ensures n == 1 <==> this == Completed
    {
      match this
      case InProgress => 0
      case Completed => 1
      case Abandoned => 2
    }

    /** "Pending and not yet been used": the only status a claim accepts. */
    predicate IsClaimable(): (b: bool)
      ensures b <==> Ordinal() == 0
    {
      this == InProgress
    }

    /** The statuses a status update refuses to leave. */
    predicate IsTerminal(): (b: bool)
      ensures b <==> Ordinal() != 0
    {
      this == Completed || this == Abandoned
    }
  }

  /** The enum member with a given integer value. */
  function FromOrdinal(n: nat): (s: ReferralStatus)
    requires n < 3
    ensures s.Ordinal() == n
  {
    if n == 0 then InProgress else if n == 1 then Completed else Abandoned
  }

  /** Declaration order numbers the members 0, 1, 2 without gaps or repeats. */
  lemma OrdinalRoundTrip(s: ReferralStatus)
    ensures FromOrdinal(s.Ordinal()) == s
  {
  }

  /** The values follow declaration order: InProgress, Completed, Abandoned. */
  lemma DeclarationOrder()
    ensures InProgress.Ordinal() < Completed.Ordinal() < Abandoned.Ordinal()
  {
  }

  /** There is no fourth status. */
  lemma ExactlyThree(s: ReferralStatus)
    ensures s == InProgress || s == Completed || s == Abandoned
    ensures s.Ordinal() == 0 || s.Ordinal() == 1 || s.Ordinal() == 2
  {
  }

  /** A status is claimable exactly when it is not terminal. */
  lemma ClaimableIffNotTerminal(s: ReferralStatus)
    ensures s.IsClaimable() <==> !s.IsTerminal()
  {
  }
}
