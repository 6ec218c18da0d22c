# CartonCaps referral lifecycle, modelled in Dafny

CartonCaps tracks referrals. A user creates a referral, which carries a
shareable deferred deep link built from the user's referral code. Another
user claims it, and the referral moves through three statuses: InProgress,
Completed and Abandoned. This project models the core of that backend and
proves properties of the model:

- the referral repository: create, list, update status and claim, over a
  referral table and a user table;
- the deep-link service that validates a referral code and formats the link;
- the user lookup;
- the User and Referral records, the status enum and the timestamp base class.

Files, one module each:

| file | module | models |
|---|---|---|
| `outcomes.dfy` | `Outcomes` | nullable values, the .NET exceptions thrown, results |
| `ids.dfy` | `Ids` | `System.Guid` and `Guid.Empty` |
| `referral_status.dfy` | `Enums` | `ReferralStatus` |
| `base_entity.dfy` | `Common` | `BaseEntity`, a class with the two stamps |
| `entities.dfy` | `Entities` | `User` (with `ShortDisplayName`) and `Referral` |
| `deep_link_service.dfy` | `DeepLinkService` | `GetDeepLink`, `GenerateDeepLinkId`, and a parser for the links |
| `user_repository.dfy` | `UserRepository` | `GetUserByIdAsync` |
| `referral_table.dfy` | `ReferralTable` | the lookups the repository runs, the table's consistency rules, and proofs that each write keeps them |
| `referral_repository.dfy` | `ReferralRepository` | the class `ReferralRepository` and its four operations |
| `seed.dfy` | `Seed` | the five users and five referrals the store is seeded with |
| `scenarios.dfy` | `Scenarios` | clients that run the operations on the seed store |

How the model is built:

- **Store.** The repository is a class. Its `referrals` field is a
  `seq<Referral>` in insertion order, and the methods reassign it. Its
  `users` field is a `map` keyed by `UserId`; the repository never writes it.
- **Invariant.** `Valid()` is the table invariant `Consistent`:
  - referral ids are set and distinct;
  - every claimed referral is Completed;
  - no user is the claimant of two referrals that are not Abandoned;
  - every referral belongs to a known user, and its link carries that user's
    referral code;
  - a claimant is a known user other than the referral's owner.
- **Outcomes.** Every operation returns `Result`: either the value, or the
  exception the code throws, with its kind and the arguments the code passes.
  - The code writes `new ArgumentNullException("User Id cannot be empty.",
    nameof(userId))`. The two-string constructor of `ArgumentNullException`
    takes the parameter name first, so the text becomes the exception's
    parameter name. The model keeps this order: `ArgumentNull(paramName,
    message)`.
  - `Task.Result` on a faulted task throws an `AggregateException`. The
    model wraps the inner exception as `Aggregate(inner)`. This applies to
    the user lookup inside `AddReferralForUserAsync`, and to the missing
    referral in `UpdateReferralStatusAsync`, where EF Core's `FirstAsync`
    fails with "Sequence contains no elements.".
- **Inputs taken as parameters.** The clock (`DateTime.UtcNow`) is a `nat`
  called `now`. The random link id is eleven readings of
  `Random.Shared.Next(36)` (`draws`). `Guid.NewGuid()` for a new referral is
  `newReferralId`.
- **The link generator.** `AddReferralForUserAsync` calls
  `DeepLinks.GetDeepLink` (ReferralRepository.cs:40). No type `DeepLinks`
  is part of this model; the call is taken to be
  `DeepLinkService.GetDeepLink`, the only link generator in the code.
- **Timestamps on stored rows.** A stored referral is a value. Calling
  `UpdateTimestamp` on it is the record update `updatedAt := now`.
  `BaseEntity` itself is modelled once, as a class, with the same contract.

Where intuition and the code differ, the model follows the code:

- `UpdateReferralStatusAsync` checks "must be claimed before Completed"
  before it checks for a terminal status. So an Abandoned, unclaimed
  referral asked to become Completed reports the missing claim.
- A missing referral in `UpdateReferralStatusAsync` is not a NotFound. It
  surfaces as the `InvalidOperationException` that `FirstAsync` throws,
  wrapped by `Task.Result`.
- A claim records no display name of the claimant.
- The deep link does not embed the user id.

## Model

| member | source | states |
|---|---|---|
| `Enums.ReferralStatus.Ordinal` | src/CartonCaps.Domain/Enums/ReferralStatus.cs:9-24 | the integer value of a member is below 3; it is 0 exactly for InProgress and 1 exactly for Completed, so Abandoned is 2, as declaration order gives |
| `Enums.DeclarationOrder` | src/CartonCaps.Domain/Enums/ReferralStatus.cs:14-24 | the values increase in declaration order: InProgress, then Completed, then Abandoned |
| `Enums.ReferralStatus.IsClaimable` | src/CartonCaps.Domain/Enums/ReferralStatus.cs:11-14 | the "pending, not yet used" status a claim accepts is exactly the one with value 0, InProgress |
| `Enums.ReferralStatus.IsTerminal` | src/CartonCaps.Infrastructure/Repositories/ReferralRepository.cs:84 | the statuses an update refuses to leave are exactly those with a non-zero value, Completed and Abandoned |
| `Enums.FromOrdinal` | src/CartonCaps.Domain/Enums/ReferralStatus.cs:9-24 | each of 0, 1, 2 names a member whose value it is |
| `Enums.OrdinalRoundTrip` | src/CartonCaps.Domain/Enums/ReferralStatus.cs:9-24 | the values 0, 1, 2 number the three members without repeats |
| `Enums.ExactlyThree` | src/CartonCaps.Domain/Enums/ReferralStatus.cs:14-24 | every status is InProgress, Completed or Abandoned |
| `Enums.ClaimableIffNotTerminal` | src/CartonCaps.Domain/Enums/ReferralStatus.cs:12-24 | a status is claimable (not yet used) exactly when it is not one of the two terminal statuses |
| `Common.BaseEntity.constructor` | src/CartonCaps.Domain/Common/BaseEntity.cs:12-18 | both stamps are set from the clock, so they are in order |
| `Common.BaseEntity.UpdateTimestamp` | src/CartonCaps.Domain/Common/BaseEntity.cs:23-26 | UpdatedAt becomes the clock reading and CreatedAt cannot change; with a clock that does not run backwards, UpdatedAt >= CreatedAt is kept |
| `Common.UpdateTwiceAtOneInstant` | src/CartonCaps.Domain/Common/BaseEntity.cs:25 | two refreshes at the same clock reading leave the state one refresh leaves |
| `Entities.User.ShortDisplayName` | src/CartonCaps.Domain/Entities/User.cs:10-14 | fails exactly when LastName is empty (First() throws); otherwise the name is |FirstName| + 3 long, starts with FirstName, then a space, the last name's initial, and ends with '.' |
| `Entities.ShortDisplayNameDependsOnNames` | src/CartonCaps.Domain/Entities/User.cs:11-14 | the display name is derived from the two names alone |
| `Entities.AliceBagShortName` | src/CartonCaps.Domain/Entities/User.cs:13 | "Alice" "Bag" is shown as "Alice B." |
| `Entities.Referral.IsClaimed` | src/CartonCaps.Infrastructure/Repositories/ReferralRepository.cs:78 | a referral counts as claimed exactly when its claimant is set and is not `Guid.Empty`; a null or an Empty claimant both read as unclaimed (also the test at :119) |
| `Entities.NewReferral` | src/CartonCaps.Domain/Entities/Referral.cs:12-34 | a new referral has the given id, owner and link, no claimant, the claimable status InProgress, and both stamps from the clock |
| `DeepLinkService.Pick` | src/CartonCaps.Application/Services/DeepLinkService.cs:52-54 | one alphabet character per random draw, in draw order |
| `DeepLinkService.CharactersAreLinkChars` | src/CartonCaps.Application/Services/DeepLinkService.cs:52 | the 36-character alphabet holds only [a-z0-9] |
| `DeepLinkService.GenerateDeepLinkId` | src/CartonCaps.Application/Services/DeepLinkService.cs:48-55 | the link id is 11 characters, each in [a-z0-9] |
| `DeepLinkService.FormatLink` | src/CartonCaps.Application/Services/DeepLinkService.cs:39 | the link is the fixed base, then the id, then the query key, then the code: its length is the sum of the four, it starts with the base followed by the id and ends with the code |
| `DeepLinkService.ParseLink` | src/CartonCaps.Application/Services/DeepLinkService.cs:38-39 | reads the link id and the referral code back out of a link; the id it reads is a well-formed link id |
| `DeepLinkService.ParseFormat` | src/CartonCaps.Application/Services/DeepLinkService.cs:38-39 | parsing a formatted link gives back the id and the code |
| `DeepLinkService.FormatParse` | src/CartonCaps.Application/Services/DeepLinkService.cs:38-39 | a link of the generated shape is exactly the one its parsed parts format to |
| `DeepLinkService.GetDeepLink` | src/CartonCaps.Application/Services/DeepLinkService.cs:16-41 | the empty user id, then the empty code, then a length outside 6..12 each give their own ArgumentException, in that order; it succeeds exactly for a non-empty id and a code of 6 to 12 characters, and the link parses to a fresh id and that code |
| `DeepLinkService.DeepLinkEndsWithCode` | src/CartonCaps.Application/Services/DeepLinkService.cs:38-41 | a generated link is 49 characters longer than the code, ends with the code, and carries it |
| `DeepLinkService.DeepLinkIgnoresUserId` | src/CartonCaps.Application/Services/DeepLinkService.cs:19-41 | the user id is validated but not embedded: any two non-empty ids give the same link |
| `UserRepository.GetUserById` | src/CartonCaps.Infrastructure/Repositories/UserRepository.cs:31-48 | an empty id is ArgumentNull before any lookup; an unknown id is NotFound "User not found.", never null; it succeeds exactly for a known, non-empty id, with the stored user whose UserId is the one asked for |
| `ReferralTable.FindReferral` | src/CartonCaps.Infrastructure/Repositories/ReferralRepository.cs:115-116 | finds the first row with the id, or reports that no row has it |
| `ReferralTable.FindReferralAt` | src/CartonCaps.Infrastructure/Repositories/ReferralRepository.cs:115-116 | a row whose id no earlier row has is the row the lookup finds |
| `ReferralTable.FindReferralAfterUpdate` | src/CartonCaps.Infrastructure/Repositories/ReferralRepository.cs:159-165 | rewriting a row in place, id unchanged, leaves every lookup as it was |
| `ReferralTable.ReferralsOf` | src/CartonCaps.Infrastructure/Repositories/ReferralRepository.cs:58 | lists exactly the rows owned by the user, and no more rows than the table has |
| `ReferralTable.ReferralsOfAppend` | src/CartonCaps.Infrastructure/Repositories/ReferralRepository.cs:58 | the listing keeps table order: the rows of a + b are those of a followed by those of b |
| `ReferralTable.ReferralsOfAppendOwn` | src/CartonCaps.Infrastructure/Repositories/ReferralRepository.cs:45-58 | a referral appended for a user comes last in that user's listing |
| `ReferralTable.ReferralsOfOwnRows` | src/CartonCaps.Infrastructure/Repositories/ReferralRepository.cs:58 | a table of only the user's rows is listed whole, in order |
| `ReferralTable.ReferralsOfOtherRows` | src/CartonCaps.Infrastructure/Repositories/ReferralRepository.cs:58 | a user with no rows gets the empty list |
| `ReferralTable.HoldsActiveClaim` | src/CartonCaps.Infrastructure/Repositories/ReferralRepository.cs:154 | a user holds no active claim exactly when every referral they claimed is Abandoned |
| `ReferralTable.EvolvesTransitive` | src/CartonCaps.Infrastructure/Repositories/ReferralRepository.cs:84-96 | the row history rules compose over a run of operations: ids, owners, links and creation stamps stay fixed, a set claimant never changes, a terminal status is never left |
| `ReferralTable.AppendKeepsConsistent` | src/CartonCaps.Infrastructure/Repositories/ReferralRepository.cs:36-46 | appending a fresh, unclaimed InProgress referral of a known user, linked with that user's code, keeps every table rule |
| `ReferralTable.SetStatusKeepsConsistent` | src/CartonCaps.Infrastructure/Repositories/ReferralRepository.cs:84-96 | setting an InProgress referral to InProgress or Abandoned keeps every table rule and the history rules |
| `ReferralTable.ClaimKeepsConsistent` | src/CartonCaps.Infrastructure/Repositories/ReferralRepository.cs:119-161 | claiming an unclaimed InProgress referral for a known non-owner who holds no active claim keeps every table rule, including one active claim per user |
| `ReferralTable.ClaimIsExclusive` | src/CartonCaps.Infrastructure/Repositories/ReferralRepository.cs:119-161 | after a claim the referral is claimed and the claimant holds an active claim, so a second claim of either kind is refused |
| `ReferralRepository.ReferralRepository.constructor` | src/CartonCaps.Infrastructure/Repositories/ReferralRepository.cs:15-18 | the repository works over the tables it is given, which obey the table rules |
| `ReferralRepository.ReferralRepository.AddReferralForUser` | src/CartonCaps.Infrastructure/Repositories/ReferralRepository.cs:20-48 | empty id gives ArgumentNull; an unknown user gives the lookup's NotFound wrapped by Task.Result; a bad code gives the link service's ArgumentException; each failure leaves the table as it was; on success exactly one referral is appended, owned by the user, InProgress, unclaimed, linked with the user's code; table rules kept |
| `ReferralRepository.ReferralRepository.GetReferralsByUserId` | src/CartonCaps.Infrastructure/Repositories/ReferralRepository.cs:50-59 | fails exactly for the empty id; otherwise returns exactly the user's referrals in table order, possibly none, and reads only |
| `ReferralRepository.ReferralRepository.UpdateReferralStatus` | src/CartonCaps.Infrastructure/Repositories/ReferralRepository.cs:61-100 | empty id, then a missing referral, then Completed asked of an unclaimed referral, then a Completed or Abandoned referral, each fail and leave the table; otherwise only that referral's status and UpdatedAt change; table and history rules kept |
| `ReferralRepository.ReferralRepository.ClaimReferral` | src/CartonCaps.Infrastructure/Repositories/ReferralRepository.cs:102-170 | seven guards in the code's order, each failing without a write: empty ids, unknown referral, already claimed, not InProgress, unknown claimant, self-claim, claimant holding an active claim; on success only that referral changes: Completed, claimant recorded, UpdatedAt refreshed; table and history rules kept |
| `Seed.SeedLinksCarryOwnerCodes` | src/CartonCaps.Infrastructure/MockDbContext.cs:52-59 | every seeded link carries its owner's referral code |
| `Seed.SeedLookups` | src/CartonCaps.Infrastructure/MockDbContext.cs:52-59 | where each seeded referral sits in the table |
| `Seed.SeedListingOfAlice` | src/CartonCaps.Infrastructure/MockDbContext.cs:54-56 | Alice's listing is her three seeded referrals, in table order |
| `Seed.SeedListingOfStranger` | src/CartonCaps.Infrastructure/MockDbContext.cs:39-59 | a user not in the store has an empty listing |
| `Seed.SeedUsersWellKeyed` | src/CartonCaps.Infrastructure/MockDbContext.cs:39-46 | each seeded user sits under its own id |
| `Seed.SeedIdsUnique` | src/CartonCaps.Infrastructure/MockDbContext.cs:52-59 | the seeded referral ids are set and distinct |
| `Seed.SeedClaimsCompleted` | src/CartonCaps.Infrastructure/MockDbContext.cs:52-59 | the two claimed seed referrals are Completed |
| `Seed.SeedClaimsExclusive` | src/CartonCaps.Infrastructure/MockDbContext.cs:52-59 | no seeded user holds two active claims, and Kathleen and Debbie each hold an active claim |
| `Seed.SeedRowsMatchUsers` | src/CartonCaps.Infrastructure/MockDbContext.cs:39-59 | the seeded owners and claimants are seeded users, no one claims their own referral, and the links carry the owners' codes |
| `Seed.SeedIsConsistent` | src/CartonCaps.Infrastructure/MockDbContext.cs:39-59 | the seed store obeys every table rule |
| `Scenarios.OpenSeedStore` | src/CartonCaps.Infrastructure/MockDbContext.cs:9-18 | a repository over the seed store is valid |
| `Scenarios.CreateForAlice` | src/CartonCaps.Infrastructure/Repositories/ReferralRepository.cs:20-59 | Alice gets a new InProgress, unclaimed referral whose link carries "AL1C3B"; her listing is then her three seeded referrals followed by the new one |
| `Scenarios.CreateForUnknownUser` | src/CartonCaps.Infrastructure/Repositories/ReferralRepository.cs:27-33 | an unknown user gets the wrapped "User not found." and nothing is added |
| `Scenarios.ClaimByJoan` | src/CartonCaps.Infrastructure/Repositories/ReferralRepository.cs:118-168 | Joan's claim completes Alice's open referral with Joan recorded; a second claim of it is already claimed, and Joan cannot claim another |
| `Scenarios.SelfClaim` | src/CartonCaps.Infrastructure/Repositories/ReferralRepository.cs:142-146 | Alice cannot claim her own referral |
| `Scenarios.DuplicateClaim` | src/CartonCaps.Infrastructure/Repositories/ReferralRepository.cs:153-157 | Debbie, who holds a completed claim, cannot claim Kathleen's open referral |
| `Scenarios.ClaimAbandoned` | src/CartonCaps.Infrastructure/Repositories/ReferralRepository.cs:124-128 | an abandoned, unclaimed referral is not claimable |
| `Scenarios.ClaimClaimed` | src/CartonCaps.Infrastructure/Repositories/ReferralRepository.cs:118-122 | Alice's referral claimed by Kathleen is refused as already claimed to every non-empty claimant |
| `Scenarios.UpdateCompleted` | src/CartonCaps.Infrastructure/Repositories/ReferralRepository.cs:76-87 | a Completed (and claimed) referral refuses every status, Abandoned included, with the terminal-status message |
| `Scenarios.CompleteAbandoned` | src/CartonCaps.Infrastructure/Repositories/ReferralRepository.cs:75-87 | an abandoned, unclaimed referral asked to become Completed reports the missing claim, not the terminal status |
| `Scenarios.AbandonOpen` | src/CartonCaps.Infrastructure/Repositories/ReferralRepository.cs:84-97 | an open referral can be abandoned and then refuses even InProgress |
| `Scenarios.UnknownAndEmptyIds` | src/CartonCaps.Infrastructure/Repositories/ReferralRepository.cs:63-116 | an unknown id fails in update and in claim with their own errors; an empty claimant id is refused |

## Left out

- Transport, persistence and hosting: the controllers, response models, dependency injection, and EF Core's `DbSet`, `SaveChanges` and `EnsureCreated` are outside the model. The store is the sequence and the map.
- Async and concurrency: each operation is one atomic step. The model does not capture the un-awaited `SaveChangesAsync` in `UpdateReferralStatusAsync`, blocking on `.Result`, or check-then-write races between concurrent calls.
- Unreachable branches are not modelled as outcomes. These are the null checks on a task (ReferralRepository.cs:30-33 and :70-73), the null claimant (:133-136), and "already claimed by this user" (:148-151). That last one is ruled out by the already-claimed guard at :119.
- Aliasing: a returned referral is a value. Later changes to the stored row are not visible through it, whereas the code returns the tracked entity itself.
- Users are never written. The user table is a constant, and `User.ReferralId`, `Email` and the user stamps are carried but never used.
- Referral stamps in the store: the model states that each write sets `updatedAt` to `now`. Keeping `UpdatedAt >= CreatedAt` under a non-decreasing clock is proved for `BaseEntity` only, not as a table rule.
- `Common.BaseEntity.constructor`: C# reads the clock twice, once per stamp. The model takes one reading for both.
- `ReferralRepository.ReferralRepository.AddReferralForUser`: requires the new id from `Guid.NewGuid()` to be non-empty and not already in the table. A colliding GUID, and the store's duplicate-key exception, are not modelled.
- `DeepLinkService.GetDeepLink`: a null referral code is not modelled, because `User.ReferralCode` is a non-nullable required string.
- `DeepLinkService.GetDeepLink`: lengths count Unicode scalar values, whereas C# `Length` counts UTF-16 code units. The two differ only for characters outside the Basic Multilingual Plane.
- `Enums.ReferralStatus`: a C# enum is backed by an `int`, so `(ReferralStatus)3` is a legal value. The model has only the three named statuses. The repository itself would accept and store an undefined status through `UpdateReferralStatusAsync` (it passes the checks at ReferralRepository.cs:76 and :84), and such a row could later be updated but not claimed. The HTTP route binding rejects undefined values before they reach the repository.
- `Entities.User.ShortDisplayName`: `LastName.First()` takes the first UTF-16 code unit, and C# `Length` counts code units. The model takes the first Unicode scalar value and counts scalar values. For a last name starting outside the Basic Multilingual Plane, C# gives a lone high surrogate where the model gives the whole character, and for such a first name the lengths differ.
- Exception text: .NET appends " (Parameter '...')" to the `Message` of argument exceptions. The model records the constructor arguments only.
- Randomness and the clock are parameters. The model does not capture the distribution of `Random.Shared` or the real time.
