# Verified models of Vayada's booking and hotel-setup logic

This project states and proves, in Dafny, what the hardest small parts of the Vayada monorepo promise. Each module
models one file (or a few that work together) with the same branches, constants and edge cases, and proves properties
of it for every input, every run or every reachable state. `dafny verify dfyconfig.toml` checks all of it.

## What is modelled

- **Owner write transactions** (`OwnerTransactions`, `OwnerAuthority`, `OwnerIsolation`, `OwnerCommits`,
  `OwnerColumns`, `OwnerAlone`, `OwnerTables`, `OwnerSolo`).
  Any number of owner commands and other transactions run at once on a table of committed rows and a table of row
  locks. Locks follow "Row-Level Locks", section 13.3.2 of the PostgreSQL manual, at READ COMMITTED: a locking read takes
  its snapshot, then locks one row after another, waiting for conflicting holders and reading the latest committed row.
  A command runs the concrete query plan (organization, links, membership, assignment, role, grants, user,
  entitlements, clock), works and commits, or is denied and rolls back; a rollback may happen at any step. Other
  transactions lock, update, delete and insert at will. `resolveMembershipRolePermissions` and
  `resolveEffectivePropertyAccess` are arbitrary functions of the rows read (`Policy`). Proved: at every moment a
  command may commit, every row it read is still there unchanged, the tables of that instant hold every active row its
  authority needs and the membership's own role row, and the policy grants on rows that are all in them; for a policy
  that only grows with assignments and grants it grants on the full tables. A denied command leaves nothing, and
  commands of one organization run strictly one after another. With nobody else about, a command always can come to a
  decision and in every run comes only to the one the tables call for, which is also what the code's own sequence of
  checks with its early returns gives. What authority is on the tables is said in their columns (`OwnerColumns`), apart
  from the queries and mappings that decide it.
- **Owner-off marker** (`FinancialsMarker`) and **logo receipts** (`LogoReceipts`), the two protocols on top.
- **Group room picker** (`RoomPicker`, `RatePicker`), **amenity matching** (`EditDistance`), **calendar file**
  (`CalendarFile`, `StayCalendar`), **first-run rooms** (`FirstRunRooms`), **hotel id unification**
  (`HotelIdMigration`, `OrphanStubs`), **alteration runtime** (`AlterationRuntime`), **analytics consent** (`AnalyticsConsent`,
  `ConsentWithdrawal`),
  **server clock** (`ServerClock`).
- **Agency overview** (`AgencyOverview`, `AgencyOrder`, `AgencyCards`, `AgencyChips`, `AgencyColumns`): results and filter
  chips are two separate computations; the chip theorems compare them, and `AgencyColumns` says what the results are in
  the fields of the stays, prices and filters.
- Helpers: `Runs` (runs of a step function), `RowUpdates` (an UPDATE under a unique key, in any row order), `StableSort` (JavaScript's stable sort and `filter`), `Options`.

## Stated assumptions

- A transaction that inserts a row belonging to an organization, or points a row at it, holds a lock on the
  organization's row (its foreign key check; `OwnerTransactions.ParentHeld`). A row never changes its table.
- Other writers of the Financials entitlement leave the owner-off marker as it is or clear it; transaction numbers are unique and increasing.
- The receipt manifest only grows, as the trigger of migration 0468 enforces.
- The id migration runs without concurrent writers.
- Clock skew is constant and latency is not negative in the theorems about the server clock.

## Where the code does less than its comments or one might expect

- `unify_hotel_ids.py` says at lines 197-200 that ids may rotate because an UPDATE is evaluated set-at-once.
  PostgreSQL checks a unique key that is not deferrable row by row, in whatever order the statement visits the rows, so
  such an update can raise (and the tables stay as they were). The same holds for child tables with a unique key on
  `hotel_id` (payment settings, cancellation policies, connections, affiliates, rooms). Both readings are modelled
  (`KeyCheck`), with the visiting orders as a parameter (`Plan`). `HotelIdMigration.CommitsExactlyWhen` gives the exact
  condition for given orders, `CommitsInEveryOrder` the one that needs no order: no hotel's new id is another hotel's
  current id. `SwappedIdsAreRefused` and `ChildTableRefuses` are refused inputs.
- `CookieConsentContext.tsx`: an acceptance stored before a withdrawal can still clear the withdrawal's mark after it.
  `ConsentWithdrawal.WithdrawalHoldsExactly` says when no tab sends until a later acceptance is stored: if and only if
  the stored choice does not accept, or the withdrawal is marked and no save in progress is about to clear marks.
  `WithdrawalSilences` turns this into the condition on one withdrawal's own writes, and `CrossedSaves` reaches the
  failing case from an empty browser.
- `agencyOverview.ts`: type, area and pool chips count the page's stays, while the results leave out stays missing from
  the answer, so an offered chip can show nothing (`AgencyChips.UnansweredTypeChip`). `TypeChipSplits` and its
  companions say what a chip promises about the page's stays, `TotalSplits` exactly when the results split too, and
  `TypeChip` and its companions put both together where every stay of the page is answered.
- `encodePick` writes any numbers; `decodePicks` reads back exactly 1 to 99 adults, 0 to 99 children and a well-formed
  key (`RatePicker.EncodeThenMatch`).
- Base access is decided on the entitlement rows its query found. Nothing locks entitlements of other scopes, so one can
  be moved into the base scope and committed after the query's snapshot (`OwnerSolo.SuspensionSlipsIn` gives the run).
  `OwnerCommits.EntitledAtTheInstant` and `StillEntitledAtCommit` say exactly when the tables then still give access:
  if and only if no such arrival is suspended.

## Model

| member | source | states |
|---|---|---|
| OwnerTransactions.ConflictTable | apps/api/src/hotelSetupOrdinaryScope.ts:32-49 | the lock modes wait for each other as the manual's table has it, which is what the scope's FOR UPDATE and FOR SHARE rely on |
| OwnerColumns.LinksInColumns | apps/api/src/hotelSetupOrdinaryScope.ts:38-50 | the link join has a row exactly when active owner links of the organization to the property exist in the catalog and in PMS |
| OwnerColumns.MatchesInColumns | apps/api/src/hotelSetupMembership.ts:26-101 | each query's condition, in the columns of the row |
| OwnerColumns.GrantedInColumns | apps/api/src/hotelSetupMembership.ts:105-109 | a permission is left exactly when it was resolved and is not of a product the membership has no access to |
| OwnerColumns.StatusInColumns | apps/api/src/hotelSetupCurrencyMembership.ts:58-63 | a row counts as suspended or active exactly when it has started, has not expired and has that status |
| OwnerColumns.EntitledInColumns | apps/api/src/hotelSetupCurrencyMembership.ts:55-79 | entitlement rows give access exactly when none in force is suspended and some in force is active |
| OwnerCommits.BaseInColumns | apps/api/src/hotelSetupCurrencyMembership.ts:33-79 | base access as decided is base access in the columns of the tables: scope, dates and status |
| OwnerCommits.ExpiredIsNot | apps/api/src/hotelSetupCurrencyMembership.ts:62-62 | base entitlements that have all expired give no access |
| OwnerAuthority.PassesFrame | apps/api/src/hotelSetupMembership.ts:35-101 | what a check decides depends only on the rows read up to it |
| OwnerAuthority.SoundStep | apps/api/src/hotelSetupMembership.ts:12-111 | in every step a command has asked its queries in order, every row it read matched its query, every check so far passed, and nothing is written before authority is granted |
| OwnerIsolation.LocksStep | apps/api/src/hotelSetupOrdinaryScope.ts:32-49 | no two transactions ever hold conflicting locks on a row, and only open transactions hold locks |
| OwnerIsolation.WriterConflicts | apps/api/src/hotelSetupOrdinaryScope.ts:19-22 | a row held with share, no-key-update or update strength is written by its holder alone |
| OwnerIsolation.WritesStep | apps/api/src/hotelSetupOrdinaryScope.ts:19-22 | every pending write stays covered by its row lock and, where it enters an organization, by a lock on that organization |
| OwnerIsolation.ApartStep | apps/api/src/hotelSetupOrdinaryScope.ts:19-22 | no two open transactions write the same row |
| OwnerIsolation.GuardedStep | apps/api/src/hotelSetupMembership.ts:26-101 | every step keeps each row a command has read present, unchanged and under its lock |
| OwnerIsolation.InsideHolds | apps/api/src/hotelSetupOrdinaryScope.ts:32-37 | a command past its first read holds its organization's row for update |
| OwnerIsolation.NoNewRowsStep | apps/api/src/hotelSetupOrdinaryScope.ts:19-22 | while a command is inside its organization no commit adds a row to it |
| OwnerIsolation.CompleteStep | apps/api/src/hotelSetupCurrencyMembership.ts:33-50 | every role definition and base entitlement the queries would find is among those read or still to be locked, or was committed into the base scope after the query's snapshot |
| OwnerCommits.AlwaysIsolated | apps/api/src/hotelSetupOrdinaryScope.ts:19-73 | all of the above holds after every run from any tables |
| OwnerCommits.ReadsUnchangedAtCommit | apps/api/src/hotelSetupMembership.ts:12-101 | in every interleaving every row a command's decision read is present and unchanged when it may commit |
| OwnerCommits.AuthorityStands | apps/api/src/hotelSetupCurrencyMembership.ts:12-32 | in any isolated state where a command may write, its own evidence gives it its authority on the current tables |
| OwnerCommits.AuthorityStandsAtCommit | apps/api/src/hotelSetupOrdinaryScope.ts:53-73 | in every interleaving, when a command may commit the tables of that instant hold an active organization, both owner links, an active membership with PMS access and an active user, and the policy grants the property and the permission on some assignments, role and grants that are all in them |
| OwnerTables.RoleIsTheTables | apps/api/src/hotelSetupMembership.ts:45-54 | the role row a working command read is exactly what its query would find on the current tables |
| OwnerTables.AuthorityOnTables | apps/api/src/hotelSetupMembership.ts:26-101 | in every interleaving, at commit the authority stands on the tables' own role row and on assignments and grants that its queries would find there |
| OwnerTables.FullTablesStand | apps/api/src/hotelSetupMembership.ts:26-111 | for a policy that only grows with assignments and grants, the authority worked out on the full tables at commit stands |
| OwnerCommits.BaseIsComplete | apps/api/src/hotelSetupCurrencyMembership.ts:33-50 | the base entitlements read are in the tables, and every other one there was committed into the base scope after the query's snapshot |
| OwnerCommits.EntitledAtTheInstant | apps/api/src/hotelSetupCurrencyMembership.ts:51-79 | the clock is read under all locks: access granted is base access in the tables' columns at that instant if and only if no entitlement that arrived after the snapshot is suspended, access refused is given by the tables only if an arrival makes the difference, without arrivals the decision is the tables', and a command whose base entitlements have all expired is refused |
| OwnerCommits.StillEntitledAtCommit | apps/api/src/hotelSetupCurrencyMembership.ts:51-79 | the tables at commit give access for the instant read if and only if no entitlement that arrived after the snapshot is suspended |
| OwnerSolo.SuspensionSlipsIn | apps/api/src/hotelSetupCurrencyMembership.ts:33-54 | from any tables that grant a command and hold an entitlement of its organization in another scope, some run grants it on tables that do not give base access at the instant read |
| OwnerCommits.OrganizationGainsNothing | apps/api/src/hotelSetupOrdinaryScope.ts:19-22 | after every run, every link, membership, role and entitlement of the organization of a command inside it was there when its lock was taken |
| OwnerCommits.AlwaysLogged | apps/api/src/hotelSetupOrdinaryScope.ts:55-73 | after every run the tables are the committed writes in order over the first tables, and each transaction ended at most once |
| OwnerCommits.DeniedWritesNothing | apps/api/src/hotelSetupOrdinaryScope.ts:53-73 | a denied command has no other ending than its rollback and contributed no write to the tables |
| OwnerCommits.DeniedStaysDenied | apps/api/src/hotelSetupOrdinaryScope.ts:63-70 | a denied command has written nothing and can only roll back |
| OwnerCommits.TurnStep | apps/api/src/hotelSetupOrdinaryScope.ts:32-37 | every step keeps the entries and exits of an organization taking turns, with the one command inside |
| OwnerCommits.AlwaysInTurn | apps/api/src/hotelSetupOrdinaryScope.ts:19-73 | after every run, every organization has at most one command inside and its trace never overlaps |
| OwnerCommits.OneAfterAnother | apps/api/src/hotelSetupOrdinaryScope.ts:19-73 | between two entries to an organization the first command has left it |
| OwnerAlone.LockScope | apps/api/src/hotelSetupOrdinaryScope.ts:23-51 | alone: true exactly when the ids are well formed, the organization is an active hotel group and both active owner links exist |
| OwnerAlone.LockMembership | apps/api/src/hotelSetupMembership.ts:12-111 | alone: returns the user's one active membership when its role resolves and the user is active, and nothing exactly when there is none such |
| OwnerAlone.LockCurrencyMembership | apps/api/src/hotelSetupCurrencyMembership.ts:12-80 | alone: true exactly when such a membership covers the property and permission with PMS access and, where required, the tables' columns give base access at the clock read; false when all base entitlements have expired |
| OwnerAlone.Authorize | apps/api/src/hotelSetupFeatureHubOrdinary.ts:38-58 | the scope check followed by the membership check grants exactly what the columns of the tables give |
| OwnerAlone.GrantedIsItsParts | apps/api/src/hotelSetupCurrencyMembership.ts:12-80 | the authority on the tables is the scope, the membership and the base access together |
| OwnerSolo.DenialIsRight | apps/api/src/hotelSetupMembership.ts:35-101 | a query that fails its check, on rows that are those of the tables, means the tables do not give the authority |
| OwnerSolo.SoloStep | apps/api/src/hotelSetupOrdinaryScope.ts:55-73 | whatever a command alone does, what it read and decided stays true to the tables until it ends |
| OwnerSolo.AloneIsNeverWrong | apps/api/src/hotelSetupOrdinaryScope.ts:55-73 | in every run in which only this command acts, from any state with nobody about, it is granted only what the tables give at the instant it read and denied only what they do not |
| OwnerSolo.AloneDecidesRightly | apps/api/src/hotelSetupOrdinaryScope.ts:55-73 | from any state with nobody about, some run of the command comes to a decision, granted exactly when the tables give it its authority |
| FinancialsMarker.Entitlement.UpdateFinancials | apps/api/src/hotelSetupFeatureHubOrdinary.ts:59-147 | exactly when it is done, refused or unavailable; done, the status is active or suspended as asked, readiness stays, the writer is this transaction, the marker is set exactly for a switch-off of an active or owner-off row, and one audit entry is added; otherwise nothing changes |
| FinancialsMarker.OwnerCommandHolds | apps/api/src/hotelSetupFeatureHubOrdinary.ts:118-127 | an owner's switch-on leaves the row active; a switch-off leaves it suspended through any owner commands until one switches it back on |
| FinancialsMarker.SuspensionEnds | apps/api/src/hotelSetupFeatureHubOrdinary.ts:107-127 | a suspension ends only by an owner's successful switch-on, someone else's write or a removal |
| FinancialsMarker.MarkStep | apps/api/src/hotelSetupFeatureHubOrdinary.ts:118-127 | the marker counts after a step exactly when the step is an owner's switch-off of an active or owner-off row, or nothing was written |
| FinancialsMarker.OffByOwnerStep | apps/api/src/hotelSetupFeatureHubOrdinary.ts:16-19 | how one more event changes whether a suspension goes back to the owner |
| FinancialsMarker.MarkMeansOwner | apps/api/src/hotelSetupFeatureHubOrdinary.ts:16-19 | over every history from any row the marker counts exactly when the suspension goes back through owner writes alone to an owner switching off an active row, or to a mark that counted at the start |
| FinancialsMarker.ReenableOnlyOwnOff | apps/api/src/hotelSetupFeatureHubOrdinary.ts:107-117 | with the other conditions met, an owner can re-enable suspended Financials if and only if the suspension is the owner's own |
| FinancialsMarker.OthersSuspensionStays | apps/api/src/hotelSetupFeatureHubOrdinary.ts:118-127 | after another party's suspension no sequence of owner commands, switch-offs included, re-enables the row |
| LogoReceipts.StepSafe | apps/api/src/hotelSetupLogoRuntime.ts:133-188 | every statement, failure or other party's move keeps receipts unique and every object and every permitted write backed by a stored receipt |
| LogoReceipts.AlwaysSafe | apps/api/src/hotelSetupLogoRuntime.ts:133-188 | the same after every run, and the manifest only grows |
| LogoReceipts.EveryObjectHasItsReceipt | apps/api/src/hotelSetupLogoRuntime.ts:133-199 | under any failure and interleaving every private object has its receipt in the manifest, none is stored twice and none is lost later |
| LogoReceipts.ReceiptComesFirst | apps/api/src/hotelSetupLogoRuntime.ts:192-199 | a write that happens finds its receipt already committed |
| LogoReceipts.InDoubtNothingIsWritten | apps/api/src/hotelSetupLogoRuntime.ts:169-186 | while a COMMIT is in doubt the inspection fails, so nothing is written |
| LogoReceipts.UndisturbedIsStored | apps/api/src/hotelSetupLogoRuntime.ts:138-168 | an undisturbed call stores its receipt once and may write, also when the receipt was there before |
| LogoReceipts.InspectionDecides | apps/api/src/hotelSetupLogoRuntime.ts:165-186 | undisturbed, the inspection after a lost COMMIT lets the call write exactly when the receipt did get stored, and fails otherwise |
| LogoReceipts.Session.RecordArtifact | apps/api/src/hotelSetupLogoRuntime.ts:133-188 | with anything happening at each wait, it returns only with the receipt committed and otherwise fails; no receipt is lost or repeated |
| LogoReceipts.Session.Persist | apps/api/src/hotelSetupLogoRuntime.ts:142-164 | the first transaction lets the call write only when its COMMIT was attempted and succeeded |
| LogoReceipts.Session.Reconcile | apps/api/src/hotelSetupLogoRuntime.ts:169-186 | the inspection lets the call write only when it found the receipt and its own COMMIT succeeded |
| RoomPicker.MostRoomsUsable | apps/booking-web/lib/roomPicker.ts:13-20 | room counts up to the most offered are exactly one, and those with an adult each, up to nine and past four only when needed; each splits into that many rooms with an adult |
| RoomPicker.EvenSplitSpreads | apps/booking-web/lib/roomPicker.ts:22-29 | adults are conserved, every room has one, and rooms differ by at most one, fuller rooms first |
| RoomPicker.FillOrder | apps/booking-web/lib/roomPicker.ts:35-37 | the order lists every room once, fewest adults first, later rooms first among equals |
| RoomPicker.Deal | apps/booking-web/lib/roomPicker.ts:38-39 | the dealing loop hands out all children in that order, rounds differing by at most one |
| RoomPicker.DealChildren | apps/booking-web/lib/roomPicker.ts:31-41 | adults stay, all children are dealt, in order |
| RoomPicker.DealtUnique | apps/booking-web/lib/roomPicker.ts:31-41 | dealing in order has exactly one outcome |
| RoomPicker.BalancedIsLowest | apps/booking-web/lib/roomPicker.ts:22-29 | a balanced spread's largest room is no larger than that of any spread of the same total |
| RoomPicker.SplitIsBalanced | apps/booking-web/lib/roomPicker.ts:31-46 | even adults and children dealt in order also balance the totals per room |
| RoomPicker.AllFitIsEachFits | apps/booking-web/lib/roomPicker.ts:66-76 | each room fits exactly when it has an adult and is within the three limits, where they are known |
| RoomPicker.BalancedFits | apps/booking-web/lib/roomPicker.ts:66-76 | if any placement with an adult in every room fits the limits, the balanced one fits in every room |
| RoomPicker.SplitParty | apps/booking-web/lib/roomPicker.ts:43-46 | adults, children and totals each differ by at most one, both sums are conserved, and it fits whenever anything does |
| RoomPicker.MoreMoves | apps/booking-web/lib/roomPicker.ts:55-57 | one more comes from the other room with the most adults, at least two, the last among equals; otherwise nothing moves |
| RoomPicker.FewerMoves | apps/booking-web/lib/roomPicker.ts:57-59 | one fewer goes to the other room with the fewest adults, the first among equals; otherwise nothing moves |
| RoomPicker.MovedKeeps | apps/booking-web/lib/roomPicker.ts:48-64 | a move keeps the room count, the total and an adult in every room |
| RoomPicker.MoveAdult | apps/booking-web/lib/roomPicker.ts:51-64 | the array edit is that move, and the given split is unchanged when it is not possible |
| RoomPicker.EverySplitReachable | apps/booking-web/lib/roomPicker.ts:48-64 | every split of a party is reachable from every other in at most 2·(adults − rooms) moves |
| RatePicker.Combinable | apps/booking-web/lib/roomPicker.ts:78-102 | ok exactly when the schedule agrees with every chosen one and the methods known leave one that the offer and all chosen take |
| RatePicker.PayableStep | apps/booking-web/lib/roomPicker.ts:78-102 | adding an accepted rate to a payable group gives a payable group, and the other way round |
| RatePicker.OneSchedule | apps/booking-web/lib/roomPicker.ts:85-94 | known schedules agree two by two exactly when they are all payment in full or all one deposit |
| RatePicker.AcceptsExactlyPayable | apps/booking-web/lib/roomPicker.ts:78-102 | one at a time, exactly the groups are accepted whose known schedules are all in full or all one deposit and whose known methods share one |
| RatePicker.OrderDoesNotMatter | apps/booking-web/lib/roomPicker.ts:78-102 | acceptance does not depend on the order chosen |
| RatePicker.DecodePicks | apps/booking-web/lib/roomPicker.ts:111-126 | all values are read or none: one to nine values, each of the pick's form |
| RatePicker.EncodeThenMatch | apps/booking-web/lib/roomPicker.ts:104-109 | an encoded pick is read back as itself exactly when its numbers and key are in the pattern's range |
| RatePicker.EncodedText | apps/booking-web/lib/roomPicker.ts:106-109 | a pick's text is its numbers in one or two digits and its key between dashes |
| RatePicker.KeyInText | apps/booking-web/lib/roomPicker.ts:104-104 | a key is the prefix and 64 lower-case hexadecimal digits |
| RatePicker.MatchExactly | apps/booking-web/lib/roomPicker.ts:104-104 | a value reads as a pick exactly when it is the pick's own text, or that with up to nine children written in two digits |
| RatePicker.EncodeThenDecode | apps/booking-web/lib/roomPicker.ts:106-126 | encoding then decoding a list gives it back exactly when each pick is encodable and there are one to nine |
| EditDistance.EditMoves | apps/booking-admin/lib/parseBookingAmenities.ts:139-143 | one edit changes the distance to any text by at most one |
| EditDistance.ScriptsAreNoShorter | apps/booking-admin/lib/parseBookingAmenities.ts:128-148 | no edit script is shorter than the distance |
| EditDistance.ScriptOfDistance | apps/booking-admin/lib/parseBookingAmenities.ts:128-148 | some script has exactly that length |
| EditDistance.DistanceIsCheapest | apps/booking-admin/lib/parseBookingAmenities.ts:128-148 | the recurrence gives the cost of the cheapest insert, delete and substitute script |
| EditDistance.ZeroOnlyForEqual | apps/booking-admin/lib/parseBookingAmenities.ts:130-130 | the distance is zero exactly for equal texts |
| EditDistance.Symmetric | apps/booking-admin/lib/parseBookingAmenities.ts:128-148 | the distance is symmetric |
| EditDistance.Triangle | apps/booking-admin/lib/parseBookingAmenities.ts:128-148 | the distance obeys the triangle inequality |
| EditDistance.AtMostLonger | apps/booking-admin/lib/parseBookingAmenities.ts:157-157 | the distance is at most the longer length |
| EditDistance.FillRow | apps/booking-admin/lib/parseBookingAmenities.ts:133-147 | the one-row loops that overwrite the row in place compute the recurrence |
| EditDistance.Levenshtein | apps/booking-admin/lib/parseBookingAmenities.ts:129-148 | with its shortcuts, the result is the cost of the cheapest script for every pair of texts |
| EditDistance.TokensAreWords | apps/booking-admin/lib/parseBookingAmenities.ts:159-160 | the tokens are exactly the non-empty stretches without a space between spaces or ends |
| EditDistance.ScoreInParts | apps/booking-admin/lib/parseBookingAmenities.ts:157-175 | the score is the greatest of what the cheapest script leaves of the longer text, the shared words among all, and 0.85 exactly when every word of the text with fewer is in the other |
| EditDistance.SimilarityRange | apps/booking-admin/lib/parseBookingAmenities.ts:150-176 | similarity stays between 0 and 1 |
| EditDistance.SimilaritySymmetric | apps/booking-admin/lib/parseBookingAmenities.ts:150-176 | similarity is symmetric |
| EditDistance.CountShared | apps/booking-admin/lib/parseBookingAmenities.ts:161-165 | the counting pass gives the intersection's size, and the union's by subtraction |
| EditDistance.AllContained | apps/booking-admin/lib/parseBookingAmenities.ts:168-172 | the containment pass decides whether a non-empty smaller set lies in the larger |
| EditDistance.ComputeSimilarity | apps/booking-admin/lib/parseBookingAmenities.ts:153-176 | 0 for an empty text, 1 for equal texts, otherwise the greatest of the three parts, on the cheapest script and the words of both texts |
| EditDistance.FuzzyChoice | apps/booking-admin/lib/parseBookingAmenities.ts:244-257 | the loop picks the first of the best candidates at or above the threshold, and none exactly when none reaches it |
| CalendarFile.WidthIsUtf8 | apps/booking-web/lib/calendarFile.ts:15-20 | a character's width is that of its UTF-8 form, which carries the character back |
| CalendarFile.Fold | apps/booking-web/lib/calendarFile.ts:13-28 | the loop joins the greedy parts with a line break and a space |
| CalendarFile.PartsAreLegal | apps/booking-web/lib/calendarFile.ts:13-28 | the parts make up the line, never cut a character and stay within 75 and 74 octets |
| CalendarFile.NoFewerParts | apps/booking-web/lib/calendarFile.ts:13-28 | no other legal cutting has fewer parts |
| CalendarFile.FoldThenUnfold | apps/booking-web/lib/calendarFile.ts:13-28 | unfolding a folded line gives it back exactly when none of the parts it was cut into carries a fold of its own |
| CalendarFile.LinesUnfold | apps/booking-web/lib/calendarFile.ts:13-28 | a line that carries no fold of its own, so every line without a line feed, comes back from unfolding; a fold of its own would be lost |
| CalendarFile.ChainIsOnePass | apps/booking-web/lib/calendarFile.ts:1-2 | the chain of four replacements equals a single-pass escape |
| CalendarFile.EscapeThenUnescape | apps/booking-web/lib/calendarFile.ts:1-2 | a reader of section 3.3.11 of RFC 5545 recovers the text, with CRLF read as LF |
| CalendarFile.EscapedHasNoBreak | apps/booking-web/lib/calendarFile.ts:1-2 | escaped text has no line feed |
| CalendarFile.EscapedIsLegal | apps/booking-web/lib/calendarFile.ts:1-2 | escaped text is a TEXT value: no bare semicolon, comma or line feed, backslashes only in escapes |
| StayCalendar.ReadsBack | apps/booking-web/lib/calendarFile.ts:73-76 | unfolding and splitting any readable file gives its content lines |
| StayCalendar.PhysicalLinesAreShort | apps/booking-web/lib/calendarFile.ts:73-76 | every physical line of a file is at most 75 octets |
| StayCalendar.ReadTitle | apps/booking-web/lib/calendarFile.ts:67-67 | the title is read back from the content lines |
| StayCalendar.ReadLocation | apps/booking-web/lib/calendarFile.ts:68-68 | the location is read back, and absent exactly when empty or not given |
| StayCalendar.ReadNotes | apps/booking-web/lib/calendarFile.ts:69-69 | the notes are read back |
| StayCalendar.ReadReference | apps/booking-web/lib/calendarFile.ts:63-63 | the UID is read back as the reference with the domain |
| StayCalendar.ReadDates | apps/booking-web/lib/calendarFile.ts:64-66 | the stamp, the first day and the day after the last are read back, each under its own name |
| StayCalendar.Wrapped | apps/booking-web/lib/calendarFile.ts:56-73 | the event stands inside a calendar of version 2.0 |
| StayCalendar.StayReadsBack | apps/booking-web/lib/calendarFile.ts:35-77 | the whole file reads back to exactly its content lines, title, location, notes, UID, stamp and days, in short physical lines |
| FirstRunRooms.NumbersRunOn | apps/api/src/hotelFirstRunSetupRoomTestSupport.ts:50-55 | an orderly hotel's named rooms carry exactly the numbers 1 to k, each once across room types |
| FirstRunRooms.BlockGrows | apps/api/src/hotelFirstRunSetupRoomTestSupport.ts:156-188 | naming one more room with the next number keeps a room type's block without gaps |
| FirstRunRooms.NextNumberIsFree | apps/api/src/hotelFirstRunSetupRoomTestSupport.ts:156-168 | the next number is not in use in any room type |
| FirstRunRooms.Hotel.ReadUnits | apps/api/src/hotelFirstRunSetupRoomTestSupport.ts:156-168 | finds the unnamed rooms, each once, and the number after all in use so far |
| FirstRunRooms.Hotel.NameRooms | apps/api/src/hotelFirstRunSetupRoomTestSupport.ts:169-188 | every label command carries the current revision, is never rejected, and a full pass names every room |
| FirstRunRooms.Hotel.MakeType | apps/api/src/hotelFirstRunSetupRoomTestSupport.ts:107-131 | the room type is made with one command if it is not there |
| FirstRunRooms.Hotel.MakeUnits | apps/api/src/hotelFirstRunSetupRoomTestSupport.ts:133-154 | its rooms are made with one command, at the current revision, if it has none |
| FirstRunRooms.Hotel.RunRoomType | apps/api/src/hotelFirstRunSetupRoomTestSupport.ts:97-190 | stopped anywhere the hotel stays orderly; done, the room type is complete; a complete one is left alone; it says it wrote exactly when it sent a command |
| FirstRunRooms.Hotel.RunRooms | apps/api/src/hotelFirstRunSetupRoomTestSupport.ts:56-93 | the same for a whole run: a successful run names every room, a further one sends nothing, and a run says it wrote exactly when it sent a command |
| FirstRunRooms.Hotel.RestartedRuns | apps/api/src/hotelFirstRunSetupRoomTestSupport.ts:56-93 | after any number of runs stopped after any command, named rooms carry exactly the distinct numbers 1 to k |
| HotelIdMigration.ByKey | apps/pms-api/scripts/unify_hotel_ids.py:79-96 | the dictionary holds each key's row, or raises exactly on a duplicate key |
| HotelIdMigration.FetchMapping | apps/pms-api/scripts/unify_hotel_ids.py:60-108 | the mapping and the orphans are those of the tables, unless keys repeat |
| HotelIdMigration.MappingIsOneToOne | apps/pms-api/scripts/unify_hotel_ids.py:98-105 | with distinct ids and keys the mapping repeats neither old nor new ids |
| HotelIdMigration.CountCheckSuffices | apps/pms-api/scripts/unify_hotel_ids.py:166-174 | equal counts make the mapping total on the hotels |
| HotelIdMigration.RenamingKeepsIdsDistinct | apps/pms-api/scripts/unify_hotel_ids.py:197-208 | new ids are distinct even when old and new ids overlap or rotate |
| HotelIdMigration.UpdateTable | apps/pms-api/scripts/unify_hotel_ids.py:184-195 | a child update renames every row, or raises exactly when a unique key is in the way under its check and visiting order |
| HotelIdMigration.UpdateParent | apps/pms-api/scripts/unify_hotel_ids.py:197-208 | the same for the hotels and their primary key |
| RowUpdates.UpdateRows | apps/pms-api/scripts/unify_hotel_ids.py:187-208 | an update visiting rows in any order goes through exactly when the new keys are unique and, checked row by row, no row takes a key that a row visited later still has |
| RowUpdates.GoesInEveryOrder | apps/pms-api/scripts/unify_hotel_ids.py:187-208 | checked row by row it goes through in every order exactly when no new key is another row's current key |
| HotelIdMigration.StoreMapping | apps/pms-api/scripts/unify_hotel_ids.py:152-164 | the temporary table takes the mapping exactly when it is one to one |
| HotelIdMigration.Databases.UpdateChildren | apps/pms-api/scripts/unify_hotel_ids.py:184-195 | all child tables are renamed, or it raises exactly when one of them does |
| HotelIdMigration.Databases.RunMigration | apps/pms-api/scripts/unify_hotel_ids.py:146-238 | committed, it is a pure renaming: no row lost, every child keeps its parent hotel, all keys unique; raised, nothing changed; and exactly when each happens, for every table's keys |
| HotelIdMigration.Databases.ReconcileOrphans | apps/pms-api/scripts/unify_hotel_ids.py:111-143 | every orphan whose id was free gains exactly one booking row with its id and key and its name or the default; nothing is added for a taken id |
| OrphanStubs.ReconciledIds | apps/pms-api/scripts/unify_hotel_ids.py:132-143 | the ids in use afterwards are those of the booking rows and of the orphans |
| OrphanStubs.AddedAreStubs | apps/pms-api/scripts/unify_hotel_ids.py:132-143 | every added row is the stub of an orphan whose id was free |
| OrphanStubs.OwnStub | apps/pms-api/scripts/unify_hotel_ids.py:132-143 | orphans of different ids each gain their own row unless their id was taken |
| HotelIdMigration.AfterReconciling | apps/pms-api/scripts/unify_hotel_ids.py:278-286 | after reconciling keys are still distinct, and a hotel has no booking row exactly when it had none and its id was taken |
| HotelIdMigration.Databases.Unify | apps/pms-api/scripts/unify_hotel_ids.py:241-325 | a dry run exactly without the flag on distinct keys; a commit exactly with it, when every hotel has a booking row or a free id and every UPDATE goes through; otherwise it raises; committed, it is a pure renaming to the booking ids, else the PMS tables are as they were |
| HotelIdMigration.MappingGivesBookingIds | apps/pms-api/scripts/unify_hotel_ids.py:98-105 | with no orphans every hotel's new id is the booking id of its user and slug |
| HotelIdMigration.CommitsExactlyWhen | apps/pms-api/scripts/unify_hotel_ids.py:146-238 | the migration of a fetched mapping commits if and only if keys are checked at the end, or no row of hotels or of any child table takes a key that a row visited later still has |
| HotelIdMigration.CommitsInEveryOrder | apps/pms-api/scripts/unify_hotel_ids.py:146-238 | checked row by row it commits whatever the visiting orders if and only if no hotel's new id is another hotel's current id |
| HotelIdMigration.ChildTableRefuses | apps/pms-api/scripts/unify_hotel_ids.py:184-195 | payment settings can be refused where the hotels alone would go through |
| HotelIdMigration.SwappedIdsAreRefused | apps/pms-api/scripts/unify_hotel_ids.py:197-200 | two hotels whose ids swap are refused by a row-by-row key check in either order and accepted by one at the end |
| AlterationRuntime.Adapter.DecideStart | apps/api/src/airbnbAlterationRuntime.ts:55-62 | a decision is accepted exactly while open, owned and listed, and joins the set |
| AlterationRuntime.Adapter.DecideFinally | apps/api/src/airbnbAlterationRuntime.ts:63-67 | a settled decision leaves the set |
| AlterationRuntime.Adapter.TickStart | apps/api/src/airbnbAlterationRuntime.ts:79-90 | a tick joins the batch in flight or starts one, and neither once closed |
| AlterationRuntime.Adapter.BatchFinally | apps/api/src/airbnbAlterationRuntime.ts:87-89 | a settled batch is cleared |
| AlterationRuntime.Adapter.CloseStart | apps/api/src/airbnbAlterationRuntime.ts:92-95 | close marks the runtime and collects everything in flight |
| AlterationRuntime.Adapter.CloseEnd | apps/api/src/airbnbAlterationRuntime.ts:95-97 | the pools end after the wait |
| AlterationRuntime.StepOrderly | apps/api/src/airbnbAlterationRuntime.ts:41-98 | every stretch of code and every settling keeps the bookkeeping true to what runs |
| AlterationRuntime.AlwaysOrderly | apps/api/src/airbnbAlterationRuntime.ts:41-98 | the same after every run |
| AlterationRuntime.AtMostOneBatch | apps/api/src/airbnbAlterationRuntime.ts:79-91 | in every interleaving at most one batch is in flight |
| AlterationRuntime.NothingStartsAfterClose | apps/api/src/airbnbAlterationRuntime.ts:45-97 | once close begins nothing starts |
| AlterationRuntime.PoolsEndLast | apps/api/src/airbnbAlterationRuntime.ts:92-97 | the pools end only once every batch and decision has settled, and nothing runs after |
| AlterationRuntime.CloseWaitsExactly | apps/api/src/airbnbAlterationRuntime.ts:92-97 | a waiting close goes on exactly when nothing is in flight |
| AnalyticsConsent.Page.Stop | apps/landing/lib/cloudflareAnalytics.ts:40-45 | a loaded document is revoked, another is left alone |
| AnalyticsConsent.Page.IsPermitted | apps/landing/lib/cloudflareAnalytics.ts:35-38 | a request is permitted exactly as the stored choice and the document's revocation say |
| AnalyticsConsent.Page.Sync | apps/landing/lib/cloudflareAnalytics.ts:47-91 | loads once on acceptance, stops otherwise |
| AnalyticsConsent.Page.OnStorage | apps/landing/context/CookieConsentContext.tsx:58-68 | a withdrawal seen in another tab stops this one even if it was already undone |
| AnalyticsConsent.Page.SaveConsent | apps/landing/context/CookieConsentContext.tsx:74-100 | storage, mark and document after a save, whatever write fails |
| AnalyticsConsent.WithdrawalTakesEffect | apps/landing/context/CookieConsentContext.tsx:78-94 | a withdrawal takes effect unless every one of its writes fails |
| AnalyticsConsent.AcceptanceTakesEffect | apps/landing/context/CookieConsentContext.tsx:82-94 | an acceptance counts only once stored with the mark cleared |
| AnalyticsConsent.SaveIsItsSteps | apps/landing/context/CookieConsentContext.tsx:74-100 | a save is its interleavable steps in order |
| AnalyticsConsent.EventsReachDocuments | apps/landing/context/CookieConsentContext.tsx:44-71 | a loading document has the script exactly on acceptance; one that sees a withdrawal in a storage event is revoked if it has the script |
| AnalyticsConsent.PassesExactly | apps/landing/lib/cloudflareAnalytics.ts:59-80 | a request passes exactly while the stored choice accepts and the document was never revoked |
| AnalyticsConsent.RevokedStays | apps/landing/lib/cloudflareAnalytics.ts:40-45 | a revoked document stays revoked and silent through every run of all tabs |
| AnalyticsConsent.StoredWithdrawalHolds | apps/landing/context/CookieConsentContext.tsx:74-100 | after a stored withdrawal no tab sends until a later acceptance is stored |
| AnalyticsConsent.MarkedWithdrawalHolds | apps/landing/context/CookieConsentContext.tsx:78-91 | after a marked withdrawal no tab sends until a save that stored an acceptance, earlier or later, clears the mark |
| ConsentWithdrawal.WithdrawalHoldsExactly | apps/landing/context/CookieConsentContext.tsx:74-100 | from any state no tab sends until a later acceptance is stored, if and only if the stored choice does not accept, or the withdrawal is marked and no live tab is about to clear it |
| ConsentWithdrawal.WithdrawalSilences | apps/landing/context/CookieConsentContext.tsx:78-94 | the same after one withdrawal, as an exact condition on which of its writes went through and on the saves in progress |
| ConsentWithdrawal.CrossedSaves | apps/landing/context/CookieConsentContext.tsx:78-91 | from an empty browser, a withdrawal between the two halves of another tab's acceptance holds exactly when one of its own writes to the stored choice went through |
| ServerClock.Page.CurrentOffset | apps/booking-web/lib/serverClock.ts:24-46 | on the first look only, the saved estimate is restored if readable and at most fifteen minutes old either way, and never over one held |
| ServerClock.Page.ObserveServerTime | apps/booking-web/lib/serverClock.ts:52-63 | a larger offset replaces the estimate and is saved, anything else changes nothing |
| ServerClock.Page.ServerNow | apps/booking-web/lib/serverClock.ts:66-68 | device time plus the estimate |
| ServerClock.Page.DeviceTimeOf | apps/booking-web/lib/serverClock.ts:71-73 | the instant less the estimate |
| ServerClock.Page.ResetServerClock | apps/booking-web/lib/serverClock.ts:76-79 | forgets the estimate as a reload does |
| ServerClock.StepCalibrated | apps/booking-web/lib/serverClock.ts:24-79 | every step keeps the estimate at the skew less the smallest latency not forgotten |
| ServerClock.AlwaysCalibrated | apps/booking-web/lib/serverClock.ts:24-79 | the same after every run of observations and reloads |
| ServerClock.NeverAheadAndClosest | apps/booking-web/lib/serverClock.ts:48-68 | the estimate is never ahead of the server and lags it by at most the smallest latency observed since it was last forgotten |
| ServerClock.NeverStepsBack | apps/booking-web/lib/serverClock.ts:48-57 | within a page the estimate never steps back relative to the device clock |
| ServerClock.LookedOnce | apps/booking-web/lib/serverClock.ts:24-46 | only the first look can restore the saved estimate; every later one finds what it left |
| ServerClock.AsksAgree | apps/booking-web/lib/serverClock.ts:24-46 | any number of further calls without a new answer or a reload use the first call's estimate |
| ServerClock.Page.BothConversions | apps/booking-web/lib/serverClock.ts:65-73 | the two calls, in either order and with the first possibly restoring the estimate, agree on whether an instant has passed |
| ServerClock.NothingForgotten | apps/booking-web/lib/serverClock.ts:24-63 | while storage works and reloads are recent, no observation is forgotten |
| AgencyOrder.ShownIsPermutation | apps/booking-web/lib/agencyOverview.ts:177-190 | every open card is shown exactly once |
| AgencyOrder.ShownInOrder | apps/booking-web/lib/agencyOverview.ts:177-190 | sorted by price: better price first, ties in page order, unpriced last in page order |
| AgencyOrder.CheapestIsFirst | apps/booking-web/lib/agencyOverview.ts:173-176 | the reduce finds the first of the cheapest |
| AgencyOrder.BadgeExactly | apps/booking-web/lib/agencyOverview.ts:191-194 | a card has the badge exactly when it is on, two or more are priced and it is the first of the cheapest |
| AgencyOrder.OneBadge | apps/booking-web/lib/agencyOverview.ts:191-194 | exactly one place in the list carries it |
| AgencyOrder.BadgeComesFirst | apps/booking-web/lib/agencyOverview.ts:177-194 | cheapest first, it is the first card |
| AgencyColumns.OpenExactly | apps/booking-web/lib/agencyOverview.ts:136-160 | an open card is exactly a wanted stay whose last price in the answer is available or unknown, priced with the rates asked for and within the bounds |
| AgencyColumns.FullExactly | apps/booking-web/lib/agencyOverview.ts:197-197 | the full list is exactly the wanted stays whose last price says full or too small |
| AgencyColumns.ComparedBy | apps/booking-web/lib/agencyOverview.ts:161-171 | cards compare by their price per night in one currency, by its conversion across currencies, and not at all without an amount |
| AgencyColumns.RoundIsNearest | apps/booking-web/lib/agencyOverview.ts:88-92 | prices round to the nearest whole number, the higher of two |
| AgencyColumns.ByIdIsLast | apps/booking-web/lib/agencyOverview.ts:144-144 | a property's price is the last one in the answer |
| AgencyCards.CardsShowOpenStays | apps/booking-web/lib/agencyOverview.ts:161-200 | the cards are the open stays, each once, in the order asked for, with the badge exactly on the first of the cheapest |
| AgencyCards.OneLowestCard | apps/booking-web/lib/agencyOverview.ts:191-194 | some card is the lowest exactly when the badge is on and two are priced; never two cards; under cheapest first it is card one |
| AgencyCards.OpenOrFull | apps/booking-web/lib/agencyOverview.ts:144-160 | without rate or price filters every stay in the answer is open or full, never both |
| AgencyCards.RankedInOrder | apps/booking-web/lib/agencyOverview.ts:332-336 | one comparator with missing distances behind sorts known distances first and the rest in page order |
| AgencyCards.NearbyAreClosest | apps/booking-web/lib/agencyOverview.ts:319-338 | the stays nearby are the first of the page's other stays by distance, at most as many as asked |
| AgencyChips.Choices | apps/booking-web/lib/agencyOverview.ts:253-262 | the tally loop, filter and sort give the specified choices |
| AgencyChips.ListedExactly | apps/booking-web/lib/agencyOverview.ts:255-260 | a value is listed exactly when some but not all stays have it |
| AgencyChips.ListedInOrder | apps/booking-web/lib/agencyOverview.ts:257-260 | most stays first, equal counts in page order, none twice |
| AgencyChips.OpenCount | apps/booking-web/lib/agencyOverview.ts:136-160 | open cards with a quality, counted on the stays |
| AgencyChips.RateCount | apps/booking-web/lib/agencyOverview.ts:152-160 | with a kind of rate asked for, the results count the available stays that have it |
| AgencyChips.RateChip | apps/booking-web/lib/agencyOverview.ts:268-296 | from no filters a rate chip is offered exactly when switched on and the results with it have some but not all available stays |
| AgencyChips.TotalIsKept | apps/booking-web/lib/agencyOverview.ts:136-149 | before an answer the total is the stays of the type, area and pool asked for; with one it is at most that, and equal exactly when each of them is in the answer |
| AgencyChips.ResultsSplit | apps/booking-web/lib/agencyOverview.ts:136-149 | such filters show some but not all of the results exactly when they split the answered stays |
| AgencyChips.TypeChipSplits | apps/booking-web/lib/agencyOverview.ts:280-284 | from no filters, whatever was answered, a type chip is offered exactly when switched on and it keeps some but not all of the page's stays |
| AgencyChips.AreaChipSplits | apps/booking-web/lib/agencyOverview.ts:285-289 | the same for an area |
| AgencyChips.PoolChipSplits | apps/booking-web/lib/agencyOverview.ts:290-293 | the same for the private pool |
| AgencyChips.TotalSplits | apps/booking-web/lib/agencyOverview.ts:136-149 | once there is an answer, such filters split the results exactly when some stay in the answer passes them and some does not |
| AgencyChips.TypeChip | apps/booking-web/lib/agencyOverview.ts:280-284 | the results with the type split exactly when the answered stays do; with all stays answered, or none yet, that is exactly when the chip is offered, if switched on |
| AgencyChips.AreaChip | apps/booking-web/lib/agencyOverview.ts:285-289 | the same for an area |
| AgencyChips.PoolChip | apps/booking-web/lib/agencyOverview.ts:290-293 | the same for the private pool |
| AgencyChips.UnansweredTypeChip | apps/booking-web/lib/agencyOverview.ts:144-149 | with a stay missing from the answer an offered type can show nothing |
| AgencyChips.RangeCounts | apps/booking-web/lib/agencyOverview.ts:151-159 | a range keeps or drops a priced card exactly when some shown price lies in or outside it |
| AgencyChips.UpperBound | apps/booking-web/lib/agencyOverview.ts:271-302 | whatever rate filters are on, an upper bound keeps a priced card exactly from the shown minimum and drops one exactly below the shown maximum |
| AgencyChips.LowerBound | apps/booking-web/lib/agencyOverview.ts:271-302 | the mirror image for a lower bound |
| AgencyChips.ChipInUseStays | apps/booking-web/lib/agencyOverview.ts:231-304 | a chip in use is always still offered |

## Left out

- The interleaved owner transactions are a step machine on values, one event per statement or row lock, since the order of steps is the point; only `OwnerAlone` follows the code as methods.
- OwnerCommits.AuthorityStandsAtCommit: new grants and assignments that appear while a command runs are not counted, because nothing locks against their insertion; `OwnerTables.FullTablesStand` says what that leaves.
- A second active membership of the same user that appears while a command runs: the table's unique key on organization and user rules it out and is not modelled.
- `lockHotelSetupCreationPermissions` asks the same membership queries without a property; it adds no new locks or decisions.
- The isolation-level query of the scope, release of clients and pool errors: the runner always begins at READ COMMITTED.
- Expiry between the clock read and COMMIT: access is claimed for the instant read.
- PostgreSQL deadlock detection, lock queues and fairness: a waiting step simply cannot happen yet, and any step may be a rollback.
- SQL text, jsonb operators and metadata beyond the marker, KMS, S3, signing and image variants.
- The body of `resolveMembershipRolePermissions`, `resolveEffectivePropertyAccess`, `readConsent` and `normalize`: arbitrary functions or outcomes.
- Line splitting, aliases and the seen set of `parseBookingAmenities`; only its fuzzy choice is modelled.
- Lone surrogates in calendar text, date arithmetic of `nextDay` and the time stamp: dates are given texts without line feeds.
- Floating point: ratios, prices and distances are real numbers, times are integers.
- Session-storage drafts of the room picker, and page links, dates and locales of the agency overview.
- Room type facts, beds and idempotency keys of the first run; a command is applied, rejected or the run stops.
- Constraint names and connection handling of the id migration.
- Cookie expiry and attributes, script integrity and the wrapped transport functions other than their guard.
- The work inside alteration batches and decisions.
- React rendering, routing, composition and configuration.
