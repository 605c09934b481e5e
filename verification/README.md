# Promotion platform: draw, audit trail, transactions and sign-in, modelled and proved

The platform runs prize draws for a promotion. What people must be able to rely on is that a draw
cannot be bent after the fact, that the audit trail cannot fork or be rewritten unnoticed, that
a failed transaction leaves nothing behind, and that the second factor of staff accounts cannot be
dropped by a side door. This project models that logic in Dafny and proves it.

| files | what they model |
|---|---|
| `Draw.dfy`, `DrawTickets.dfy`, `DrawRanking.dfy`, `DrawFairness.dfy`, `DrawPrizes.dfy` | tickets, sorting, the greedy pass, prize tiers; what the draw means (everybody ranked by their best ticket) and the fairness results that follow |
| `Json.dfy`, `JsonCanonical.dfy`, `JsonParser.dfy`, `Conversions.dfy` | the canonical printer and a complete parser for the JSON of RFC 8259; JavaScript's conversions to text and the comparison of a converted value with 2 |
| `DrawBundle.dfy`, `DrawNoReroll.dfy`, `BundleAnchor.dfy`, `BundleEvents.dfy`, `BundleChecks.dfy`, `AnchoredDraws.dfy`, `HonestExports.dfy` | the independent verifier of an exported draw |
| `AuditChain.dfy`, `AuditHistory.dfy`, `AuditWriters.dfy`, `AuditProgress.dfy`, `AuditCheckpoints.dfy`, `AuditLog.dfy`, `AuditReports.dfy` | the hash-chained audit log, its concurrent writers and what they achieve, its verifier and what it reports, its checkpoints |
| `Transactions.dfy`, `Migrations.dfy`, `MigrationProgress.dfy` | nested transactions on one connection; several processes migrating one database, safely and to the end |
| `Base32.dfy`, `Totp.dfy`, `AuthMfa.dfy`, `AuthSuccess.dfy` | authenticator secrets, one-time codes, and the sign-in state machine: what it never does and what it does |
| `CrmReceiver.dfy`, `CrmRecords.dfy` | the versioned upsert of the CRM webhook receiver under fault injection, and what it stores and answers |
| `Collections.dfy`, `Hashing.dfy`, `Strings.dfy` | shared notions: options, digests and collisions, JavaScript's string order, decimal text, sorting of texts |

Loops and objects of the program are Dafny methods and classes, each proved against a function of
its inputs or of the old state; the theorems are lemmas about those functions. The two protocols
with many processes (`record` and `migrate`) are step functions, and their theorems hold for every
schedule of steps.

## Main results

- The draw: `DrawTickets.TicketsAreChances`, `DrawTickets.RankedByLeastScore`, `DrawRanking.AcceptedIsRanking` with `RankingIsUnique` (what the greedy pass means),
  `DrawRanking.SelectionIsPrefix`, `DrawRanking.AlternateIsNextInLine`, `DrawFairness.ListingOrderIsIrrelevant`,
  `DrawFairness.RaisingWeightNeverHurts`, `DrawPrizes.PrizesAreConserved`.
- Its verifier: `DrawBundle.VerifyExecuted` with `HonestBundleVerifies`, `DrawNoReroll.NoReroll`,
  `BundleEvents.AnchorPinsTheEvents`, `AnchoredDraws.AnchoredDrawsAgree`, `HonestExports.HonestExportPasses`.
- Canonical JSON: `JsonParser.ParseCanon`, `JsonParser.CanonEquality`.
- The audit trail: `AuditHistory.HeadDeterminesHistory`, `AuditWriters.NoScheduleForksTheChain`,
  `AuditProgress.RowsAreSuccessfulCalls`, `AuditProgress.CallEnds`, `AuditReports.WholeReport`,
  `AuditWriters.GivingUpMeansContention`, `AuditLog.AuditLog.Record`, `AuditCheckpoints.MatchPinsHistory`.
- Transactions and migrations: `Transactions.Connection.Run` with `Transactions.DoesAsIntended`,
  `Migrations.MigrationsCommitOnceInOrder`, `Migrations.CountsAddUp`, `Migrations.OrderlyIffNoComma`,
  `MigrationProgress.EveryoneCanFinish`, `MigrationProgress.RacersShareTheWork`.
- Sign-in: `Base32.RoundTrip`, `Totp.Totp`, `Totp.AcceptedCodes`, `AuthMfa.PendingWasAuthorised`,
  `AuthMfa.ReplacingNeedsBothCodes`, `AuthMfa.OffOnlyByCode`, `AuthMfa.TokenTakesBothFactors`,
  `AuthMfa.TokensNeedPasswords`, `AuthSuccess.SetUpEndsInToken`.
- The CRM receiver: `CrmReceiver.ReflectsLastHighest`, `CrmReceiver.IdAndVersionKept`,
  `CrmReceiver.ConvergesIffSettled`, `CrmReceiver.WentBackBecause`.

The methods of `AuthMfa.Auth` and `CrmReceiver.Receiver` are tied to step functions of much the same shape;
what they are worth is said by the lemmas about runs of these steps, and by `AuthSuccess` and `CrmRecords`, which
say without these functions when each operation succeeds and what it then does. One-step facts that follow from the
definitions alone, and serve as helpers, are not in the table below: `Draw.OutcomeGrows`, `Draw.OutcomeSaturates`,
`Transactions.CallUnfolds`, `AuthMfa.FactorMoves`, `AuthMfa.ChallengeStep` and `AuthMfa.TokenStep`.

## Assumptions

- SHA-256 and HMAC are function parameters (`sha`, `hmac`). Where a result needs digests to be 64
  hexadecimal digits or free of collisions, it says so. Freedom from collisions is asked only of
  the finitely many strings hashed in the logs or bundles that are compared: a function onto 64
  hexadecimal digits cannot be injective on all strings.
- Random values, clocks, `generateSecret`, the normal form of an e-mail address, the password check and
  JavaScript's conversions to strings and numbers are parameters too. So is how a verifier reads the single
  values of a snapshot; of such a reader it is only asked that it ignores the order of keys.
- A string is a sequence of Unicode characters, compared as JavaScript does, by UTF-16 code units.
- A JSON number is the numeral that JavaScript writes for it: an integer, or with decimals or an exponent. Text
  that spells a number in another way keeps its spelling when it is parsed, where JavaScript would round it or
  write it differently afterwards (1.50, or the exact digits of 2^60). An object lists its keys in the order in
  which they are enumerated.
- SQLite is present only as what the code needs of it: BEGIN and savepoints over snapshots, one write
  lock, the partial UNIQUE index on `prev_hash`, ids one above the last.

## Where the code promises less than it seems to

- Migration files with a comma in their name are never remembered as applied (`Migrations.LedgerRemembers`,
  `Migrations.CommaIsForgotten`). `Migrations.OrderlyIffNoComma`: all schedules from all ledgers are orderly
  if and only if no name has one. The shipped names have none.
- `verifyTotp` throws instead of answering `false` in the first and last window of the 32-bit counter
  (`Totp.AcceptedCodes`).
- In the CRM receiver, deliveries of one version with different records do not converge
  (`CrmReceiver.ConvergesIffSettled`, with an input in `CrmReceiver.EqualVersionsDiffer`). A stored version can go back in two ways, and no others
  (`CrmReceiver.WentBackBecause`): a record redefines `entity_version` to a lower number
  (`CrmReceiver.VersionDropsIff`), or a delivery leaves something there that is no number
  (`CrmReceiver.NumberLostIff`), after which any version is taken (`CrmReceiver.NaNTakesEverything`; deliveries
  of 5, "abc" and 3 end with version 3, `CrmReceiver.OlderAfterNaN`). An id changes exactly when a stored record
  carries another one, or the stored id counts as false (`CrmReceiver.IdChangesIff`); `CrmReceiver.RedefinedRecord` is an input
  that lowers the version and changes the id. An entity type that extends
  another by a colon shares slots with it (`CrmReceiver.SlotsApartIff`).
- If the ROLLBACK that unwinds a failed call fails too, the call is not a no-op, and an outermost one leaves its
  transaction open; the ROLLBACK's own error is at most noted on the one that is thrown on. If a statement takes the
  whole transaction with it and its exception is caught inside the block, what comes later is committed although the
  call throws in the end. `Transactions.FailedCallIsNoOpIff` says exactly when a failed call is a no-op, and
  `Transactions.FailedWriteCommitted` and `Transactions.LostTransaction` are inputs where it is not. If only the
  RELEASE of an unwinding fails, a savepoint stays on the stack until an enclosing call ends
  (`Transactions.SavepointsLeftIff`, with an input in `Transactions.SavepointLeft`).
- The canonical printer does not tell `undefined` from `null` (`JsonParser.CanonEquality`). So a draw without an
  algorithm has the output digest of one whose algorithm is null, while the stored outputs differ in that entry
  (`AnchoredDraws.AnchoredDrawsAgree`).

## Model

| member | source | states |
|---|---|---|
| Draw.Sortition | scripts/verify-draw-bundle.mjs:20-24 | the nested loops produce the sorted arrangement of every candidate's tickets, at least one each |
| Draw.SortSorts | scripts/verify-draw-bundle.mjs:23 | the arrangement is in order of score, then entry id, and holds the same tickets the same number of times |
| Draw.SortIsUnique | scripts/verify-draw-bundle.mjs:23 | with one participant per entry id, every correct sort gives the same sequence, although the comparator never returns 0 |
| DrawTickets.ChanceTextInjective | scripts/verify-draw-bundle.mjs:22 | different chances are scored on different texts, whatever the entry ids look like |
| DrawTickets.TicketsAreChances | scripts/verify-draw-bundle.mjs:20-24 | the sorted sequence holds max(1, weightUnits) tickets of each candidate, one for each chance with the score of its own text, and no others |
| DrawTickets.TicketsAscend | scripts/verify-draw-bundle.mjs:23 | the sequence goes up in score, and in entry id where scores are equal |
| DrawTickets.RankedByLeastScore | scripts/verify-draw-bundle.mjs:20-36 | everybody ranked is ranked by the least score of all chances of the entry, or of the participant |
| Strings.LessIsLexicographic | scripts/verify-draw-bundle.mjs:23 | the order of scores, ids and keys is the lexicographic order of UTF-16 code units |
| Draw.FindPrizeCode | scripts/verify-draw-bundle.mjs:25 | the running count finds the first tier that reaches the rank; past the end it is the last tier's code, or P1 |
| Draw.Select | scripts/verify-draw-bundle.mjs:26-36 | the loop with its seen-sets and its early break gives the first winners and alternates of the whole de-duplicated sequence, so the break loses nothing |
| DrawRanking.GreedyIsFirstByKey | scripts/verify-draw-bundle.mjs:27-30 | the two seen-sets together keep exactly the first ticket of each entry, or of each participant under one prize per participant |
| DrawRanking.AcceptedIsRanking | scripts/verify-draw-bundle.mjs:26-36 | the accepted tickets list each entry (or participant) once, through its smallest ticket, in ascending order |
| DrawRanking.RankingIsUnique | scripts/verify-draw-bundle.mjs:20-36 | that description has one answer: a set of tickets has at most one ranking |
| DrawRanking.SelectionIsPrefix | scripts/verify-draw-bundle.mjs:31-35 | winners followed by alternates are the first totalWinners + totalAlternates of the ranking (a negative number counts as none), positions from 1, lists short only when the ranking runs out |
| DrawRanking.DeletedKeyClosesGap | scripts/verify-draw-bundle.mjs:26-36 | deleting all tickets of an accepted entry or participant and drawing again leaves the others in the same order |
| DrawRanking.AlternateIsNextInLine | scripts/verify-draw-bundle.mjs:26-36 | without one winner the others stay winners in order, the first alternate becomes the last winner and the other alternates move up |
| DrawFairness.DrawRanksEveryCandidate | scripts/verify-draw-bundle.mjs:20-36 | every candidate is ranked, and only candidates are, each by the smallest of its own tickets |
| DrawFairness.ListingOrderIsIrrelevant | scripts/verify-draw-bundle.mjs:20-36 | with unique entry ids any permutation of the candidates, under any sort, gives the same sequence, winners and alternates |
| DrawFairness.MoreTicketsNeverHurt | scripts/verify-draw-bundle.mjs:22-36 | more tickets for one entry or participant never rank it later and do not reorder the others |
| DrawFairness.RaisingWeightNeverHurts | scripts/verify-draw-bundle.mjs:22-36 | raising a candidate's weightUnits never ranks it (or its participant) later and does not reorder the others |
| DrawPrizes.TierBounds | scripts/verify-draw-bundle.mjs:25 | a rank belongs to a tier exactly when it lies above all earlier tiers and within this one |
| DrawPrizes.PrizeCodeMeans | scripts/verify-draw-bundle.mjs:25 | a rank has the code of the tier that holds it, counting prizes from the first; beyond all of them the last tier's, or P1 |
| DrawPrizes.TierOrder | scripts/verify-draw-bundle.mjs:25 | tier indexes never decrease with rank |
| DrawPrizes.RanksInTier | scripts/verify-draw-bundle.mjs:25 | how many of the first m ranks each tier gets, as a closed form |
| DrawPrizes.TierShares | scripts/verify-draw-bundle.mjs:25 | no tier is oversubscribed, tiers before that of the last rank are filled, later ones empty, and all are filled when there are as many ranks as prizes |
| DrawPrizes.PrizesAreConserved | scripts/verify-draw-bundle.mjs:25-36 | a code is held by as many winners as there are ranks in the tiers with that code, never more than those tiers hold, and exactly as many in a full draw |
| JsonCanonical.CanonIsPrint | src/audit.mjs:50-56 | the canonical text is the JSON text of the value with keys sorted at every level and undefined as null |
| JsonCanonical.SameNormalizes | src/audit.mjs:53 | values equal up to key order have one canonical form |
| JsonCanonical.NormalizesSame | src/audit.mjs:53 | values with one canonical form are equal up to key order |
| JsonCanonical.TextShapes | src/audit.mjs:50-56 | brackets, commas and colons without white space |
| JsonCanonical.EscapesAre | src/audit.mjs:53-55 | which characters are escaped, and how |
| JsonCanonical.IntegersAre | src/audit.mjs:55 | decimal digits without leading zeros, after a minus sign only if negative |
| JsonParser.ParsePrinted | src/audit.mjs:103 | parsing printed text followed by any suffix that cannot extend it returns the value and that suffix |
| JsonParser.ParseCanon | src/audit.mjs:50-56 | the same for canonical text: the parser undoes the printer up to the canonical form |
| JsonParser.CanonEquality | src/audit.mjs:106 | two values print equally exactly when they are equal up to key order, undefined counted as null |
| DrawBundle.AllDifferentMeans | scripts/verify-draw-bundle.mjs:44 | comparing the size of a set with the length of the list finds exactly the lists without repetition |
| DrawBundle.DrawnIsProper | scripts/verify-draw-bundle.mjs:80-81 | the checks on eligibility, on one prize per participant and on the counts cannot fail on a recomputed selection |
| DrawBundle.StoredIsRecomputed | scripts/verify-draw-bundle.mjs:65-67 | an output whose JSON text equals that of the recomputation is the recomputation, member by member, without an algorithm if the draw has none |
| DrawBundle.PassingIsVerified | scripts/verify-draw-bundle.mjs:41-82 | four of the checks are redundant: eligibility, one prize per participant and the two counts of stored winners and alternates follow from the others |
| DrawBundle.VerifyExecuted | scripts/verify-draw-bundle.mjs:38-82 | the list of checks of an executed draw ends without a failure exactly for the verified bundles, with whatever conversions the snapshot is read; an absent algorithm is hashed as null and left out of the stored text |
| BundleChecks.VerifiedMeans | scripts/verify-draw-bundle.mjs:41-82 | what a verified bundle says, check by check: its version, digests, draw and period, unique entries, seed, plan, prize codes |
| BundleChecks.RulesDisclosedIff | scripts/verify-draw-bundle.mjs:48-51 | a disclosed list of rules versions passes exactly when its entries add up to the candidates |
| BundleChecks.SnapshotReadsBack | scripts/verify-draw-bundle.mjs:63-65 | candidates and plan are read from a snapshot as they were written into it |
| DrawBundle.HonestBundleVerifies | scripts/verify-draw-bundle.mjs:38-82 | no honest draw is refused by these checks: with unique entry ids and tiers that hold the planned winners, a bundle whose digests are of what they are said to be of passes all of them, even a short draw |
| DrawNoReroll.SnapshotsAlike | scripts/verify-draw-bundle.mjs:42-65 | snapshots equal up to key order give the same candidates and plan, whatever conversions read them |
| DrawNoReroll.VerifiedOutput | scripts/verify-draw-bundle.mjs:63-67 | the stored sequence, winners and alternates of a verified bundle are those drawn from its snapshot and seed |
| DrawNoReroll.NoReroll | scripts/verify-draw-bundle.mjs:40-83 | two verified executed bundles with one snapshot digest and one seed commitment have the same snapshot up to key order, the same seed and the same stored sequence, winners and alternates |
| DrawNoReroll.SampleVerifies | scripts/verify-draw-bundle.mjs:40-83 | a bundle, read without conversions, that meets what NoReroll asks |
| BundleAnchor.CheckAnchor | scripts/verify-draw-bundle.mjs:170-194 | the flag with its early exits is true exactly when the tail recomputes, links up, ends at the signed head and starts at this draw's manifest, which lists exactly the exported events and the digests; and exactly when the script ends in an exception instead |
| BundleChecks.AnchoredMeans | scripts/verify-draw-bundle.mjs:170-192 | an anchored tail recomputes, is linked, ends at the signed row and head and starts at the named record, this draw's export with its digests |
| Strings.SortedAlike | scripts/verify-draw-bundle.mjs:188-190 | comparing sorted lists compares the lists up to order |
| BundleAnchor.TailsAgree | scripts/verify-draw-bundle.mjs:174-181 | linked tails that end at one head agree event by event backwards from it |
| BundleAnchor.AnchorPinsTheExport | scripts/verify-draw-bundle.mjs:170-194 | bundles anchored to one head with tails of one length have the same tail bodies, the same exported labels and the same draw digests |
| BundleEvents.CheckEvents | scripts/verify-draw-bundle.mjs:93-110 | the loop's flags say whether every event recomputes and parses and whether every exported column of a signed event agrees with its body; the counter is the number of unsigned ones, however their version is written |
| BundleChecks.IntactIff | scripts/verify-draw-bundle.mjs:99-100 | an event is intact when its hash is of its own text and its body can be read |
| BundleChecks.AttributedIff | scripts/verify-draw-bundle.mjs:94-106 | attribution is of ten columns, each against the field of its own name |
| Conversions.AtLeastTwoMeans | scripts/verify-draw-bundle.mjs:101 | which versions count as signed: numbers from 2 on, integers as text likewise, nothing that is false, true or an object |
| Conversions.ListTexts | scripts/verify-draw-bundle.mjs:188-189 | a list is written as its items with commas between |
| BundleEvents.AnchorPinsTheEvents | scripts/verify-draw-bundle.mjs:93-194 | such bundles export the same audit events: each has its counterpart with the same id, signed body and displayed attribution |
| AnchoredDraws.AnchoredDrawsAgree | scripts/verify-draw-bundle.mjs:40-194 | verified bundles anchored to one head with tails of one length are of one draw, with the same snapshot up to key order and the same stored sequence, winners and alternates, whatever seed was committed; and the same algorithm, an absent one counted as null |
| AnchoredDraws.OutputIsHashed | scripts/verify-draw-bundle.mjs:65-67 | the output digest of a verified bundle is that of its stored output, an absent algorithm counted as null |
| HonestExports.HonestExportPasses | scripts/verify-draw-bundle.mjs:93-194 | rows exported from any log that verifies, with a record in it that lists them and the tail from that record to the checkpointed head, are anchored, recompute and say what was signed |
| AuditChain.ReadBack | src/audit.mjs:72-77 | every field of a recorded body is read back with the value written |
| AuditReports.RecordedBodyMeans | src/audit.mjs:72-77 | a recorded body has version 2, the payload, and each attributed value under its own name |
| AuditChain.ColumnsAgree | src/audit.mjs:104-107 | no column fault is reported exactly when all ten columns agree with the body |
| AuditChain.NewRowIsClean | src/audit.mjs:69-80 | a recorded row has no fault after its head and counts as signed |
| AuditChain.AppendVerifies | src/audit.mjs:75-81 | recording at the head of a log that verifies gives a log that verifies |
| AuditChain.FaultsSplit | src/audit.mjs:93-111 | the faults of a log are those of its first part and those of the rest checked from where the first ends |
| AuditHistory.SplitIsUnique | src/audit.mjs:78 | a hashed string splits into previous hash and body in one way, although nothing separates them |
| AuditHistory.SameBodySameColumns | src/audit.mjs:37-48 | clean signed rows with one body have the same value in all ten attributed columns |
| AuditHistory.HeadDeterminesHistory | src/audit.mjs:93-112 | logs that verify with the same head have the same length, the same hashes and body at each position and, in signed rows, the same attribution |
| AuditHistory.CheckpointPinsHistory | src/audit.mjs:128-152 | if an old head is still a row's hash in a log that verifies, the log up to there is the old log |
| AuditWriters.StaleLoses | src/audit.mjs:75-84 | an insert against a head that is out of date always trips the index |
| AuditWriters.StepIsSafe | src/audit.mjs:69-86 | every statement of every writer keeps the log verified and each writer's head a head that the log had |
| AuditWriters.NoScheduleForksTheChain | src/audit.mjs:69-112 | after any interleaving of any number of writers, from any log that verifies, the log verifies, extends what was there, and all new rows are signed |
| AuditWriters.HeadsDiffer | src/audit.mjs:76-80 | a chain never has the same head at two places |
| AuditWriters.LosesIffStale | db/migrations/008_audit_chain_integrity.sql:14-16 | the index refuses an insert exactly when another row arrived since the head was read |
| AuditWriters.GivingUpMeansContention | src/audit.mjs:75-85 | a call that throws the conflict has seen at least nine rows of other writers, and none of its own, since it began |
| AuditProgress.RowsAreSuccessfulCalls | src/audit.mjs:75-81 | in any schedule the log grows with every successful insert by the row of that call, after the head before it, and by nothing else |
| AuditProgress.CallInProgress | src/audit.mjs:75-85 | the attempt number of a call counts the inserts that the index has refused since it began |
| AuditProgress.CallEnds | src/audit.mjs:75-85 | a call is over when its insert succeeds, fails for another reason, or is refused for the ninth time, and in no other way |
| AuditProgress.UninterruptedRecords | src/audit.mjs:76-81 | a writer that reads the head and inserts records, if nobody has recorded in between |
| AuditProgress.AloneRecords | src/audit.mjs:69-81 | a call that nobody interrupts records its event |
| AuditProgress.ScheduleKeepsIds | src/audit.mjs:80-81 | ids stay positive and ascending in any schedule |
| AuditProgress.IndexMeans | db/migrations/008_audit_chain_integrity.sql:14-16 | which rows the index covers, and that it refuses exactly a covered row whose previous hash another covered row has |
| AuditCheckpoints.CheckpointLasts | src/audit.mjs:127-152 | a checkpoint keeps matching a log that only grows, and its signature verifies exactly when both keys are set and sign alike, so never if there was none |
| AuditCheckpoints.MatchPinsHistory | src/audit.mjs:145-152 | a log that verifies and matches a checkpoint has the history from when the checkpoint was taken |
| AuditCheckpoints.SignedTextInjective | src/audit.mjs:131 | what is signed determines the row and the head |
| AuditCheckpoints.SignaturePins | src/audit.mjs:145-149 | checkpoints that verify with one signature are of one row and one head |
| AuditLog.RangeVerification | src/audit.mjs:93-111 | checking from a row on and up to that row passes exactly when checking everything does, and reports the same head |
| AuditReports.WholeReport | src/audit.mjs:93-111 | verifying everything reports ok exactly when every row follows the one before, recomputes, can be read and says in its columns what was signed; the counts are of rows, unsigned rows and faults, the list is the first fifty, and the head is the last row's |
| AuditReports.RangeReport | src/audit.mjs:93-111 | the same from an id on, after the row with that id or after nothing |
| AuditReports.FaultsAreWrongs | src/audit.mjs:99-107 | a fault of a kind is reported for an id exactly when a row with that id has it |
| AuditLog.ConflictIffRivals | src/audit.mjs:75-84 | an attempt conflicts exactly when somebody else committed between its head read and its insert |
| AuditLog.AuditLog.Record | src/audit.mjs:69-86 | the loop records once, after everything others committed before its first undisturbed attempt, and gives up exactly when none of nine attempts is undisturbed; the log stays verified |
| AuditLog.AuditLog.CheckRow | src/audit.mjs:99-109 | one turn of the verifier loop pushes exactly the row's faults, in order |
| AuditLog.AuditLog.Verify | src/audit.mjs:93-112 | the report: whether the rows after fromId chain up from its hash, their number, the unsigned ones, the first fifty faults, the number of faults and the head |
| AuditLog.AuditLog.TakeCheckpoint | src/audit.mjs:128-136 | stores the signed last row, or the mark that nobody signed it, with its id, author and time, and returns it with its signature or null and whether it is signed; nothing for an empty log |
| AuditLog.AuditLog.VerifyCheckpoint | src/audit.mjs:145-152 | whether a configured key signs it and whether its row still has that hash |
| Transactions.Connection.RunTx | src/db.mjs:196-222 | a tx call does to data, committed database, depth and savepoints what the evaluator says, whichever of BEGIN, SAVEPOINT, COMMIT, ROLLBACK, ROLLBACK TO and RELEASE fail, and if its transaction is lost in between |
| Transactions.Connection.Run | src/db.mjs:196-222 | the same for any program of statements, exceptions, catches and nested calls |
| Transactions.Connection.UnwindNested | src/db.mjs:206 | undoing a nested call restores its entry data and removes exactly its own level, up to the statement that fails; nothing happens if its transaction is gone |
| Transactions.Connection.CloseNested | src/db.mjs:204-221 | a nested call ends at its entry depth, with its entry data if the block threw or RELEASE failed, unless ROLLBACK TO fails or the transaction is gone |
| Transactions.Connection.CloseOutermost | src/db.mjs:204-221 | an outermost call commits, or rolls back if the block threw or COMMIT failed, unless ROLLBACK fails or there is no transaction |
| Transactions.Outermost | src/db.mjs:196-222 | unless its block loses the transaction, a failed outermost call changes nothing that is committed; its transaction stays open exactly when its ROLLBACK fails |
| Transactions.DoesAsIntended | src/db.mjs:176-222 | unless a ROLLBACK fails or a transaction is lost, whatever else fails, a program does what is intended: failed blocks are no-ops, an enclosing transaction goes on, and at the outermost level the result is committed |
| Transactions.IntentMeans | src/db.mjs:176-222 | what is intended of sequences, caught exceptions and calls |
| Transactions.FailedCallIsNoOpIff | src/db.mjs:204-219 | exactly when a call that throws leaves everything as it found it |
| Transactions.SavepointsLeftIff | src/db.mjs:205-218 | exactly when a call leaves a savepoint behind |
| Transactions.SavepointLeft | src/db.mjs:206 | an input that leaves one, until the enclosing call ends |
| Transactions.FailedWriteCommitted | src/db.mjs:205-212 | an input where a ROLLBACK TO fails and the failed block's write is committed |
| Transactions.LostTransaction | src/db.mjs:196-222 | an input where a transaction is lost, and the call throws although later work is committed |
| Transactions.NothingLeft | src/db.mjs:205-218 | unless unwinding itself fails, no program ever leaves a savepoint behind |
| Migrations.SplitJoin | src/db.mjs:83 | splitting the ledger text undoes joining for names without a comma |
| Migrations.LedgerRemembers | src/db.mjs:83-117 | the ledger reads back as the set written if and only if no name has a comma |
| Migrations.ScheduleKeepsInv | src/db.mjs:97-126 | the invariant of all runs, the lock and the ledger holds after every schedule |
| Migrations.MigrationsCommitOnceInOrder | src/db.mjs:78-126 | in any interleaving with any failures only pending files commit, each at most once, in ascending order, and the ledger is always what was applied plus what committed |
| Migrations.FinishedMeansMigrated | src/db.mjs:101-126 | when one run finishes, every file is applied and exactly the pending ones were committed |
| Migrations.CountsAddUp | src/db.mjs:100-155 | if all runs finish, their counts add up to the number of files pending at the start |
| MigrationProgress.FailsOnlyIfTold | src/db.mjs:112-125 | a run none of whose statements fails never throws: losing a race is no error |
| MigrationProgress.FailureRollsBack | src/db.mjs:122-125 | a failing statement ends its run, leaves ledger and commits alone, and gives the lock back |
| MigrationProgress.EveryoneCanFinish | src/db.mjs:101-126 | from whatever point a schedule has come to, there are turns after which every run that has not failed is done |
| MigrationProgress.RacersShareTheWork | src/db.mjs:97-155 | as long as no statement fails, racing runs can all finish, with everything applied and counts that add up to what was pending |
| MigrationProgress.LoserOfTheRaceSkips | src/db.mjs:114-115 | two runs that both see a file pending: one applies it and returns 1, the other finds it applied under the lock and returns 0 |
| MigrationProgress.LedgerIsSorted | src/db.mjs:117-118 | a commit writes the names read under the lock and the new one in order |
| Migrations.OneWriterAtATime | src/db.mjs:112-120 | two runs are never inside their locked section together |
| Migrations.CommaIsForgotten | src/db.mjs:83-117 | a name with a comma is never read back as applied |
| Migrations.OrderlyIffNoComma | src/db.mjs:78-126 | every schedule of every set of runs from every ledger is orderly if and only if no file has a comma in its name |
| Base32.BufToBase32 | src/mfa.mjs:16-28 | the loop on one unmasked 32-bit word computes the encoding of section 6 of RFC 4648 without padding |
| Base32.Base32ToBuf | src/mfa.mjs:30-45 | the decoding loop on such a word takes the bytes from the bit stream of the cleaned text, ligatures and special capitals included |
| Base32.QuintetsStream | src/mfa.mjs:21-26 | the encoded groups spell out the input bits followed by fewer than five zero bits |
| Base32.RoundTrip | src/mfa.mjs:16-45 | decoding an encoded buffer gives it back, for every length |
| Base32.EncodedValue | src/mfa.mjs:16-28 | the text writes in base 32 the number that the bytes make in base 256, with the zero bits that complete the last group |
| Base32.AlphabetIs | src/mfa.mjs:8 | the alphabet, and the place of each character in it |
| Base32.CleanMeans | src/mfa.mjs:31 | a secret is read character by character: small letters as capitals, and the rest of ASCII dropped |
| Totp.Totp | src/mfa.mjs:48-58 | the code is the six lowest decimal digits of the dynamic truncation (section 5.3 of RFC 4226) of the HMAC of the 8-byte big-endian counter; outside 32 bits it throws |
| Totp.WriteCounter | src/mfa.mjs:51-53 | the buffer holds the counter as 8 big-endian bytes; outside 32 bits the write refuses |
| Totp.MaskIsRemainder | src/mfa.mjs:56 | masking and shifting four bytes reads them as a big-endian number modulo 2^31 |
| Totp.PaddedIsFixed | src/mfa.mjs:57 | decimal text padded on the left is the fixed number of digits |
| Totp.CodeIsSixDigits | src/mfa.mjs:57 | every code is six digits |
| Totp.CodeMeans | src/mfa.mjs:51-57 | as a number the code is the low 31 bits of four bytes of the HMAC, from the place that its last four bits give, modulo a million |
| Totp.NextWindow | src/mfa.mjs:64-66 | a skew of one window moves the counter by exactly one, for any time |
| Totp.CounterIsWindow | src/mfa.mjs:50 | the window with that counter holds the time |
| Totp.WithoutSpaceMeans | src/mfa.mjs:62 | white space is dropped wherever it stands, and nothing else |
| Totp.VerifyTotp | src/mfa.mjs:61-73 | the loop answers like the first of the windows now, before, after that matches or throws; anything but six digits is refused |
| Totp.AcceptedCodes | src/mfa.mjs:61-73 | for every code as typed and every time: accepted are exactly the codes of the windows before, now and after, save that the first window of all does not reach the one after; and exactly when the check throws instead |
| AuthMfa.Auth.Login | src/auth.mjs:34-55 | a right password of an active account gives a five-minute challenge if MFA is on, else a token, of which only the hash is kept; anything else changes nothing |
| AuthMfa.Auth.VerifyMfa | src/auth.mjs:56-63 | a code for the live secret turns an open challenge into a token, once |
| AuthMfa.Auth.Enroll | src/auth.mjs:77-85 | a new secret becomes pending; with MFA on only against a code for the live one; live secret and switch stay |
| AuthMfa.Auth.Enable | src/auth.mjs:86 | a code for the pending secret (or the live one if none is pending) makes it live, clears pending and turns MFA on |
| AuthMfa.Auth.Disable | src/auth.mjs:87 | a code for the live secret turns MFA off and keeps the secrets |
| AuthMfa.OnMeansLiveSecret | src/auth.mjs:77-87 | in every run, MFA on implies a live secret |
| AuthMfa.OffOnlyByCode | src/auth.mjs:87 | in every run, MFA that went off went off through disableMfa with a code for the live secret |
| AuthMfa.PendingWasAuthorised | src/auth.mjs:77-86 | a secret pending while MFA is on was asked for with a code for the current live secret, since that went live |
| AuthMfa.ReplacingNeedsBothCodes | src/auth.mjs:77-86 | while MFA is on the live secret is replaced only with a code for the old one (at enrolment) and one for the new one (at enabling) |
| AuthMfa.TokensNeedPasswords | src/auth.mjs:48-63 | in every run, tokens issued plus open challenges never exceed right passwords shown |
| AuthMfa.ChallengeHasLogin | src/auth.mjs:53-61 | an open challenge comes from a right password and has issued no token yet |
| AuthMfa.TokenTakesBothFactors | src/auth.mjs:53-62 | a token for an account with MFA on takes a code for its live secret now and its own right password at most five minutes earlier |
| AuthSuccess.LoginDoes | src/auth.mjs:48-55 | exactly when a login is denied, challenged for five minutes or given a token, whose, with which hash, and for twelve hours or thirty days |
| AuthSuccess.VerifyDoes | src/auth.mjs:56-63 | exactly when an open challenge becomes a token, and that it is then gone |
| AuthSuccess.EnrollDoes | src/auth.mjs:77-85 | exactly when a new secret is put in waiting, and that only that changes |
| AuthSuccess.EnableDoes | src/auth.mjs:86 | exactly when enabling is done, and that MFA is then on with that secret live and none in waiting |
| AuthSuccess.DisableDoes | src/auth.mjs:87 | exactly when disabling is done, and that MFA is then off with the secrets kept |
| AuthSuccess.SetUpEndsInToken | src/auth.mjs:48-87 | enrolling, enabling, logging in and verifying with right codes in time ends in a token, and the challenge cannot be used again |
| CrmReceiver.Receiver.Arrive | scripts/crm-receiver.mjs:22-42 | what is answered before a body is read: authorisation, health, refusal while down, read-back |
| CrmReceiver.Receiver.SetFault | scripts/crm-receiver.mjs:25 | sets the fault mode, or none for a false one, and nothing else; a null body throws |
| CrmReceiver.Receiver.Upsert | scripts/crm-receiver.mjs:28-38 | the upsert as a step on store and reply: incomplete, older, stored, or stored and never answered |
| CrmReceiver.DeliveryStep | scripts/crm-receiver.mjs:32-37 | a regular delivery replaces the content unless it is older, which is answered as such and changes nothing; an id stays |
| CrmRecords.EventMeans | scripts/crm-receiver.mjs:28-38 | exactly when an event is refused and how, what each field of the stored record is, and what is answered |
| CrmRecords.FaultMeans | scripts/crm-receiver.mjs:25 | the fault mode that a body sets |
| CrmRecords.SpreadIs | scripts/crm-receiver.mjs:34 | spreading an object adds its entries as they are |
| CrmReceiver.ReflectsLastHighest | scripts/crm-receiver.mjs:28-38 | after any regular deliveries, to an empty slot or to one restored from the state file, the slot holds the maximum version delivered and the content of its last delivery; it is untouched if all are older than what it held |
| CrmReceiver.IdAndVersionKept | scripts/crm-receiver.mjs:32-35 | in any run of regular deliveries a filled slot's id never changes and its version never decreases |
| CrmReceiver.Converges | scripts/crm-receiver.mjs:28-38 | runs that start alike and deliver the same events in any order and multiplicity, under any faults, end with the same content |
| CrmReceiver.ConvergesIffSettled | scripts/crm-receiver.mjs:33-34 | the final content depends only on the set of events delivered if and only if all events of the highest version say the same |
| CrmReceiver.EqualVersionsDiffer | scripts/crm-receiver.mjs:33-34 | an input of two events of one version whose order decides the content |
| CrmReceiver.VersionDropsIff | scripts/crm-receiver.mjs:33-34 | any delivery lowers a version that is a number exactly when it is stored and its record redefines the version below that |
| CrmReceiver.NumberLostIff | scripts/crm-receiver.mjs:33-34 | any delivery leaves its slot without a number for a version exactly when it is stored and neither its record nor else the event itself gives one |
| CrmReceiver.NaNTakesEverything | scripts/crm-receiver.mjs:33 | a slot without a number for a version takes every complete event |
| CrmReceiver.OlderAfterNaN | scripts/crm-receiver.mjs:33-34 | deliveries of 5, "abc" and 3 to an empty slot end with version 3 |
| CrmReceiver.IdChangesIff | scripts/crm-receiver.mjs:34 | any delivery changes an id exactly when it is stored and its record carries another, or carries none while the stored one counts as false |
| CrmReceiver.RedefinedRecord | scripts/crm-receiver.mjs:33-34 | an input whose record lowers the version and changes the id |
| CrmReceiver.WentBackBecause | scripts/crm-receiver.mjs:28-38 | in any run, a version that went back or stopped being a number did so by a stored delivery of one of these two kinds |
| CrmReceiver.SlotsApartIff | scripts/crm-receiver.mjs:31 | two entity types never share a slot exactly when neither extends the other by a colon |

## Left out

- Draw bundle: the checks on approval dates, separation of duties, required trail actions, the disclosure of replaced draws and the signed freeze and execute payloads (`scripts/verify-draw-bundle.mjs:84-88` and `111-162`); each is one comparison on parsed fields, and fewer checks make the results about verified bundles stronger.
- JsonParser.ParseCanon: a number is the numeral that JavaScript writes for it; the rounding of other spellings is not modelled, nor are strings with half of a surrogate pair.
- DrawBundle.PassingIsVerified: about executed draws whose snapshot the reader can read.
- DrawBundle.VerifyExecuted: the reader turns ids into strings and weights, counts and totals into integers, or refuses the snapshot; ids that are written out as anything but strings and fractional counts are not modelled.
- DrawNoReroll.VerifiedOutput: about snapshots that the reader can read, likewise.
- DrawNoReroll.NoReroll: about snapshots that the reader can read, likewise.
- BundleAnchor.CheckAnchor: ids of exported events, of the tail and of the checkpoint are numbers; numeric strings in their place are not modelled.
- BundleAnchor.AnchorPinsTheExport: asks for tails of equal length, since a shorter tail may start at a later export of the same draw.
- BundleEvents.CheckEvents: a body version that is below 2 by less than a double can tell counts as below 2.
- AuditChain.ReadBack: attributed values are strings or null and payloads are JSON values; dates and integer-like keys, which JavaScript enumerates first, are not modelled.
- AuditHistory.HeadDeterminesHistory: bodies are JSON objects and a previous hash is empty or a digest, as all recorded rows have them.
- AuditWriters.NoScheduleForksTheChain: each statement runs at once; an insert that fails for another reason than the index throws to its caller.
- Migrations.MigrationsCommitOnceInOrder: file names are distinct and without commas, which is exact by `Migrations.OrderlyIffNoComma`; a run that cannot take the lock waits; the derived `schema_version` row and the statistics refresh are not modelled.
- Totp.VerifyTotp: codes arrive as strings; six digits and the window length are the only options.
- AuthMfa.Auth.Login: audit rows are not modelled, nor are `authenticate`, revocation, roles and the creation of users. Status and password changes by those routes appear as the `Edit` step of a run.
- AuthMfa.Auth.VerifyMfa: like the code, it does not look at the account's status; `authenticate`, which does, is not modelled.
- CrmReceiver.ReflectsLastHighest: asks that versions are numbers and that the records of the slot's events redefine neither `id` nor `entity_version`, and of a restored slot an id and a number; what happens otherwise is said by `CrmReceiver.NumberLostIff`, `CrmReceiver.VersionDropsIff` and `CrmReceiver.IdChangesIff`.
- CrmReceiver.Receiver.Upsert: an event id drawn by the receiver is not empty; fields that JavaScript stores as NaN or an infinity are kept as such, as in its memory and not as in its state file.
- The writing of the CRM receiver's state file, request parsing and URL decoding.
- `jsonHash` and `normalizeJson` (`src/db.mjs:159-171`): they print the same value as `canonicalJson` in another way, which differs where a value is undefined or a key looks like an array index.
- `generateSecret`, `otpauthUri` and the QR image.
- The live draw service, winner service, receipt pipeline, eligibility and all HTTP routes.
