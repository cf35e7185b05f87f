# JuaLuma backend: verified model

A Dafny model of the parts of the backend that carry real invariants, with proofs that they hold for all
inputs, all runs and all reachable states. `dafny verify dfyconfig.toml` checks everything.

## What is modelled

| module | subject |
|---|---|
| `RateLimit` | the sliding-window limiters, in both variants |
| `Calendar`, `BudgetWindows`, `BudgetSpend`, `BudgetLaws` | Gregorian days, budget windows, spend and budget history |
| `LedgerArchive` | the streaming ledger archiver |
| `ManualLedger` | balances of manual accounts and the repair script |
| `UnitOfWork` | what a commit writes, one row at a time |
| `SyncStore`, `SyncProofs`, `WalletSync`, `SyncOutcomes`, `WalletCommit`, `SyncTies`, `TiesCommit`, `Resync`, `WalletResync` | storing synced wallet and exchange transactions |
| `SyncedFields`, `RowKeys` | what a synced row tells, and which rows count as one transaction |
| `SessionGate`, `AuthService`, `GateProofs`, `GateRuns`, `SignInLaws` | sign-in, second factors, the session gate |
| `PlaidLinks`, `PlaidProofs`, `PlaidLimit` | linking bank accounts and the plan limit |
| `PlaidSelection`, `PlaidTwins`, `PlaidConnect`, `PlaidChoice` | when an exchange succeeds and what it connects |
| `PlaidBackfill` | the backfill migration |
| `WalletLink`, `WalletAddress` | linking wallets |
| `Percentile`, `Payouts`, `Ratings` | the smaller arithmetic cores |
| `Text` | decimal text and splitting at a colon |

Code that changes state in place is a class whose methods, with the loops of the source, are proved equal to
a step function on values; the theorems are about that function and its runs. What the step functions answer
is also stated in terms of the inputs alone, without naming the functions: in `SyncedFields`, `RowKeys`,
`SignInLaws`, `PlaidChoice`, `BudgetLaws` and `WalletAddress`, and for the smaller ones beside them. The handlers
of `AuthService` that have no row below are the events of those runs. Every lemma turns automatic induction
off, so each inductive proof is written out.

## Assumptions

- Sessions do not flush before queries (`autoflush=False`, `backend/models/base.py:44`). Queries filter on what
  the database holds; objects already loaded show their unwritten changes. `SyncStore` and `PlaidLinks` model
  this, not the simpler reading in which queries see earlier writes.
- A commit writes updates in key order, then inserts, then deletes, and fails when a unique index is violated. A
  failed request leaves the stored rows as they were. Adding an object to a session takes back its deletion.
- Rows come back in table order. Where the source sorts by time, equal times may come in any order.
  `SyncStore`, `SyncTies` and `TiesCommit` let every query of a batch have an order of its own; the other wallet
  theorems take one order within a batch, which does not change the database, and any other in the next.
- What providers decide (TOTP, passkeys, token revocation, item removal, secret purging) and what they return
  is an input. Labelling rules are an arbitrary function of the incoming transaction. The digest behind legacy
  item ids is injective. The JSON text a wallet account stores is what it decodes to.
- An `iat` of 0 stands for a token without one; stored credentials, challenges and codes are not blank.
- Amounts are exact cents, percentages, averages and percentiles exact reals, timestamps exact microseconds.
- A request or a check is one atomic step.

## What the proofs found

- Two legs of one new hash in the same wallet batch never commit (`WalletCommit.FirstSyncOfTwoLegsConflicts`), and
  a bare-id row cannot be collapsed behind a newer suffixed one, because the update comes before the delete
  (`WalletCommit.CollapseCommitsIff`). For rows with base ids nothing else refuses a wallet batch
  (`WalletCommit.WalletCommitsIffWithBases`).
- When two queries list rows of one time differently, a sync can delete every row of a hash
  (`SyncTies.OppositeTiesDeleteBoth`; exactly when: `SyncTies.KeyIsLostIff`).
- A newer row that has a hash in its raw record alone takes the place of the hash's rows, and what a sync brings
  for the hash is lost (`SyncedFields.OvershadowedIsLost`; never otherwise: `SyncedFields.WalletRecords`).
- Editing the amount of a manual transaction, or deleting it twice, leaves the balance off
  (`ManualLedger.InStepIffHarmless`).
- E-mail as the only second factor can be neither disabled nor replaced through the settings
  (`GateRuns.EmailOnlyIsForever`), and a passkey cannot be registered with a passkey as proof
  (`GateRuns.RegistrationIff`).
- Unmapped legacy accounts escape the plan limit (`PlaidLimit.UnmappedEscapesTheLimit`; exactly when:
  `PlaidConnect.ConnectedAfter`).
- Two new accounts of equal mask and type are not connected together. With no account created between them the
  exchange fails (`PlaidLimit.TwinsCannotConnect`, `PlaidConnect.ExchangeSucceedsIff`); with one in between it
  succeeds and loses the first one's id (`PlaidConnect.TwinsAroundANewAccount`,
  `PlaidConnect.SelectedAreConnectedIff`).
- Legacy item names put users whose ids contain a colon on other users' items
  (`PlaidBackfill.ColonsConfuseUsers`; never without one: `PlaidBackfill.BackfillFromEmpty`).
- A leading zero in an EVM chain reference defeats the duplicate check (`WalletLink.LeadingZeroSlipsThrough`;
  exactly when: `WalletLink.SameNumberRefusedIff`).

## Model

| member | source | states |
|---|---|---|
| `RateLimit.SlidingWindow.CheckLimit` | backend/middleware/security.py:97-113 | one check prunes the key's deque, refuses when it is full and records only an admitted request; the new table and the answer are those of the step of the run semantics |
| `RateLimit.SlidingWindow.RegisterAttempt` | backend/middleware/auth.py:338-358 | the variant for sign-in attempts, which records before it compares and so counts refused attempts too |
| `RateLimit.SlidingWindow.Reset` | backend/middleware/security.py:124-130 | forgets every attempt |
| `RateLimit.RunRefinesSpec` | backend/api/auth.py:436-451 | for clocks that do not go back, both variants answer on every sequence of arrivals exactly as a count over the full history of the key in (now - window, now] |
| `RateLimit.NoWindowExceedsLimit` | backend/middleware/security.py:97-113 | no half-open window of the configured length, wherever it ends, holds more admitted requests of a key than the limit |
| `RateLimit.RejectedIffWindowFull` | backend/api/auth.py:454-469 | a request is refused if and only if the window ending at it already holds exactly the limit of admitted ones |
| `RateLimit.RecordEveryIsStricter` | backend/middleware/auth.py:338-358 | on any common sequence of arrivals, whatever the attempt-counting variant admits the other variant admits |
| `RateLimit.KeysAreIndependent` | backend/api/widgets.py:102-115 | the deque and the answers of a key are those of a run with the other keys' arrivals removed, whatever the clock does |
| `BudgetWindows.ResolveCompletedBuckets` | backend/api/budgets.py:41-102 | the iterative roll-back gives, newest first, exactly the n periods before the current one by closed form on the period index, and fails if and only if it would leave year 1 |
| `BudgetWindows.MonthlyBuckets` | backend/api/budgets.py:88-102 | the month loop with its December wrap-around is the closed form on the month index |
| `BudgetWindows.QuarterlyBuckets` | backend/api/budgets.py:67-86 | the quarter loop with its year wrap-around is the closed form on the quarter index |
| `BudgetWindows.AnnualBuckets` | backend/api/budgets.py:57-65 | the year loop is the closed form on the year |
| `BudgetWindows.PeriodsAreAdjacent` | backend/api/budgets.py:45-102 | each period ends on the day before the next one starts, leap years and century rules included |
| `BudgetWindows.PeriodHoldsItsDates` | backend/api/budgets.py:45-102 | a date lies between the ends of a period if and only if it has that period's index |
| `BudgetWindows.CompletedMeetsToDate` | backend/api/budgets.py:30-38 | the to-date window starts on the first day of the current period, so the newest completed bucket ends on the day before it |
| `BudgetWindows.LabelsAreDistinct` | backend/api/budgets.py:45-102 | two periods of a kind with the same label are the same period |
| `BudgetWindows.LabelNamesItsDates` | backend/api/budgets.py:45-102 | a bucket is named after the dates in it: by year and month, by year and quarter, or by year |
| `BudgetWindows.BucketHoldsTimestamp` | backend/api/budgets.py:141-163 | at microsecond resolution a timestamp falls in a bucket's query window if and only if its date has the bucket's index |
| `BudgetWindows.SpanHoldsTimestamp` | backend/api/budgets.py:141-163 | it falls in the whole look-back span if and only if its index is one of the span's |
| `Calendar.DayBeforeOrdinal` | backend/api/budgets.py:68-102 | stepping back a day from any valid date lowers the proleptic Gregorian ordinal by one |
| `Calendar.InstantsOrderMonths` | backend/api/budgets.py:141-163 | the order of instants agrees with the order of months |
| `BudgetSpend.SummarizeBucket` | backend/api/budgets.py:379-409 | the totals, the percentage and the three status counts of one bucket, accumulated category by category |
| `BudgetSpend.BudgetHistory` | backend/api/budgets.py:346-417 | the whole response: nothing without budgets or look-back, an error exactly when the roll-back fails, otherwise one summary per bucket, newest first |
| `BudgetSpend.LookupIsSpent` | backend/api/budgets.py:136-173 | looking a budget's category up in the grouped query gives the sum of money out of the selected, not archived rows, and zero for the blank category |
| `BudgetSpend.SpentSplits` | backend/api/budgets.py:136-173 | spend over a span of periods is spend over the oldest plus spend over the rest, to the cent |
| `BudgetSpend.CategoryIsConserved` | backend/api/budgets.py:378-409 | category by category, what n consecutive buckets show adds up to the spend in the whole span |
| `BudgetSpend.SpanTotalSplits` | backend/api/budgets.py:378-409 | the same for the total over all budgeted categories |
| `BudgetSpend.HistoryConservesSpend` | backend/api/budgets.py:378-409 | the bucket totals of a history add up to the spend over the whole look-back span: no transaction is lost or counted twice |
| `BudgetSpend.StatusesPartition` | backend/api/budgets.py:386-396 | every category is counted as exactly one of under, at and over |
| `BudgetSpend.PercentUsed` | backend/api/budgets.py:398 | lies between 0 and 100 and is 100 if and only if a positive budget is used up |
| `BudgetLaws.BucketReports` | backend/api/budgets.py:136-173 | a bucket reports, for every budget row, the money that went out of its category: the amounts below zero of the listed users' rows that are not archived and are dated in the period; the totals add these up, the percentage compares them, and the counts are the numbers of budget rows below, at and above their amount |
| `BudgetLaws.OneMoreTransaction` | backend/api/budgets.py:346-417 | one more transaction raises the total of the bucket of its period by its amount, once for each budget row of its category, if it is money out of a listed user, not archived and in a named category; otherwise, and in every other bucket, nothing changes |
| `BudgetLaws.NothingSpent` | backend/api/budgets.py:346-417 | without transactions every bucket shows zero spent |
| `LedgerArchive.ArchiveJob.UploadPartition` | backend/jobs/archive_essential.py:53-63 | writes the serialised lines under the blob name of prefix, run and part number and nothing else |
| `LedgerArchive.ArchiveJob.PartitionRows` | backend/jobs/archive_essential.py:66-112 | the streaming loop cuts the rows into parts that are not empty, have one prefix and at most the batch size, number them from 1 again whenever the prefix changes, and together are the rows in order |
| `LedgerArchive.ArchiveJob.ArchiveEssentialLedger` | backend/jobs/archive_essential.py:66-129 | what is stored is exactly the parts of the queried rows; what stays in the table is exactly the rows not older than the cutoff; the count is that of the archived rows |
| `LedgerArchive.PrunedIsArchived` | backend/jobs/archive_essential.py:114-129 | on an unchanged table the rows deleted are, as a multiset, the rows archived, and no kept row is older than the cutoff |
| `LedgerArchive.PrefixDetermines` | backend/jobs/archive_essential.py:29-35 | rows with the same prefix have the same user and the same month |
| `LedgerArchive.NameDetermines` | backend/jobs/archive_essential.py:53-63 | the blob name determines prefix and part number for run ids without a slash |
| `LedgerArchive.SortedGivesGrouped` | backend/jobs/archive_essential.py:72-112 | for rows sorted by user and time the parts of one prefix are consecutive |
| `LedgerArchive.BlobNamesAreDistinct` | backend/jobs/archive_essential.py:72-112 | for sorted rows no two parts of a run get the same blob name |
| `LedgerArchive.EveryPartIsStored` | backend/jobs/archive_essential.py:53-112 | for sorted rows every part is found under its name after the run: no upload overwrites another |
| `LedgerArchive.EveryOldRowIsStored` | backend/jobs/archive_essential.py:29-129 | every row older than the cutoff is afterwards a line of a blob whose name spells out its own user, year and month |
| `LedgerArchive.KeptIff` | backend/jobs/archive_essential.py:66-129 | a row stays, as often as it was there, if and only if it is not older than the cutoff |
| `LedgerArchive.PrefixGetsItsParts` | backend/jobs/archive_essential.py:83-112 | a prefix with n rows gets exactly the parts 1 to ceil(n / batch size) |
| `LedgerArchive.UnsortedInputOverwrites` | backend/jobs/archive_essential.py:72-112 | without the sort order three rows are enough for one part to overwrite another |
| `LedgerArchive.OneYearAgoIsAYear` | backend/jobs/archive_essential.py:21-26 | the cutoff keeps the time of day and is the last day of the same month of the year before that does not come after today's, 365 or 366 days back; it fails only in year 1 |
| `ManualLedger.Ledger.CreateManualTransaction` | backend/api/transactions.py:579-690 | refuses by tier, account and account kind, else adds the row and the amount to the balance |
| `ManualLedger.Ledger.UpdateTransaction` | backend/api/transactions.py:784-870 | edits a manual row, leaving the balance alone |
| `ManualLedger.Ledger.DeleteTransaction` | backend/api/transactions.py:879-944 | archives a manual row and takes its amount off the balance, also when it was archived before |
| `ManualLedger.Ledger.FixManualTransactionBalances` | scripts/fix_manual_transaction_balances.py:20-56 | every manual account gets the sum of its live rows as its balance; nothing else changes |
| `ManualLedger.Ledger.SumLive` | scripts/fix_manual_transaction_balances.py:28-44 | the loop's total is the sum of the rows of the account that are not archived |
| `ManualLedger.StepDrift` | backend/api/transactions.py:821-828 | each call changes balance minus live sum by exactly the drift the edit or the repeated deletion causes, for every account |
| `ManualLedger.BalanceEquation` | backend/api/transactions.py:904-921 | over every run, balance = opening difference + live sum + accumulated drift |
| `ManualLedger.InStepIffHarmless` | backend/api/transactions.py:821-828 | a call leaves all balances in step if and only if it neither changes the amount of a live manual row nor deletes again a row with a non-zero amount |
| `ManualLedger.NoDriftWithoutRepeats` | backend/api/transactions.py:904-921 | without amount edits and with each row deleted at most once there is no drift over the whole run |
| `ManualLedger.BalanceSinceRepair` | scripts/fix_manual_transaction_balances.py:20-56 | after the repair and any run of calls each manual balance is its live sum plus exactly the drift of those calls |
| `ManualLedger.RepairedStaysInStep` | scripts/fix_manual_transaction_balances.py:20-56 | from any state, after the repair every manual balance of the ledger is its live sum for as long as the calls are harmless; a second repair changes nothing |
| `ManualLedger.CreateIff` | backend/api/transactions.py:579-690 | a creation takes one of two plans, an account of the user that is manual, and a fresh id; the row is stored with the requested amount, and the balance of that account alone rises by it |
| `ManualLedger.EditIff` | backend/api/transactions.py:784-870 | an edit changes the amount of the user's row if the row is manual, and nothing else; the fixed fields of a bank's row cannot be edited |
| `ManualLedger.DeleteIff` | backend/api/transactions.py:879-944 | a deletion archives the user's row if it is manual and takes its amount off its account, whether or not the row was archived before |
| `SyncStore.SyncSession.ProcessSingleTransaction` | backend/api/accounts.py:1142-1276 | finds the row, marks its extra legs deleted and overwrites it, or inserts one; reports a creation if and only if no row was found |
| `SyncStore.SyncSession.SaveSyncBatch` | backend/api/accounts.py:1336-1370 | a batch is the fold of its transactions; the two counters are the transactions in range and the rows added; only wallets are deduplicated afterwards |
| `SyncProofs.AllAlike` | backend/api/accounts.py:1170-1214 | when every query of a batch sees equal times in one order, the batch is the fold the other theorems are about |
| `SyncStore.SyncSession.BaseIdOf` | backend/api/accounts.py:1373-1406 | the three-level key: id before the colon, else id dug out of the raw record, else the fallback text |
| `SyncStore.SyncSession.DedupeWeb3Transactions` | backend/api/accounts.py:1373-1403 | with its growing set of keys the loop keeps exactly the first row of each key in newest-first order, shortening its id, and marks the others deleted |
| `UnitOfWork.WriteChanges` | backend/models/transaction.py:39-44 | updates in key order, inserts in order of creation, each against the unique index, then the deletes: goes through if and only if no two rows clash and no update takes an id that a later update would free, and then leaves exactly the rows that were not deleted |
| `UnitOfWork.CommitIff` | backend/models/transaction.py:39-44 | every single write finds its id free if and only if that condition on the whole table holds |
| `SyncStore.ExtractTxId` | backend/api/accounts.py:1406-1434 | an id dug out of the raw record is never blank |
| `SyncProofs.BatchInClosedForm` | backend/api/accounts.py:1336-1370 | since queries do not see earlier unflushed writes, a whole batch equals one simultaneous update of the stored rows plus the created ones |
| `SyncProofs.KeyShape` | backend/api/accounts.py:1379-1400 | a key is never blank and contains a colon if and only if it is a fallback key, which a row with a base id never gets |
| `SyncProofs.FallbackNeverMeetsBase` | backend/api/accounts.py:1379-1400 | a fallback key never equals a base-id key |
| `SyncProofs.NormalizedKeepsKey` | backend/api/accounts.py:1373-1403 | shortening the external id keeps the key and everything else, and is idempotent |
| `SyncProofs.DedupeLosesNoKey` | backend/api/accounts.py:1373-1403 | every key present before is present after, on a surviving row at least as recent as any row of that key |
| `SyncProofs.DedupeLeavesDistinctKeys` | backend/api/accounts.py:1373-1403 | no two surviving rows share a key |
| `SyncProofs.DedupeIsIdempotent` | backend/api/accounts.py:1373-1403 | a second deduplication, under whatever order of equal times, changes nothing |
| `WalletSync.WalletTarget` | backend/api/accounts.py:1170-1201 | the row a wallet transaction is written to has its base id, and none is found only if no stored row has it |
| `WalletSync.VictimFollows` | backend/api/accounts.py:1170-1201 | a row deleted as an extra leg has an earlier row of the same base id |
| `WalletSync.OneRowPerBase` | backend/api/accounts.py:1249-1276 | after every wallet batch that commits no two rows share a base id, even if the store began with several suffixed rows per hash |
| `WalletSync.SettledId` | backend/api/accounts.py:1368-1403 | every surviving row with a base id is stored under that bare id |
| `SyncOutcomes.BatchLosesNoKey` | backend/api/accounts.py:1336-1370 | a wallet batch loses no key the account had |
| `SyncOutcomes.BatchStoresEveryHash` | backend/api/accounts.py:1336-1370 | every hash of the batch has a surviving row |
| `SyncOutcomes.CommitSettles` | backend/api/accounts.py:1368-1403 | if all rows carry ids, a committed wallet batch leaves one row per hash under its bare id |
| `WalletCommit.WalletCommitsIff` | backend/api/accounts.py:1336-1403 | whatever rows were stored, a wallet batch can be committed if and only if no two of its transactions bring the same new hash, no key has its bare-id row behind a newer row that is shortened to it, and no other row is shortened to a new hash |
| `WalletCommit.WalletCommitsIffWithBases` | backend/api/accounts.py:1336-1403 | when every stored row carries a base id the third condition holds by itself |
| `WalletCommit.CommitsIffNewHashesDiffer` | backend/api/accounts.py:1249-1276 | on an account with one bare-id row per hash only the first condition is left |
| `WalletCommit.CollapseCommitsIff` | backend/api/accounts.py:1373-1403 | a deduplication alone commits if and only if no key has its bare-id row behind a newer row whose id is shortened to it |
| `WalletCommit.WalletNeverHandsOver` | backend/api/accounts.py:1336-1403 | no update of a wallet batch takes the stored id of another row that stays, so the order of the writes never decides a commit |
| `WalletCommit.FirstSyncOfTwoLegsConflicts` | backend/api/accounts.py:1249-1276 | two legs of one new hash in a first batch never commit: queries do not see the first one's row, so a second is inserted under the same id |
| `SyncTies.KeyIsLostIff` | backend/api/accounts.py:1170-1403 | with queries that list equal times differently, a key is lost if and only if its first row in the deduplication has a base id, the last leg of its hash went to another row, and its id is the bare hash already or was made so by an earlier leg |
| `SyncTies.TiedOneRowPerBase` | backend/api/accounts.py:1170-1403 | even then a batch that commits leaves no two rows with one base id |
| `SyncTies.OppositeTiesDeleteBoth` | backend/api/accounts.py:1170-1403 | a bare-id row and a suffixed row of one hash and time, listed in opposite orders by the two queries, are both deleted, and the commit succeeds |
| `TiesCommit.TiedCommitsIff` | backend/api/accounts.py:1170-1403 | even then a wallet batch can be committed if and only if no two transactions bring the same new hash, a row stored under its bare id stands behind a newer row of its key only if that one is lost, and no row is shortened to a new hash |
| `TiesCommit.TiedNeverHandsOver` | backend/api/accounts.py:1170-1403 | even then the order of the writes never decides a commit |
| `Resync.FoldTwice` | backend/api/accounts.py:1203-1246 | writing a list of transactions to a row twice is the same as once, signs included, since they come from the incoming amount |
| `Resync.ExchangeResyncCreatesNothing` | backend/api/accounts.py:1336-1370 | re-syncing a committed exchange batch creates no row and reports no new transaction |
| `Resync.ExchangeCommitsIff` | backend/api/accounts.py:1336-1370 | an exchange batch commits, in whatever order rows are written, if and only if no two of its transactions bring the same id that no row has |
| `Resync.ExchangeResyncUnchanged` | backend/api/accounts.py:1336-1370 | re-syncing a committed exchange batch whose transactions all carry ids changes nothing at all |
| `Resync.ExchangeResyncUnchangedIff` | backend/api/accounts.py:1203-1276 | with ids missing as well, it changes nothing if and only if a row without an id was stored before, or the last transaction without one repeats the first and no later one names another currency |
| `Resync.OrderIsIrrelevant` | backend/api/accounts.py:1203-1214 | for accounts other than wallets the database's order of equal times does not matter |
| `WalletResync.WalletResyncUnchanged` | backend/api/accounts.py:1336-1403 | re-syncing a committed wallet batch, on an account whose rows all carry ids, creates nothing, deletes nothing and changes no field |
| `SyncedFields.ExchangeRecords` | backend/api/accounts.py:1203-1276 | after a committed exchange batch exactly one row has an id of the batch; it holds the date, labels and raw record of the last transaction in range with that id, minus its absolute amount for an outflow, plus it for an inflow, the unsigned rule otherwise, and the currency named last, or else its old one or the fallback |
| `SyncedFields.ExchangeLeaves` | backend/api/accounts.py:1203-1276 | a stored row whose id the batch does not bring keeps every field |
| `SyncedFields.WalletRecords` | backend/api/accounts.py:1142-1403 | the same after a wallet batch and its deduplication, under the bare hash; the row is a newest of the hash's rows stored before, unless a row that has the hash in its raw record alone is newer |
| `SyncedFields.WalletLeaves` | backend/api/accounts.py:1142-1403 | a surviving wallet row whose hash the batch does not bring keeps everything but its shortened id |
| `SyncedFields.OvershadowedIsLost` | backend/api/accounts.py:1170-1403 | in the remaining case that newer row is the only one of the hash to survive, with its old fields: what the batch brought for the hash is lost |
| `SyncedFields.SyncedIsSize` | backend/api/accounts.py:1348-1366 | the first counter is the number of transactions not older than the retention limit |
| `SyncedFields.NewIsSize` | backend/api/accounts.py:1348-1366 | the second is the number of those whose id, or hash, no stored row has |
| `RowKeys.FirstTextIs` | backend/api/accounts.py:1406-1434 | of a list of values the first text that is not blank is some text with no text before it, or none if there is none |
| `RowKeys.RawIdIsFirst` | backend/api/accounts.py:1406-1434 | the id dug out of a raw record is the first text that is not blank over all the places an id may stand, in the order of the source |
| `RowKeys.KeyIff` | backend/api/accounts.py:1379-1400 | two rows have one deduplication key if and only if they share an id, or neither has one and time, amount, currency and direction all agree |
| `RowKeys.DeletedIffRepeated` | backend/api/accounts.py:1373-1403 | a deduplication deletes a row if and only if a row before it, newest first, is the same transaction in that sense |
| `RowKeys.SurvivorKeeps` | backend/api/accounts.py:1373-1403 | a survivor keeps every field but its stored id, which becomes the id it is known by |
| `AuthService.Service.GetCurrentUser` | backend/middleware/auth.py:101-206 | the gate for every request: killed sessions, new session rows, carried-over stamps, stale methods and what is committed before a refusal |
| `AuthService.Service.FindRecentVerified` | backend/middleware/auth.py:162-174 | the query for a stamp to carry over returns the latest-stamped active session of the same user, agent and address with another issue time |
| `AuthService.Service.LogIn` | backend/api/auth.py:1217-1280 | creates the session and stamps it after the configured method passed; a refusal leaves no session behind |
| `AuthService.Service.TerminateOtherSessions` | backend/api/auth.py:2197-2219 | ends all sessions of the user but the caller's |
| `AuthService.Service.EnforceMfa` | backend/middleware/auth.py:155-203 | the second-factor part of the gate: carry a recent stamp over, refuse without one, clear one by another method |
| `AuthService.Service.RollOver` | backend/middleware/auth.py:161-183 | copies a stamp of the same device that is at most six hours old, with its original time |
| `GateProofs.StepKeepsInv` | backend/api/auth.py:1894-1908 | every endpoint keeps the invariant: stamps are traced, enabled methods are complete, slots are used once per filling |
| `GateProofs.RunKeepsInv` | backend/middleware/auth.py:101-206 | so does every run of sign-ins, token refreshes, method changes and requests |
| `GateProofs.StampsAreReal` | backend/middleware/auth.py:154-203 | after every run each stamp is the time of a check that passed for the same user and method; a carried-over stamp traces, through any chain of refreshes, to a checked session of the same agent and address and was at most six hours old whenever it was carried |
| `GateProofs.AdmissionIsVerified` | backend/middleware/auth.py:185-203 | under the invariant an admitted, not exempt request of a user with a second factor has an active session stamped by the user's current method |
| `GateRuns.ReachableAdmissionsAreVerified` | backend/middleware/auth.py:185-203 | the same in every reachable state, where the method is also one of TOTP, e-mail and passkey with its credentials present |
| `GateRuns.KilledStaysOut` | backend/middleware/auth.py:114-123 | a killed session stays killed over every run, is refused with 401 on every path, and is never admitted again |
| `GateRuns.OthersAreKilled` | backend/api/auth.py:2197-2219 | ending the other sessions kills exactly those: the caller's and other users' sessions are as they were |
| `GateRuns.EachUseHasItsOwnIssue` | backend/api/auth.py:516-568 | over every run each successful use of a passkey challenge or e-mailed code is preceded by a filling of that slot with no other use in between |
| `GateRuns.DisableIsPossibleIff` | backend/api/auth.py:1972-1985 | some proof disables the second factor if and only if none is enabled, a TOTP secret is set up, or a passkey is with a live challenge |
| `GateRuns.EmailOnlyIsForever` | backend/api/auth.py:603-650 | a user whose only method is e-mail stays so over every run: disabling it or choosing another primary method never succeeds |
| `GateRuns.RegistrationIff` | backend/api/auth.py:1857-1910 | registering a passkey succeeds if and only if the registration is valid, answers a live challenge and, with a second factor enabled, comes with a TOTP code; an assertion as proof never works |
| `GateRuns.AdmittedIff` | backend/middleware/auth.py:101-206 | a path that is not exempt admits a request if and only if the user is known, the session was not killed and, with a second factor enabled, it is stamped by the current method or unstamped while the latest stamp of the same device is by that method and at most six hours old |
| `GateRuns.SignInOpensTheGate` | backend/api/auth.py:1259-1274 | a successful sign-in with a token opens every path to that token, unless its session had been killed |
| `GateRuns.SwitchingToEmailIsIrreversible` | backend/api/auth.py:1713-1735 | switching to e-mail with no TOTP set-up pending is kept by every later run |
| `GateRuns.DisablingLeavesNothing` | backend/api/auth.py:1972-1998 | after disabling no credential, pending set-up or slot is left, and no check can succeed |
| `SignInLaws.LoginIff` | backend/api/auth.py:1217-1280 | a sign-in succeeds if and only if the user is known and, with a second factor enabled, the proof is one by the configured method: a TOTP code valid for the secret, the mailed code before it expires, an accepted assertion for a stored passkey and a live challenge; never a text message |
| `SignInLaws.LoginLeaves` | backend/api/auth.py:1217-1280 | a refusal leaves no trace; success spends the code or challenge, touches no other user, and leaves one session of the token, stamped now by the configured method, and all others as they were |
| `SignInLaws.ResetPasswordIff` | backend/api/auth.py:1306-1333 | a reset is refused if and only if the user is known, has a second factor and does not prove himself by it |
| `SignInLaws.EnableEmailIff` | backend/api/auth.py:1637-1740 | e-mail is turned on if and only if the given code is the mailed one in time and, with another method enabled, the proof by that method holds too |
| `SignInLaws.EnableEmailLeaves` | backend/api/auth.py:1637-1740 | afterwards a new account is confirmed without a second factor, and for any other e-mail is the only method left |
| `SignInLaws.MailedCodeServes` | backend/api/auth.py:969-985 | after a code is mailed, exactly that code serves, for ten minutes, and nothing else of the user changes |
| `SignInLaws.ChallengeServes` | backend/api/auth.py:516-568 | after a challenge is issued an accepted assertion serves for five minutes |
| `SignInLaws.ExemptIff` | backend/middleware/auth.py:101-206 | an exempt path serves a request if and only if its user is known and its session was not killed |
| `SignInLaws.SetupIff` | backend/api/auth.py:603-650 | starting a TOTP or passkey set-up, or turning the second factor off, takes a served request and, with one enabled, an accepted assertion or else a valid TOTP code |
| `SignInLaws.SetupLeaves` | backend/api/auth.py:1755-1850 | a set-up stores the pending secret, or fills the challenge slot for five minutes |
| `SignInLaws.EnableTotpIff` | backend/api/auth.py:1917-1950 | TOTP is enabled if and only if a valid code for the pending secret comes; that secret becomes the secret, and TOTP the primary method only when none was enabled |
| `SignInLaws.RegisterLeaves` | backend/api/auth.py:1857-1910 | a registration stores credential and key, uses up the challenge, and becomes the primary method only when none was enabled |
| `SignInLaws.SetPrimaryIff` | backend/api/auth.py:2050-2090 | the primary method is switched, to TOTP or a passkey, if and only if the request proves that very method |
| `SignInLaws.EndingIff` | backend/api/auth.py:2097-2219 | signing out takes the provider's revocation; ending sessions takes an admitted request with a token and, for one session, another one of the same user |
| `SignInLaws.EndingLeaves` | backend/api/auth.py:2097-2195 | only the first session of that user and issue time stops being active; users are left alone |
| `SignInLaws.AdmittedByDevice` | backend/middleware/auth.py:101-206 | a user with a second factor passes the gate if and only if the session is live and stamped by the configured method, or unstamped while the latest stamp of its device is by that method and at most 21600 seconds old |
| `PlaidLinks.Store.Select` | backend/api/plaid.py:186-218 | the selected accounts in the institution's order, or nothing if a selected id was not returned |
| `PlaidLinks.Store.CountToAdd` | backend/api/plaid.py:234-266 | the first pass counts the selected accounts with neither an active mapping nor an account of the same description |
| `PlaidLinks.Store.ConnectAccounts` | backend/api/plaid.py:312-399 | the second pass creates or overwrites account and mapping of each selected account, flushing only when it creates an account |
| `PlaidLinks.Store.ExchangeToken` | backend/api/plaid.py:150-401 | the whole exchange with its refusals; a broken unique constraint undoes it |
| `PlaidLinks.Store.DeleteAccount` | backend/api/accounts.py:1746-1841 | deletes the account with its mappings and retires items without a sibling mapping |
| `PlaidProofs.RunKeepsGood` | backend/models/plaid.py:113-119 | over every run of exchanges and deletions an account has at most one mapping, a user's Plaid id occurs in at most one, and each mapping joins a bank account and an item of one user, the item active, not removed and with its secret |
| `PlaidProofs.ExchangeKeepsGood` | backend/api/plaid.py:284-399 | one exchange keeps that, although its own mappings are not visible to its queries |
| `PlaidProofs.RunFromUnmapped` | backend/models/plaid.py:113-119 | so these hold in every state reached from accounts that nothing maps yet |
| `PlaidProofs.DeletionIsExact` | backend/api/accounts.py:1763-1808 | deleting an account changes its item exactly when no sibling mapping remains, as the provider and the secret store allow, and touches no other account, item or mapping |
| `PlaidProofs.OthersAreUntouched` | backend/api/plaid.py:284-399 | no exchange or deletion touches a row of another user |
| `PlaidLimit.CreatedWasCounted` | backend/api/plaid.py:234-266 | every account the second pass creates was counted by the first |
| `PlaidLimit.ExchangeWithinLimit` | backend/api/plaid.py:220-277 | after a successful exchange the connected accounts plus the still unmapped bank accounts are at most the limit plus the bank accounts unmapped before |
| `PlaidLimit.LimitIsKept` | backend/api/plaid.py:220-277 | with every bank account of the user mapped the plan limit is kept |
| `PlaidLimit.UnmappedEscapesTheLimit` | backend/api/plaid.py:251-266 | the input on which the limit fails: an account from before the mappings existed is connected uncounted, and a limit of zero ends with one connected account |
| `PlaidLimit.TwinsCannotConnect` | backend/api/plaid.py:312-399 | two unknown accounts of the same mask and type, and nothing else, do not connect: the second would map the first's account again, and the request is undone |
| `PlaidConnect.ExchangeSucceedsIff` | backend/api/plaid.py:186-401 | for distinct ids, on accounts that still look as when they were linked, an exchange succeeds if and only if everything selected was returned, something was, the limit leaves room, the item is not another user's, and no account maps the one its twin has just mapped with no account created in between |
| `PlaidConnect.ConnectedAfter` | backend/api/plaid.py:220-399 | it connects exactly as many accounts more as the selection newly maps, so the plan limit holds afterwards if and only if it leaves room for those |
| `PlaidConnect.AddsWithoutTwins` | backend/api/plaid.py:234-266 | in a selection without twins those are the unknown ids whose description no account has, or an unmapped one |
| `PlaidConnect.SelectedAreConnectedIff` | backend/api/plaid.py:312-399 | a successful exchange leaves every selected account stored as reported and mapped under its id if and only if no two of them fall on one stored account, a condition on the tables and the selection before the call; otherwise some selected id is carried by no mapping |
| `PlaidConnect.ExchangeConnectsIff` | backend/api/plaid.py:186-401 | both together: success with everything connected, if and only if the guards hold and no two selected accounts fall on one stored account |
| `PlaidConnect.TwinsAroundANewAccount` | backend/api/plaid.py:312-399 | with a new account selected between two twins the exchange succeeds and the first twin's id is lost: creating the account flushes the mapping the second twin then takes over |
| `PlaidChoice.SelectionIsChoice` | backend/api/plaid.py:186-218 | the selection is exactly the fetched accounts whose id was chosen, or all when none was chosen, in fetched order and with multiplicity |
| `PlaidChoice.WantedAreConnected` | backend/api/plaid.py:284-399 | after a successful exchange in which no two of them fall on one account, every wanted account is stored as reported, mapped under its id to the user's live item, on its mapped account, else the first that looks like it, else a new one; all other accounts and mappings are as before |
| `PlaidChoice.OnlyWantedAreConnected` | backend/api/plaid.py:312-399 | after any successful exchange a mapping is either as it was before or carries the id of a wanted account, so no fetched and unchosen id gets one |
| `PlaidChoice.LimitCounts` | backend/api/plaid.py:220-266 | the two numbers compared with the limit are the active mappings of the user through live items and the selected accounts with neither an active mapping nor a look-alike |
| `PlaidChoice.RefusedBecause` | backend/api/plaid.py:186-296 | 400 if and only if a chosen id was not fetched or nothing was, else 403 if and only if those two numbers exceed the limit, else 409 if and only if the item is another user's; a refusal changes nothing |
| `PlaidBackfill.Migration.GroupRows` | alembic/versions/1f3a9c7d8e2b_add_plaid_item_cursor_sync_tables.py:90-94 | the dictionary loop groups the rows by user and secret in order of first appearance |
| `PlaidBackfill.Migration.Backfill` | alembic/versions/1f3a9c7d8e2b_add_plaid_item_cursor_sync_tables.py:33-144 | the nested loops add an item per group unless its id exists and a mapping per account unless it has one |
| `PlaidBackfill.GroupingIsExact` | alembic/versions/1f3a9c7d8e2b_add_plaid_item_cursor_sync_tables.py:90-94 | every eligible row is in the group of its user and secret, and groups hold nothing else |
| `PlaidBackfill.EveryEligibleIsMappedOnce` | alembic/versions/1f3a9c7d8e2b_add_plaid_item_cursor_sync_tables.py:96-144 | from empty tables, or any it explains, every eligible account ends with exactly one mapping, under its user and to the item of its secret, and nothing else is mapped |
| `PlaidBackfill.ItemIsSharedIff` | alembic/versions/1f3a9c7d8e2b_add_plaid_item_cursor_sync_tables.py:28-30 | two accounts share an item if and only if the names uid:secret of their groups are the same |
| `PlaidBackfill.NamesAreDistinct` | alembic/versions/1f3a9c7d8e2b_add_plaid_item_cursor_sync_tables.py:28-30 | those names determine user and secret as long as user ids hold no colon |
| `PlaidBackfill.BackfillFromEmpty` | alembic/versions/1f3a9c7d8e2b_add_plaid_item_cursor_sync_tables.py:33-144 | from empty tables, with user ids without a colon, every eligible account has exactly one mapping, and two accounts share an item if and only if they share user and secret |
| `PlaidBackfill.BackfilledAccount` | alembic/versions/1f3a9c7d8e2b_add_plaid_item_cursor_sync_tables.py:33-144 | from empty tables exactly the bank and investment accounts with a token are mapped, each to an item of its user and token, with the first institution named among the user's rows with that token |
| `PlaidBackfill.ColonsConfuseUsers` | alembic/versions/1f3a9c7d8e2b_add_plaid_item_cursor_sync_tables.py:28-144 | with a colon in a user id the backfill puts two users on one item, which is the first one's |
| `PlaidBackfill.SecondRunAddsNothing` | alembic/versions/1f3a9c7d8e2b_add_plaid_item_cursor_sync_tables.py:96-144 | running the backfill again adds nothing |
| `WalletLink.Wallets.Link` | backend/api/accounts.py:728-810 | refuses an invalid request, a wallet some account already holds, and one beyond the plan limit, in that order; else stores it |
| `WalletLink.NormalizedIsIdempotent` | backend/api/accounts.py:129-133 | normalising a wallet twice is normalising it once |
| `WalletLink.StoredIsReadBack` | backend/api/accounts.py:136-149 | extracting and normalising what a link stored gives the requested wallet back |
| `WalletLink.NoWalletIsLinkedTwice` | backend/api/accounts.py:753-778 | over any run of links and deletions no two accounts of a user have the same normalised chain and address |
| `WalletLink.RefusedIffHeld` | backend/api/accounts.py:753-778 | a valid request is refused as a duplicate if and only if some account holds the wallet it asks for |
| `WalletLink.SecondLinkIsRefused` | backend/api/accounts.py:753-778 | after a link, every request for the same wallet is refused as a duplicate after every run that does not delete the account |
| `WalletLink.CaseIsIgnored` | backend/api/accounts.py:112-126 | EVM addresses that differ in letter case only are requests for the same wallet |
| `WalletLink.LeadingZeroSlipsThrough` | backend/api/accounts.py:78-100 | the input on which the check fails: eip155:1 and eip155:01 name the same chain number, but both link the same address |
| `WalletLink.SameNumberRefusedIff` | backend/api/accounts.py:78-126 | on any store, the second of two requests with one chain number and address is refused after the first if and only if the references are the same text or the second wallet was held already |
| `WalletLink.OneAccountPerChainNumber` | backend/api/accounts.py:753-778 | over every run in which references are written without leading zeros no two accounts share chain number and address |
| `WalletLink.ChainIdIsPlain` | backend/api/accounts.py:78-100 | a request that gives the chain number, or no chain, is written without leading zeros |
| `WalletAddress.LinkKeeps` | backend/api/accounts.py:728-810 | a request for a wallet is refused with 409 if some account holds it, else with 403 beyond the plan, else stored; what is stored is the text given without the blanks around it, in small letters on EVM chains and letter for letter on all others |
| `WalletAddress.RefusedIffInvalid` | backend/api/accounts.py:77-133 | a request is invalid if and only if it asks for no wallet: chain, number and address are each spelled out character by character |
| `WalletAddress.DifferentAddressesLink` | backend/api/accounts.py:120-133 | outside EVM chains two wallets whose addresses differ in any letter, if only in its case, are both linked |
| `WalletAddress.HoldsIs` | backend/api/accounts.py:135-149 | what an account holds: namespaces compare in small letters, references as they are, addresses in small letters on EVM chains only; older secrets hold a chain number |
| `Percentile.PercentileIsBetween` | scripts/run_load_perf_tests.py:55-66 | lies between any bounds of the samples |
| `Percentile.PercentileIsMonotone` | scripts/run_load_perf_tests.py:55-66 | grows with the requested fraction over [0, 1] |
| `Percentile.PercentileIgnoresOrder` | scripts/run_load_perf_tests.py:55-66 | depends only on the multiset of samples |
| `Percentile.PercentileIsAnOrderStatistic` | scripts/run_load_perf_tests.py:55-66 | at the fraction k/(n-1) it is the sample with k samples before it in sorted order |
| `Percentile.PercentileInterpolates` | scripts/run_load_perf_tests.py:55-66 | at the fraction (k + f)/(n - 1) it lies f of the way from the k-th sample in ascending order to the next |
| `Percentile.PercentileOfFew` | scripts/run_load_perf_tests.py:55-66 | a single sample is every percentile of itself, and without samples it is zero |
| `Payouts.PayoutJob.AggregateRunRevenue` | backend/jobs/calculate_payouts.py:20-59 | credits each event's developer, named by the event or owning the widget, with the rate and one run |
| `Payouts.PayoutJob.CalculatePayouts` | backend/jobs/calculate_payouts.py:72-126 | inserts or overwrites the month's row of each verified developer with revenue |
| `Payouts.AggregateIsExact` | backend/jobs/calculate_payouts.py:40-59 | each developer has one entry with the rate times their attributed events, or none |
| `Payouts.RevenueIsConserved` | backend/jobs/calculate_payouts.py:40-59 | all amounts add up to the rate times all attributed events |
| `Payouts.PayoutsAreExact` | backend/jobs/calculate_payouts.py:79-126 | the month's row of a verified developer holds exactly the rate times their events under the status it had; every other row is as before; month and developer stay unique |
| `Payouts.SecondRunChangesNothing` | backend/jobs/calculate_payouts.py:79-126 | running the job again on the same events changes nothing |
| `Payouts.FiveCentsARun` | backend/jobs/calculate_payouts.py:20-59 | a developer has one entry, of five cents for each run that names him or names no one and is of his widget, and none without such a run |
| `Payouts.PaidFiveCentsARun` | backend/jobs/calculate_payouts.py:72-126 | after the job the month's row of a verified developer holds five cents for each such run, under the status it had; every other row is as it was |
| `Ratings.Widget.Rate` | backend/api/widgets.py:464-496 | refuses the owner and a second rating; else the stored average is again exactly the mean of all ratings and lies in [1, 5] |
| `Ratings.NextMean` | backend/api/widgets.py:493-496 | the update of average and count keeps average times count equal to the sum |

## Left out

- SyncStore.SyncSession.ProcessSingleTransaction: hashes are taken to hold no LIKE wildcard, as hexadecimal and
  base-58 text does not.
- LedgerArchive.ArchiveJob.ArchiveEssentialLedger: assumes the table did not change between the query and the
  deletion, which is the case in which archiving and pruning agree.
- Ratings.Widget.Rate: rounding of the stored floating-point average is not modelled.
- BudgetWindows.ResolveCompletedBuckets: years beyond the last one a date can hold are not modelled.
- WalletLink.Wallets.Link: letters beyond ASCII are not folded, and the first sync after a link is not part of it.
- Payouts.PayoutJob.CalculatePayouts: the month and archive filters of the event query are taken as applied.
- Pruning of transactions older than the retention window during a sync: a filter and a delete.
- `get_budget_status` and `upsert_budget`: the status totals are those of one bucket of the history.
- Household scope, notifications, e-mails, audit entries and response shapes.
- Healing of user ids at the gate, pending sign-ups and the codes they send, passkey sign counters, last-active times.
- The dormant-item cleanup and id hydration of the Plaid sync service, and Plaid transactions.
- Account names, Plaid types, currencies and sync states, which an exchange copies like the balance.
- Interleaving of requests: two requests that both passed a check before either commits.
