# A model of the transaction ledger, with proofs

The repository keeps the money of an account-based ledger: plain transactions with one sender, one receiver and one
amount; wallet transactions with a list of child transactions; reservations that are committed or cancelled later;
updates of high-volume accounts (HVT) that travel through a queue; a reconciliation job; cursor pagination; a CSV
download; and daily money-flow summaries. This project models those parts in Dafny and proves what every run of them
keeps. `dafny verify dfyconfig.toml` checks all of it.

| file | what it models |
|---|---|
| `Basics.dfy` | options, results, exact amounts, sums over sequences |
| `Balance.dfy` | one balance with its guarded steps, as a class and as a function of the step |
| `TransactionSets.dfy` | the calculators that lift those steps to a map of accounts, and the fold over a list of children |
| `Feasibility.dfy` | for each calculator, when a list of children goes through |
| `TwoPhase.dfy` | reserve-then-commit against moving the money at once, reserve-then-cancel against doing nothing |
| `Conservation.dfy` | totals over a map of accounts |
| `Aliases.dfy` | account numbers, T24 numbers and the rename before a calculation |
| `Ledger.dfy` | the persisted ledger and what each service call does to it as a whole |
| `LedgerBooks.dfy` | the invariant: what the stored transactions say every account must hold |
| `LedgerNames.dfy` | which accounts the stored row of a wallet transaction reaches, against those the request reached |
| `LedgerRuns.dfy` | whole serial runs: books, conservation, statuses, a store that fails |
| `LedgerReservations.dfy` | when calls succeed, which reservations can be settled and which stay pending for good |
| `LedgerQueue.dfy` | what wallet calls queue for high-volume accounts and which rows they write |
| `LedgerExamples.dfy` | runs on two accounts: a commit stuck at a maximum balance, books put out of balance |
| `LedgerNameExamples.dfy` | runs whose reservation and settlement find different accounts, or none |
| `LedgerService.dfy` | the services step by step, as methods that update a class, proved against `Ledger.dfy` |
| `Sessions.dfy` | interleaved database sessions with row locks and versioned writes |
| `SessionOrders.dfy` | which commit orders interleavings can have |
| `LedgerSessions.dfy` | the calls of `Ledger.dfy` run as such sessions |
| `LedgerConflicts.dfy` | what those sessions lock, and two settlements of one transaction at once |
| `Recon.dfy` | reconciliation of a file with the database |
| `Paging.dfy` | the over-fetching keyset query, the response and the walk through the pages |
| `Cursors.dfy` | the text of a cursor, printed and parsed |
| `PagingLinks.dfy` | the transaction list with its links as printed cursors |
| `CsvSplit.dfy` | the size-bounded CSV download |
| `MoneyFlow.dfy` | money-flow summaries, their links and their statuses |

Names: `Calculator` names what the repository's calculators do, since several of them are the same steps under
different names. `Direct` is a transfer, a cash-in or a cash-out; `ReserveSource`, `CommitBoth` and `CancelSource` are
the reserve, commit and cancel of a transfer or a cash-out; `Nothing` is the cash-in commit and `WithdrawSource` the
cash-in cancel.

## What is taken as given

* Amounts are exact and are whole numbers of the smallest unit. Dates and times are whole numbers.
* An error inside `Atomic` leaves the persisted state as it was. What has been put in the queue by then stays there.
* The configuration is fixed during a run: accounts, excluded and ignored accounts, HVT flags, limits. No account is
  deleted.
* A wallet transaction transforms into children with the amounts of its row. Each side of a child is one of the row's
  own two accounts or a name the transform knows, from the configuration or from a look-up that answers the same for an
  account's number and its T24 number. Neither depends on status, time or merged metadata. The row is stored with its
  own two accounts renamed, as `CreateTransactionAtomic` does, and is transformed again when it is settled.
* `Unambiguous`, where a theorem asks for it: every account has a number, and no number or T24 number belongs to two
  accounts. `SharedNameMovesReservation` shows what happens otherwise.
* Statuses and reservations are about serial runs, one service call after another: the PENDING check of a commit or a
  cancel reads its row without a lock. The properties of interleaved sessions are about account rows only.
* A transaction is reserved exactly when it is stored with status 0, as `ToTransactionReq` builds it.
* The database takes row locks in the order its `ORDER BY` states; for `GetAccountBalances`, whose query sorts its
  arguments and states no order, the same order is taken. Publishing succeeds and each update is delivered
  once, in any order. A Go map is visited in some order, here that of the account table.
* The local storage of a reconciliation starts empty and does not fail. The rows of a paged table have unique keys and
  none of them is null, and the table does not change during a walk. Ids of wallet rows are texts: an integer stands for
  the place of an id in the order the database gives them.

Where the code and its description part, the model follows the code:

* `ToFilterOpts` of the wallet lists sets a sort direction only when none is asked for and never copies one, so a request
  for ascending order gets the descending list: `DirectionIsHonouredExactlyUnlessAscending`. The query itself handles
  both directions, and the theorems about pages are about the query's.
* A wallet cursor splits at every bar, so it comes back exactly when its id has none: `WalletCursorRoundTripsExactly`.
* A reserved payment can exceed a receiver's maximum: it is reserved and cannot be committed.
  `PendingWalletSettles` gives the exact condition and `CappedReceiverStopsTheCommit` such a payment.
* A reservation is made under the names that are asked for and settled under those the row is stored with. An account
  that is asked for by T24 number while its own number is kept out of the database is changed by the first and not by
  the second, so its amount stays pending when nothing stands any more. `PendingIsExactUnlessNamedByT24` says exactly
  when that happens and `CancelledButStillPending` is such a run.
* The rename can leave nothing but long numbers, and among those T24 numbers are not looked up: a reserved row then can
  be neither committed nor cancelled. `PendingWalletSettlesWhenFoundAgain` has the exact condition and
  `ReservedAndNotFoundAgain` such a row.
* `CalculateCashInCancel` withdraws from the source once more and returns nothing to it. `CashInCancelLosesMoney` says
  what it would do and `NoReservedCashIn` that it never runs.
* `ProcessReservedTransaction` publishes inside the `Atomic` body, so a later failure keeps the queued updates.
  `FailedStoreKeepsBooksUnlessIncomeIsDeferred` says exactly which accounts that puts out of balance and
  `FailedStoreUnbalancesTheReceiver` gives a run where it happens.
* Committing a reservation checks the pending balance against zero after the step, so the two-phase theorem needs the
  senders to hold no debt in pending; `TwoPhaseRefinesDirect` has that as one side of its if-and-only-if.
* A failure can be linked to more than one money-flow summary over time, though to one pending one at a time:
  `OnePendingRetry` and `AFailureIsLinkedAgain`.
* `ProcessTransactionStream` writes the status an event brings without a look at the table of transitions, so even a
  success can be overridden: `EventOverridesSuccess`. Totals and chains of links hold whatever it writes; the results
  about statuses are for runs whose events follow the table.

## Model

| member | source | states |
|---|---|---|
| Balances.RunKeepsFloorAndPending | internal/models/balance.go:62-172 | over any sequence of steps with the sufficiency check on, accepted or refused, pending stays non-negative and the available amount never falls below the least of its start, zero and minus the negative limit |
| Balances.RunKeepsCap | internal/models/balance.go:124-139 | with the cap enabled the actual amount never exceeds the greater of its start and the cap |
| Balances.FloorHoldsExactlyWhenChecked | internal/models/balance.go:62-168 | both floors hold over all runs if and only if the sufficiency check is on |
| Balances.CapHoldsExactlyWhenEnabled | internal/models/balance.go:124-139 | a configured maximum bounds all runs if and only if it is positive and the limit toggle is on |
| Balances.OutgoingExactlyWhen | internal/models/balance.go:62-168 | with the checks on, a reservation or withdrawal goes through if and only if it leaves the available amount at zero or above or, when the account has a negative limit and the type is not empty and on its list, at minus that limit or above; which of the two bounds applies decides the error |
| Balances.OthersExactlyWhen | internal/models/balance.go:92-139 | no operation takes an amount that is not positive; releasing and committing need it pending, adding funds is bounded by a positive maximum with the toggle on, and an unchecked balance refuses nothing else |
| Balances.UnlistedRunKeepsZero | internal/models/balance.go:62-168 | over any run of outgoing types that are not on the list the available amount never falls below the lesser of its start and zero, whatever the negative limit |
| Balances.BalanceObject.Reserve | internal/models/balance.go:62-90 | pending grows by the amount and nothing else changes, or the balance is left and the error is the one the guards give in their order |
| Balances.BalanceObject.CancelReservation | internal/models/balance.go:92-106 | pending shrinks by the amount, or the balance is left with the error of the failing guard |
| Balances.BalanceObject.Commit | internal/models/balance.go:108-122 | actual and pending both shrink by the amount, or the balance is left with the error of the failing guard |
| Balances.BalanceObject.AddFunds | internal/models/balance.go:124-139 | actual grows by the amount, or the balance is left because the amount is not positive or the cap would be exceeded |
| Balances.BalanceObject.Withdraw | internal/models/balance.go:141-168 | actual shrinks by the amount, or the balance is left with the error of the failing guard |
| TransactionSets.FoldKeepsAccounts | internal/models/transaction_wallet.go:28-328 | no calculator adds or drops an account or changes the options of one, whether it succeeds or stops half-way |
| TransactionSets.FoldFindsEveryAccount | internal/models/transaction_wallet.go:211-306 | when all accounts are in the map, a fold fails only because a balance refuses a step or the flow has no calculator |
| TransactionSets.MissingIsReported | internal/models/transaction_wallet.go:73-328 | a missing sender is the error before anything is checked, reported as a destination by the cash-in cancel alone; a missing receiver is one after the sender has been written |
| TransactionSets.DirectMovesNet | internal/models/transaction_wallet.go:211-247 | transferring all children moves every account's actual amount by what it receives minus what it sends, self-transfers included |
| TransactionSets.ReserveAddsOut | internal/models/transaction_wallet.go:249-268 | reserving all children raises every account's pending amount by exactly what it sends |
| TransactionSets.CommitMovesNet | internal/models/transaction_wallet.go:270-306 | committing all children moves actual amounts by the net and releases from pending exactly what each account sends |
| TransactionSets.CancelGivesBack | internal/models/transaction_wallet.go:308-328 | cancelling succeeds whenever pending covers the children of each checked sender, and releases exactly what each account sends |
| Feasibility.TransferSucceedsExactlyWhen | internal/models/transaction_wallet.go:211-247 | a transfer-all succeeds if and only if all amounts are positive and, child by child, every checked sender keeps its floor after what the earlier children moved and every capped receiver has room for what has reached it |
| Feasibility.ReserveSucceedsExactlyWhen | internal/models/transaction_wallet.go:249-268 | a reserve-all succeeds if and only if all amounts are positive and every checked sender keeps its floor after its earlier reservations |
| Feasibility.CommitSucceedsExactlyWhen | internal/models/transaction_wallet.go:270-306 | a commit-all succeeds if and only if all amounts are positive, pending covers what each checked sender sends, and every capped receiver has room for what has reached it, child by child; when covered, its only error is the exceeded maximum |
| Feasibility.CancelSucceedsExactlyWhen | internal/models/transaction_wallet.go:308-328 | a cancel-all succeeds if and only if all amounts are positive and pending covers what each checked sender sends |
| TransactionSets.AccountBalances.CalculateTransfer | internal/models/transaction_set.go:26-52 | the shared map ends as the calculator's outcome says, with the source already written when the destination refuses |
| TransactionSets.AccountBalances.CalculateReserve | internal/models/transaction_set.go:54-69 | the shared map ends as the outcome of reserving at the source |
| TransactionSets.AccountBalances.CalculateCommit | internal/models/transaction_set.go:71-98 | the shared map ends as the outcome of committing at the source and adding at the destination |
| TransactionSets.AccountBalances.CalculateCancel | internal/models/transaction_set.go:100-115 | the shared map ends as the outcome of releasing at the source |
| TransactionSets.AccountBalances.CalculateCashInCancel | internal/models/transaction_wallet.go:73-92 | the shared map ends as the outcome of withdrawing from the source |
| TransactionSets.AccountBalances.RunAll | internal/services/wallet_transaction_service.go:387-400 | the loop over the children ends with the outcome of the fold, stopping at the first error |
| TwoPhase.TwoPhaseRefinesDirect | internal/models/transaction_wallet.go:211-306 | after a successful reserve-all, commit-all succeeds if and only if the direct transfer-all succeeds on the start map and no checked sender starts with negative pending; the balances are then equal, with pending back at its start |
| TwoPhase.CancelUndoesReserve | internal/models/transaction_wallet.go:249-328 | reserve-all followed by cancel-all gives back the start map without an error |
| Conservation.DirectKeepsTotal | internal/models/transaction_wallet.go:211-247 | a transfer-all leaves the sum of all actual amounts as it was |
| Conservation.CommitKeepsTotal | internal/models/transaction_wallet.go:270-306 | so does a commit-all |
| Conservation.CashInCancelLosesMoney | internal/models/transaction_wallet.go:73-92 | a cash-in cancel takes the sum of its children out of the total, so it keeps the total if and only if there are none |
| Conservation.CashInCommitChangesNothing | internal/models/transaction_wallet.go:66-71 | a cash-in commit leaves every balance as it is |
| Aliases.AliasMapFindsLastOwner | internal/services/common.go:288-302 | a name is in the alias map if and only if some account answers to it, and stands for the last such account |
| Aliases.AliasResolutionIsClosed | internal/services/common.go:266-321 | if the validation accepts, then after the rename every sender and receiver is a key of the balance map, and no calculator reports a missing account for any list of children |
| Aliases.NoUnknownMeansListed | internal/services/common.go:266-286 | the validation accepts if and only if some account answers to every name of every child |
| Aliases.ValidateAccountExistsInTransactions | internal/services/common.go:266-286 | the loops return the first account no balance answers to, and none when there is no such account |
| Aliases.UnknownIsTheFirst | internal/services/common.go:266-286 | the account reported as missing belongs to the first child that has one, and is its sender unless that exists |
| Aliases.MapT24AccountNumberToAccountNumber | internal/services/common.go:288-302 | the loop builds the alias map |
| Aliases.UpdateTransactionAccountNumber | internal/services/common.go:304-321 | every element of the slice is renamed in place through the alias map |
| Aliases.ConvertToBalanceMap | internal/models/account_balance.go:32-38 | the loop builds the balance map, where a later entry of an account number wins |
| LedgerServices.LedgerService.UpdateAccountBalance | internal/repositories/sql_account.go:474-520 | the row gets the amounts and the next version and no other row changes |
| LedgerServices.LedgerService.FetchMany | internal/repositories/sql_balance.go:75-149 | the stored rows in account-number order and then a zero balance for each excluded or ignored account that was asked for |
| LedgerServices.LedgerService.StoreTransaction | internal/services/transaction_service.go:577-664 | the state and the error are those of the ledger's store, and any error, also that of the last write after the rows have been written, leaves the whole state as it was |
| LedgerServices.LedgerService.CommitReservedTransaction | internal/services/transaction_service.go:757-831 | the state and the error are those of settling with a commit, and an error undoes the status that has been written by then |
| LedgerServices.LedgerService.CancelReservedTransaction | internal/services/transaction_service.go:833-897 | the state and the error are those of settling with a cancel, and an error undoes the status that has been written by then |
| LedgerServices.LedgerService.AccountNumbersForUpdateBalance | internal/services/common.go:129-142 | the names the children mention, in order, empty ones left out |
| LedgerServices.LedgerService.CalculateWallet | internal/services/wallet_transaction_service.go:112-148 | reading, validating, renaming and calculating give the plan the ledger makes |
| LedgerServices.LedgerService.WriteOrDefer | internal/services/wallet_transaction_service.go:150-194 | every planned row is written except those of high-volume accounts that only receive, whose differences are returned for the queue |
| LedgerServices.LedgerService.RenameRequest | internal/services/wallet_transaction_service.go:130-136 | the request's own account and destination come under the numbers of the accounts that were read, and stay as they are when none answers |
| LedgerServices.LedgerService.CreateTransactionAtomic | internal/services/wallet_transaction_service.go:81-249 | the state, with the wallet row stored under the renamed accounts, and the error are those of the ledger's creation, and a failing store after that undoes the rows and the wallet row and publishes nothing |
| LedgerServices.LedgerService.CreateTransaction | internal/services/wallet_transaction_service.go:534-578 | a reserved cash-in is refused before anything changes; everything else is created |
| LedgerServices.LedgerService.ProcessReservedTransaction | internal/services/wallet_transaction_service.go:274-474 | the state and the error are those of the ledger's settlement of the stored row, transformed again; an error undoes rows and status, and only a failure after publishing leaves anything, which is the queue |
| LedgerServices.LedgerService.AdjustAccountBalance | internal/repositories/sql_balance.go:179-200 | one queued update moves the actual amount of its row and leaves the queue |
| LedgerBooks.PlanMovesShares | internal/services/wallet_transaction_service.go:150-194 | what a wallet call writes to an account and what it queues for it add up to exactly its share of the children |
| LedgerBooks.DeltasCarryDifference | internal/services/wallet_transaction_service.go:402-434 | what is queued for an account is the change of its available amount if its update is deferred and zero otherwise |
| LedgerQueue.WhatIsQueued | internal/services/wallet_transaction_service.go:150-194 | what is queued for an account is all that the children bring to it if its row is a tracked high-volume one that none of them is sent from and the call may defer, and its row is then not touched; for any other account it is nothing |
| LedgerQueue.WhatIsWritten | internal/services/wallet_transaction_service.go:155-190 | every other tracked row is written exactly once, and no other row is |
| LedgerQueue.CreationQueues | internal/services/wallet_transaction_service.go:155-180 | a creation that moves money queues exactly the income of high-volume accounts that only receive; one that reserves or errs queues nothing |
| LedgerQueue.SettlementQueues | internal/services/wallet_transaction_service.go:402-434 | a commit of a PENDING row queues exactly that income under the stored names, and any other settlement moves the queue of no account |
| LedgerNames.TrackedExactlyWhen | internal/repositories/sql_balance.go:75-149 | a wallet call reads and writes an account's row if and only if the query selects it and its number is not itself asked for as one that is kept out |
| LedgerNames.TrackedInPlainTerms | internal/repositories/sql_balance_query.go:60-146 | in terms of the children and the excluded and ignored accounts alone: a row is read and written if and only if it is asked for by a number on neither list or, when some name is shorter than 15 characters or has a non-digit, by a T24 number on neither list, and its number is not asked for while on a list |
| LedgerNames.FoundInPlainTerms | internal/repositories/sql_balance.go:105-146 | in the same terms: a name is found if and only if it is asked for and on a list, or some row that is read has it as its number or T24 number |
| LedgerNames.ListedAccountIsLeftAlone | internal/repositories/sql_balance.go:133-146 | an excluded or ignored account that is asked for by number is calculated on as zero without checks or maximum; its row stays as it is and nothing is queued for it |
| LedgerNames.TableAccountIsRead | internal/repositories/sql_balance.go:84-131 | any other account that is asked for is calculated on with the amounts of its row and the options of the table, its checks off if and only if its number is ignored |
| LedgerNames.FoundAgainExactlyWhen | internal/repositories/sql_balance_query.go:60-146 | the stored row's names are found at the settlement if and only if not all of them are long numbers, or each comes with its account's number |
| LedgerNames.PreparedAgain | internal/services/wallet_transaction_service.go:356-385 | when they are found, the settlement moves money between the accounts the creation resolved, child by child |
| LedgerNames.SharesAgain | internal/services/wallet_transaction_service.go:356-434 | what the settlement takes from and brings to an account's row is what the creation would have, or nothing if and where the request named the account by T24 while its number is kept out |
| LedgerNames.RequestByNumberStaysAsItIs | internal/services/wallet_transaction_service.go:130-136 | a request that gives its own accounts by number is stored as it is, and its settlement misses no account |
| LedgerNames.StrandedExactlyWhen | internal/services/wallet_transaction_service.go:130-136 | a settlement releases less than was reserved on an account if and only if a child is sent from it under its T24 number and its own number, not asked for, is kept out; it never releases more |
| LedgerRuns.EveryRunIsBooked | internal/services/transaction_service.go:607-891 | in every state serial calls reach, each account's pending has grown by the sum of the standing reservations it sends and of what settlements have not released under the stored names, and its actual plus its undelivered updates has moved by the net of everything that has succeeded |
| LedgerRuns.GrandTotalNeverChanges | internal/services/wallet_transaction_service.go:150-194 | the money in the table, in the queue and with the accounts kept out of the table never changes in sum, in any run and delivery order |
| LedgerRuns.DuplicateExactlyWhenStored | internal/services/transaction_service.go:591-598 | after any run a positive amount is refused as a duplicate, with nothing changed, if and only if the run has stored a transaction under the same reference number |
| LedgerRuns.StoredOnce | internal/services/transaction_service.go:591-664 | what has been stored under a reference number is refused ever after, whatever is sent and called in between |
| LedgerRuns.SameVersionSameRow | internal/repositories/sql_account.go:474-520 | over any run a row's version never falls and grows by at most one a call, and a row with the same version at the end has the same pending amount, and is the same row if no queued update was delivered |
| LedgerRuns.PlainCallsWrite | internal/services/transaction_service.go:607-664 | a store writes the rows of its two accounts once each and no other row |
| LedgerRuns.SettlementsWrite | internal/services/transaction_service.go:757-897 | a commit writes the rows of both accounts, a cancel that of the sender alone, once each and no other row |
| LedgerRuns.PlainSettledStaysSettled | internal/services/transaction_service.go:757-897 | a plain transaction that has been settled keeps its status over any further run: the same action changes nothing and succeeds, the opposite one is refused and changes nothing |
| LedgerReservations.PendingIsExactUnlessNamedByT24 | internal/services/wallet_transaction_service.go:130-136 | in every reachable state an account's pending is its opening one and the standing reservations, if and only if no settled reservation was sent from it under its T24 number while its own number, not asked for, is kept out; it is never less |
| LedgerReservations.SafeNamesKeepPendingExact | internal/services/wallet_transaction_service.go:112-194 | so it is exact throughout every run none of whose reserved requests names the account that way |
| LedgerNameExamples.CancelledButStillPending | internal/services/wallet_transaction_service.go:130-136 | for every amount, a run where a payment asked for by T24 number is reserved and cancelled, nothing stands and the amount is still pending |
| LedgerNameExamples.SharedNameMovesReservation | internal/services/common.go:288-302 | for every amount, a run where the number of one account is the T24 number of another one, and what was reserved on the first is released on the second |
| LedgerReservations.ReservedTransactionIsDirect | internal/services/transaction_service.go:577-897 | reserving a transaction is possible if and only if storing it is; it can then be settled at once if and only if its sender held no debt, and a commit leaves every account with the amounts of the direct store, a cancel with those of before |
| LedgerReservations.PendingTransactionSettles | internal/services/transaction_service.go:757-891 | in every reachable state a PENDING transaction can be committed and cancelled if and only if its sender has its amount pending, which it always has when every name stands for one account, even if the account skipped the check when it was reserved |
| LedgerReservations.CreateSucceedsExactlyWhen | internal/services/wallet_transaction_service.go:81-249 | a wallet transaction is created if and only if it is no reserved cash-in, its names resolve, its flow is known, every checked sender keeps its floor at its turn and, unless it only reserves, every capped receiver has room at its turn |
| LedgerReservations.PendingWalletSettles | internal/services/wallet_transaction_service.go:274-474 | in every reachable state a PENDING wallet transaction can be cancelled if and only if its stored names are found and what it releases is pending there, and committed if and only if moreover every capped receiver has room for what reaches it, child by child |
| LedgerReservations.PendingWalletSettlesWhenFoundAgain | internal/services/wallet_transaction_service.go:274-474 | when every name stands for one account what it releases is always pending: it can be cancelled if and only if its names are found again, and a commit fails for names not found, for too little room at a receiver, and for nothing else |
| LedgerNameExamples.ReservedAndNotFoundAgain | internal/repositories/sql_balance_query.go:60-114 | for every amount, a reserved payment is reachable that can be neither committed nor cancelled because the rename leaves a long T24 number among long numbers |
| LedgerExamples.CappedReceiverStopsTheCommit | internal/models/balance.go:124-139 | for every amount and maximum, a reserved payment is reachable whose commit succeeds if and only if the amount is within the receiver's maximum |
| LedgerRuns.StatusChangesAtMostOnce | internal/services/wallet_transaction_service.go:294-316 | over any run the status of a wallet transaction changes at most once and only away from PENDING, and nothing else of its row ever does |
| LedgerRuns.SettledStaysSettled | internal/services/wallet_transaction_service.go:294-316 | once settled, after any further run the same action changes nothing and succeeds, and the opposite action is refused and changes nothing |
| LedgerRuns.SettlementGuards | internal/services/wallet_transaction_service.go:282-316 | a missing row, an unknown action and a row settled the other way are refused with their own errors and nothing changed, and no error leaves anything but queued updates |
| LedgerRuns.NoReservedCashIn | internal/services/wallet_transaction_service.go:553-555 | no run that goes through CreateTransaction reaches a PENDING cash-in, so the cash-in commit and cancel calculators are never selected for one |
| LedgerRuns.FailedStoreKeepsBooksUnlessIncomeIsDeferred | internal/services/wallet_transaction_service.go:402-450 | in every reachable state, when a commit fails after publishing, the rows and the wallet row are as before and an account's books still balance if and only if the commit did not defer income to it |
| LedgerExamples.FailedStoreUnbalancesTheReceiver | internal/services/wallet_transaction_service.go:402-450 | for every amount, a run is reachable where such a failure puts a high-volume receiver's books out of balance and leaves its sender's in balance |
| Sessions.NoLostUpdate | internal/services/wallet_transaction_service.go:112-194 | for any number of interleaved sessions and queue updates, the committed amounts are those of the committed sessions run one after another in commit order, each once, and no versioned write ever finds no row |
| Sessions.VersionStillThere | internal/repositories/sql_account.go:474-512 | under the row lock the version read before a conditional write is still the row's version at the write |
| Sessions.VersionsCountCommits | internal/repositories/sql_account.go:474-520 | a commit raises by one the version of every row it writes and of no other; nothing else raises any, so an arriving queued update leaves its row's version |
| Sessions.CommitIsAlone | internal/repositories/sql_main.go:108-139 | what a session commits is what it would have written had it run alone on the table committed by then |
| Sessions.NoDeadlock | internal/repositories/sql_balance_query.go:109-146 | in every reachable state with an unfinished session some session can take a step other than giving up, when account locks are taken in ascending order and a transaction row before them |
| Sessions.RunsEnd | internal/repositories/sql_account_query.go:227-247 | every step uses up some of the work that is left, so a run is no longer than the work at its start |
| Sessions.EverySessionFinishes | internal/services/wallet_transaction_service.go:112-194 | a run that cannot go on has finished every session |
| SessionOrders.PossibleOrders | internal/repositories/sql_main.go:108-139 | the commit orders that interleavings can have are exactly those in which no session comes twice and every call calculates on what the sessions before it leave |
| LedgerSessions.CalculationReadsLocked | internal/repositories/sql_balance_query.go:69-146 | what a wallet call, a store, a commit or a cancel calculates is the same on any two tables that agree on the rows its query locks |
| LedgerSessions.WrittenIsLocked | internal/services/wallet_transaction_service.go:150-194 | a call writes only rows it has locked |
| LedgerSessions.AloneIsOnRows | internal/services/transaction_service.go:607-647 | a session that runs alone, reading its locked rows only, does to every account what the call does to the ledger's rows |
| LedgerSessions.TaskOnRows | internal/services/transaction_service.go:778-891 | the ledger's own creation, settlement, store and delivery do to the rows what the sessions of those calls do |
| LedgerSessions.InterleavedCallsAreSerial | internal/services/wallet_transaction_service.go:112-194 | wallet calls, plain calls and arriving updates that interleave in any way never get stuck; if no update arrives before a committed call has published it or it was queued, they leave every account with the balances the ledger's own calls leave one after another in commit order |
| LedgerSessions.QueuedArePublishedFirst | internal/repositories/sql_balance.go:179-200 | updates that are queued before the interleaving starts meet that condition in every commit order |
| LedgerSessions.InterleavedCallsKeepBooks | internal/services/wallet_transaction_service.go:112-194 | after any such interleaving each account's pending is its opening one and the reservations standing or stranded after those serial calls, and its actual with what is still queued is its opening one and the net of what has succeeded |
| LedgerConflicts.OwnLockInPlainTerms | internal/services/transaction_service.go:778-795 | a call locks a stored row exactly when it settles one that was pending when it was read, and two calls share that lock exactly when they settle the same row |
| LedgerConflicts.LockedInPlainTerms | internal/repositories/sql_balance_query.go:69-146 | the account rows each call locks, named by its own fields: those read for a creation or a settlement of a wallet transaction, both accounts of a store or a commit, the sender of a cancel, none for a call refused before |
| LedgerConflicts.SettlementsTakeTurns | internal/repositories/sql_transaction_query.go:64-69 | of the calls that settle one stored row no two are at work in the database at a time, whatever else interleaves |
| LedgerConflicts.TwoSettlementsCountTwice | internal/services/transaction_service.go:757-815 | the status is not looked at again under the lock: two settlements of one pending transaction leave what the ledger's own calls leave one after another exactly when no more than one of them commits |
| LedgerConflicts.BothCommitExactlyWhen | internal/services/transaction_service.go:757-815 | some interleaving commits both exactly when the amount is positive, the accounts are there and the sender has the amount pending twice |
| Recon.StreamTransactionsToLocalStorage | internal/services/recon_service_process_task.go:102-133 | the storage holds the records of the stream before its first failure, grouped in stream order, and an error is returned if and only if there is a failure |
| Recon.ProcessCSVRow | internal/services/recon_service_process_task.go:199-282 | a header, an unreadable row or another day's payment changes nothing, a malformed row is reported, and a payment of the day takes the first record of its identifier and amount, whose list is deleted when that was the last, or is reported as missing |
| Recon.ReconcileRecordsAndGenerateReport | internal/services/recon_service_process_task.go:135-197 | the report holds the answers to all readable rows and then what is left in the storage, whatever the order of its keys |
| Recon.RowsTakeFirst | internal/services/recon_service_process_task.go:241-253 | for each identifier and amount the matched references are the first ones held, as many as there are rows asking, and the others stay in order |
| Recon.MaximumMatching | internal/services/recon_service_process_task.go:199-282 | for each identifier and amount the number of matches is the smaller of the file's rows of that day and the database's records, and they are paired in database order |
| Recon.MatchingIgnoresOrder | internal/services/recon_service_process_task.go:102-282 | that number is the same for any order of the file and of the stream |
| Recon.ReportPartitionsRecords | internal/services/recon_service_process_task.go:164-194 | every database record is reported exactly once, as a match or as left over, counted with repetitions |
| Recon.OneAnswerPerRow | internal/services/recon_service_process_task.go:199-282 | each malformed row and each payment of the day gets exactly one answer, of its own identifier and amount, in file order, and no other row gets any |
| Paging.ReverseInPlace | internal/common/http/rest_response.go:62-67 | swapping from both ends turns the first rows of the slice round |
| Paging.RestSuccessResponseCursorPagination | internal/common/http/rest_response.go:52-84 | the page is the data without the over-fetched row, turned round on a backward request, with the links that go with it |
| Paging.ListingIsExact | internal/repositories/sql_transaction_query.go:244-266 | the listing holds every row the filter lets through, once, by time and then by id, ascending or descending |
| Paging.RowsAfter | internal/repositories/sql_wallet_transaction_query.go:108-121 | the rows a forward cursor selects are the rest of the listing after its row, in either direction |
| Paging.RowsBefore | internal/repositories/sql_wallet_transaction_query.go:123-136 | the rows a backward cursor selects, in the reverse order, are the start of the listing turned round |
| Paging.PageAfterRow | internal/common/http/rest_response.go:52-84 | a next cursor of any row, with any limit, gives the page that starts after it |
| Paging.PageBeforeRow | internal/common/http/rest_response.go:52-84 | a prev cursor of any row, with any limit, gives the last rows before it in the order of the listing, as many as fit a page, with their links |
| Paging.RequestsAreRead | internal/models/transaction_list.go:207-277 | a request errs if and only if its limit is negative, and a prev cursor beside a next cursor is not looked at |
| Paging.FirstPage | internal/models/transaction_list.go:246-253 | a request without cursors gives the first rows, ten when no limit is given |
| Paging.NextPage | internal/common/http/new_pagination.go:26-43 | the next link of a page gives the page after it |
| Paging.PrevPage | internal/common/http/new_pagination.go:26-43 | the prev link of a page gives the page before it, with the links it has when reached forward |
| Paging.ForwardWalkIsExact | internal/common/http/rest_response.go:52-84 | following next links shows the listing in order and each row once, every page but the last is full, the last of several is not empty, and without a next link all rows have been shown |
| Paging.ForwardWalkEnds | internal/common/http/new_pagination.go:26-43 | a walk has at most one page for each row and one more |
| Paging.BackwardUndoesForward | internal/common/http/new_pagination.go:29-35 | for any two neighbouring pages of a walk, in either sort direction, the prev link of the second gives back the first with the same rows and the same links |
| Paging.TransactionListIsDescending | internal/repositories/sql_transaction_query.go:244-266 | the transaction list is the descending one, so all of this holds for it |
| Paging.WalletListIsDescending | internal/models/internal_wallet.go:120-123 | so is every wallet list that is requested, whatever direction is asked for |
| Paging.DirectionIsHonouredExactlyUnlessAscending | internal/models/internal_wallet.go:76-150 | a requested direction is honoured on every list if and only if it is not the ascending one; two rows show the failing request |
| PagingLinks.LinkReadsBack | internal/models/transaction_list.go:170-205 | a printed link is not empty and is read back as the key of the row it was printed for |
| PagingLinks.NumberOrdersDays | internal/models/transaction_list.go:170-176 | a day as a number is that day again and numbers are ordered as the days are |
| PagingLinks.TextRequestsAreRead | internal/models/transaction_list.go:207-277 | a negative limit is refused first, then a used cursor that does not decode, with its reason; everything else is answered |
| PagingLinks.ForwardTextWalkIsExact | internal/models/transaction_list.go:207-277 | sending each printed next link back shows the transactions latest first and each once, in full pages before the last, until there is no next link |
| PagingLinks.BackwardTextUndoesForward | internal/common/http/new_pagination.go:26-43 | for any two neighbouring pages of such a walk the printed prev link of the second gives back the first, rows and printed links |
| Cursors.CursorRoundTrip | internal/models/transaction_list.go:170-205 | a printed cursor splits in exactly two parts and decodes to itself, for every date with a four-digit year and every 64-bit id |
| Cursors.DecodedTextPrints | internal/models/transaction_list.go:178-205 | a text that decodes is what its cursor prints, if and only if its id has no superfluous leading zero |
| Cursors.DateRoundTrip | internal/models/transaction_list.go:170-176 | a printed date parses to itself and has no bar in it |
| Cursors.NextDayIsNext | internal/models/transaction_list.go:189-192 | no day is missing from the calendar and none is added: by the closed formula of the Gregorian calendar the day after each date is the next one, from the year 0 to the year 9999 |
| Cursors.DecodesExactlyWhen | internal/models/transaction_list.go:184-198 | a text with one bar decodes if and only if a day is printed before it and digits of a 64-bit number come after it; a bad day is reported before a bad id |
| Cursors.OneBarOnly | internal/models/transaction_list.go:184-187 | a text with no bar or more than one is an invalid format |
| Cursors.TextOfACursor | internal/models/transaction_list.go:170-176 | the cursor of 29 February 2024 and the id 1205 is spelled out |
| Cursors.SplitInTwo | internal/models/transaction_list.go:184-187 | two texts without the bar, joined by one, split in exactly those two |
| Cursors.WalletCursorRoundTripsExactly | internal/models/internal_wallet.go:46-74 | a printed wallet cursor decodes to itself if and only if its id has no bar in it, and is an invalid format otherwise |
| CsvSplit.DownloadV2TransactionFileCSV | internal/services/transaction_service.go:151-404 | links are returned if and only if the rows exceed the threshold; the files are then a well-formed split whose rows in order are all rows, with one address for each file; otherwise the rows are returned as they are; a stream failure is an error |
| CsvSplit.StartFirstFile | internal/services/transaction_service.go:287-318 | the buffered rows and the row that went over the threshold make up the first file |
| CsvSplit.WriteRotating | internal/services/transaction_service.go:328-358 | one more row keeps the split well-formed: it goes to a new file exactly when it does not fit the current one |
| CsvSplit.SplitIsUnique | internal/services/transaction_service.go:174-404 | rows and threshold determine the files: the first is the shortest prefix over the threshold, each later one takes every row it can |
| MoneyFlow.MoneyFlowRepository.UpsertSummary | internal/repositories/sql_money_flow_calc.go:256-323 | a new summary is inserted, or its amount is added to the active one of the same day and payment type and nothing else of that one changes |
| MoneyFlow.MoneyFlowRepository.ProcessOrUpdate | internal/services/money_flow_processor.go:34-67 | both tables change as one incoming transaction says |
| MoneyFlow.ProcessedInPlainTerms | internal/services/money_flow_processor.go:34-67 | an incoming transaction adds to the summary that is active for its day and payment type, or starts a PENDING one of its own types, and adds one detail row; nothing else changes |
| MoneyFlow.MoneyFlowRepository.UpdateFields | internal/repositories/sql_money_flow_calc.go:389-467 | exactly the given ones of the six fields are set; with none, or without the row, there is an error and no change |
| MoneyFlow.MoneyFlowRepository.UpdateSummary | internal/services/money_flow_calc_service.go:302-340 | the checks are made in their order and the first that fails is the error; otherwise the planned update is applied |
| MoneyFlow.RequestExactlyWhen | internal/models/money_flow_calc.go:489-600 | a request goes through if and only if it gives a field of an active summary, its status is the current one or one of the five transitions, going in progress comes with the platform's id and without an actual date, and its date can be read |
| MoneyFlow.RefusedForTheFirst | internal/services/money_flow_calc_service.go:302-340 | a refused request changes nothing and its error is that of the first of those that fails |
| MoneyFlow.RequestedFields | internal/models/money_flow_calc.go:540-600 | what goes through sets the given fields, the requested date when it goes in progress, and the actual date given or, for a success without one, the time of the request, and nothing else |
| MoneyFlow.MoneyFlowRepository.UpdateActivationStatus | internal/services/money_flow_calc_service.go:809-846 | only a PENDING summary changes its activation, and not into a second active one of its day and payment type |
| MoneyFlow.ActivatedInPlainTerms | internal/services/money_flow_calc_service.go:809-846 | the activation changes if and only if the summary is there, PENDING, and not to be a second active one of its day and payment type |
| MoneyFlow.MoneyFlowRepository.ProcessTransactionStream | internal/services/money_flow_calc_service.go:139-205 | a summary with the event's id gets its status, and the actual date when that is a success; without such a summary or for another kind of payment nothing changes |
| MoneyFlow.StreamedInPlainTerms | internal/services/money_flow_calc_service.go:139-205 | an eligible event gives some summary with its id its status and, for a success, the time; otherwise nothing changes |
| MoneyFlow.TotalsAddUp | internal/repositories/sql_money_flow_calc.go:70-98 | in every run, whatever statuses events write, a summary's total is the sum of the amounts of its detail rows |
| MoneyFlow.OnePendingRetry | internal/services/money_flow_processor.go:213-246 | in every run whose events follow the table of transitions, no two PENDING summaries are linked to the same failure |
| MoneyFlow.LinkedExactlyWhen | internal/services/money_flow_processor.go:149-246 | a new summary is linked to a failure if and only if that is the latest failure of its types, of an earlier day, nothing of these types is in progress, and no PENDING summary of any type is linked to it |
| MoneyFlow.ChainsEnd | internal/services/money_flow_processor.go:213-246 | in every run, whatever statuses events write, the chain of links from any summary ends, each summary in it of an earlier day and the same types |
| MoneyFlow.LastFailureIsUnique | internal/repositories/sql_money_flow_calc.go:140-150 | of the failures that could be linked, one alone has the latest date, so the missing tie-break does not matter |
| MoneyFlow.FinalStatuses | internal/models/money_flow_calc.go:489-531 | over any run whose events follow the table a success and a rejection are final and nothing becomes PENDING again |
| MoneyFlow.SuccessComesFromProgress | internal/models/money_flow_calc.go:498-511 | in every run whose events follow the table, a summary that has become SUCCESSFUL was IN_PROGRESS at some time before |
| MoneyFlow.EventOverridesSuccess | internal/services/money_flow_calc_service.go:172-191 | an event that does not follow the table turns a success into a failure |
| MoneyFlow.PlannedUpdate | internal/models/money_flow_calc.go:489-600 | an accepted request follows the table of transitions, fills in the requested date and the actual date, and changes nothing that identifies the summary |
| MoneyFlow.AFailureIsLinkedAgain | internal/services/money_flow_processor.go:191-246 | after a failure and a successful retry, the next new summary is linked to the same failure again |

## Left out

* Concurrent settlements of one wallet transaction, and concurrent stores under one reference number: the status and the number
  are read without a lock, so the interleaving theorems are about calls that do not settle the same row or share a number. What two
  settlements of one plain transaction do is stated exactly (`LedgerConflicts`).
* The cap of a high-volume receiver: the check reads a stored balance that lags behind the queue, so what is claimed is what the
  check does with the balance it reads.
- LedgerServices.LedgerService.FetchMany: an unknown preset, overriding options and a query without high-volume accounts are not
  modelled; the options of each account come with the configuration.
- LedgerServices.LedgerService.StoreTransaction: of the input validation the amount, the reference number and the two accounts are
  modelled; other fields move no balance.
- LedgerServices.LedgerService.CreateTransactionAtomic: failures of the inserts are one flag, and a transform that fails does so before
  anything is written.
- LedgerServices.LedgerService.CreateTransaction: of the input validation the reserved cash-in is modelled; the asynchronous path only
  puts the request in a queue.
- LedgerServices.LedgerService.ProcessReservedTransaction: a failure after publishing is one flag for the whole loop, because which row
  it strikes makes no difference to what stays behind except how much of the queue has been written.
- Recon.StreamTransactionsToLocalStorage: the storage does not fail.
- Recon.ProcessCSVRow: the storage does not fail, so no row is reported with a storage error.
- Recon.ReconcileRecordsAndGenerateReport: neither the storage nor the writer of the report fails.
- CsvSplit.DownloadV2TransactionFileCSV: sizes are those of the encoded rows; the header each file starts with is not counted, as in
  the code, and files can always be created and written.
- Cursors.CursorRoundTrip: base64 is a pair of functions that undo each other (section 4 of RFC 4648), not spelled out.
- Cursors.WalletCursorRoundTripsExactly: how a time is printed and parsed is given as such a pair.
- MoneyFlow.OnePendingRetry: an event that does not follow the table can write any status, PENDING included, so it is stated for runs
  whose events follow it; so are FinalStatuses and what rests on the same invariant.
- LedgerRuns.DuplicateExactlyWhenStored: reference numbers of child transactions are not in the model, so a number is taken by plain
  stores only.
* The child transactions stored for a settled wallet transaction, and their reference numbers, are not rows of the model; its
  list of children stands for them.
* The rename of accounts in stored child transactions, the entity look-up, presets, notifications and the choice between the old and
  the new balance store.
* `StoreBulkTransaction`: it moves no balances.
* Time zones: money-flow dates are whole days, and truncating a Jakarta midnight to a day in UTC is not modelled.
* Money-flow amounts as floating point, displayed totals across links, lists and downloads of details.
* Account lists (their key is not unique), reconciliation-history lists, and lists filtered after the page is cut.
* Query text and planning, caches, queues, cloud storage, logging, HTTP handling and configuration loading.
