# Proofs about the accounting integration, and a few smaller algorithms

A Dafny model of the parts of the wholesale platform that are hardest to get right: the protocols of
the accounting integration in `apps/api/src/accounting*`, where crashes, retries, other workers and an
external provider can come between any two awaited calls, and four small algorithms elsewhere. Database
rows, Redis keys and the provider's ledger are explicit state. Each awaited call is one atomic step;
clocks, randomness and the answers of other systems are parameters.

`dafny verify dfyconfig.toml` checks everything.

## What is modelled

| File | Subject |
|---|---|
| `InvoiceExport.dfy` | One sales invoice per accepted order: claim the export row, look the invoice up at the provider, create or adopt it, record it. A state machine over any number of attempts, their deaths, and the provider |
| `InvoiceExportProcessor.dfy` | The same attempt as the processor writes it, method by method, each tied to steps of that machine |
| `InvoiceExportSchedule.dfy` | When the row's status and its stale age keep attempts apart |
| `InvoiceExportLimits.dfy` | Where the guarantee ends: racing claims, and a switch to another provider organisation |
| `JobFailure.dfy` | How a failed job is classified and when it is retried |
| `RefreshLock.dfy` | The leased, self-renewing Redis lock around a token refresh |
| `Connections.dfy`, `TokenRefresh.dfy` | Connection rows, and token refreshes by any number of callers whose lock may fail |
| `LockedRefresh.dfy` | The two together: the refreshing calls under the leases they take |
| `ConnectionService.dfy` | `getValidTokenSet` and what it calls as imperative code, verified whatever other processes do between its awaited calls |
| `OAuthConnect.dfy` | OAuth callbacks delivered any number of times, against the trigger-kept marker column whose index allows one connected row per distributor |
| `CallBudget.dfy`, `CallBudgetService.dfy` | The sliding-window script on a Redis sorted set, and the loop that waits for a slot |
| `ContactReview.dfy` | Provider contacts, suggestions and mappings: the computed status, the badge, the actions |
| `ContactRaces.dfy` | The same actions as calls that overlap, their checks and writes apart, with and without either unique index |
| `ContactPaging.dfy` | The contact list's two ways of paging |
| `BulkImport.dfy`, `BulkImportProcessor.dfy` | Importing a selection of contacts, across crashes, stale resumes and repeated ids |
| `InvoiceSync.dfy`, `InvoiceSyncProcessor.dfy` | Merging fetched invoice snapshots into export rows, and the events written with them |
| `InvoiceSyncOverlap.dfy` | Fetches that overlap on one row |
| `AccountSync.dfy` | The cache of sales accounts and the notification that the default one went inactive |
| `RouteAssignment.dfy` | Greedy balancing of customers over delivery routes, on arrays as in the source |
| `StatsdLine.dfy`, `Slug.dfy`, `Text.dfy` | The StatsD line printer with its parser, the slug generator, and the string replacements both use |
| `DeliveryBoard.dfy` | Optimistic edits of the delivery board and the drags they come from |
| `Wrappers.dfy` | `Option` |

## What holds, and what does not

Most of the promises in the comments and decision records hold as stated. Where the code does less, the
code was followed, and a lemma gives the input together with the exact condition under which the promise
holds:

- Never invoiced twice (`accounting-invoice-export.processor.ts:73-83`) holds exactly while no lookup
  that finds nothing overlaps a create pending under another idempotency key. The claim alone does not
  ensure that, being a read and then a blind update (`RacingClaimsDuplicate`); it does where attempts
  keep to the 15 minutes and claims do not race (`PunctualAttemptsNeverInvoiceTwice`). The guarantee is per
  provider organisation, since the lookup asks one organisation (`SwitchedOrganisationDuplicates`,
  `GuardedInExactlyWhen`), and the claim's unique key is (organisation, order), not (connection,
  order) as the comment at line 75 says.
- The 120 s settle delay after an unknown outcome (`accounting-backoff.ts:12-15`) is skipped when the
  provider named a shorter wait (`SettleDelayExactly`).
- One reconnect notification per row (`accounting-connection.service.ts:568-574`) holds exactly while a
  call goes on to refresh a row only when no other call is committed to that row; overlaps with a call
  past its refresh are harmless (`AlertsOnceExactlyWhen`). Leases renewed in time see to that
  (`TimelyLeasesAlertOnce`). The ERROR write overwrites DISCONNECTED exactly when such a call was there
  (`DisconnectLastsExactlyWhen`).
- A newer invoice snapshot is not always kept against a late older one, because `syncedStateChanged`
  leaves out the provider's update time (`LateSnapshotWins`); the `EveryOrder` lemmas say for which
  snapshots it is, whatever the order. Nor is it when `current` is stale, as for a repeated invoice within
  a chunk or fetches that overlap (`SafeScheduleExactlyWhen`, `DuplicatesInAChunkGoBack`).
- The default-account notification is right exactly while changes of the default keep an open pull right
  (`ToldExactlyWhen`, `ChoosingDuringAPullCanBeSilent`).
- A contact can get a second link through `confirmSuggestion`, which does not check the contact, and either
  side can through calls that overlap; only the two unique indexes rule that out (`ContactRaces.dfy`). The
  double click of `accounting-contact.service.ts:300-306` is also stopped by the account number, if the
  contact has one.
- A bulk import that dies between a customer and its mapping can be resumed unless the customer took an
  account number from the contact: every later attempt is then refused that number, and the contact is
  never linked (`ResumingIsHarmlessExactlyWhen`, `NumberedContactIsStranded`).
- A bulk import whose closing notification fails is marked FAILED after it was COMPLETED, and so is run
  again by the retry (`Finalize`). Contacts linked by an attempt that died are reported as skipped by the
  one that finishes. Ignored contacts are imported.
- An optimistic move to a run that is not on the board drops the card, and to a run listed twice doubles
  it (`MoveConservesExactlyWhen`).
- Sanitising a tag value twice can change it (`SanitisedAgain`).

## Model

| member | source | states |
|---|---|---|
| `InvoiceExport.NeverInvoicedTwice` | apps/api/src/accounting-invoice-export/accounting-invoice-export.processor.ts:73-83 | Over every run of attempts for one order (rejections, unanswered creates, failed saves, deaths, lost rows, stale resumes, voided invoices) the provider never holds two live invoices for it, given that no lookup finds nothing while a create is pending under another idempotency key, and that the provider does not forget a pending create's key once the invoice exists |
| `InvoiceExport.LoneAttemptsNeverInvoiceTwice` | apps/api/src/accounting-invoice-export/accounting-invoice-export.processor.ts:384-400 | The same when every lookup that finds nothing happens while no create at all is pending, as when attempts do not overlap and creates settle before the next lookup |
| `InvoiceExport.LoneRunIsGuarded` | apps/api/src/accounting-invoice-export/accounting-invoice-export.processor.ts:178-236 | Runs of non-overlapping attempts satisfy the condition of the main theorem at every step |
| `InvoiceExport.GuardedExactlyWhen` | apps/api/src/accounting-invoice-export/accounting-invoice-export.processor.ts:387-400 | The conditions are exact: from a consistent state a step leaves at most one live invoice through every guarded continuation if and only if it is guarded itself |
| `InvoiceExport.StaysSingleExactlyWhen` | apps/api/src/accounting-invoice-export/accounting-invoice-export.processor.ts:73-83 | In any state, reached or not, every guarded continuation keeps to one live invoice if and only if there is at most one now, pending creates agree on a key and, once the invoice exists, the provider remembers that key |
| `InvoiceExport.UnguardedStepCanDuplicate` | apps/api/src/accounting-invoice-export/accounting-invoice-export.processor.ts:387-400 | After an unguarded step the creates already pending can end in two live invoices though every later step is guarded, no attempt begins and none looks the invoice up |
| `InvoiceExportSchedule.PunctualAttemptsNeverInvoiceTwice` | apps/api/src/accounting-invoice-export/accounting-invoice-export.processor.ts:196-216 | What the in-flight check gives, by the clock: if every attempt and the create it sent are over within 15 minutes of its claim, claims do not race, creates given up on are settled before a retry claims and the row is only lost at rest, the run is guarded and leaves at most one live invoice |
| `InvoiceExportSchedule.SpacedAttemptsNeverInvoiceTwice` | apps/api/src/accounting-invoice-export/accounting-invoice-export.processor.ts:196-216 | The same from what those 15 minutes are for: nothing is under way when a stale row is taken over |
| `InvoiceExport.AdoptedOnceItExists` | apps/api/src/accounting-invoice-export/accounting-invoice-export.processor.ts:387-406 | Once a live invoice exists and no create is pending, no later step of any overlapping attempts changes the ledger while nobody voids it, and every attempt begun since that is handed an invoice is handed that one and completes the row with it |
| `InvoiceExport.CompletedNamesInvoice` | apps/api/src/accounting-invoice-export/accounting-invoice-export.processor.ts:474-488 | In every run a COMPLETED row names an invoice the provider created for the order |
| `InvoiceExport.HandedNeverFails` | apps/api/src/accounting-invoice-export/accounting-invoice-export.processor.ts:401-406 | In every run, overlapping or not, an attempt that was handed an invoice never wrote FAILED |
| `InvoiceExport.HandedNeverWritesFailed` | apps/api/src/accounting-invoice-export/accounting-invoice-export.processor.ts:459-463 | In every reachable state no step of an attempt that was handed an invoice turns the row FAILED, even when saving or releasing fails |
| `InvoiceExport.OnlyItsOwnRow` | apps/api/src/accounting-invoice-export/accounting-invoice-export.processor.ts:221-234 | An attempt whose row was lost and inserted anew by another leaves the new row alone, whatever it does next |
| `InvoiceExport.RunKeepsValid` | apps/api/src/accounting-invoice-export/accounting-invoice-export.processor.ts:238-457 | Every run keeps the row, the ledger and each attempt's position consistent, and never shortens the ledger |
| `InvoiceExportLimits.RacingClaimsDuplicate` | apps/api/src/accounting-invoice-export/accounting-invoice-export.processor.ts:196-234 | The claim is a read and then a blind update: two attempts that both read a FAILED row and carry different requests end in two invoices |
| `InvoiceExportLimits.NeverInvoicedTwiceAnywhere` | apps/api/src/accounting-invoice-export/accounting-invoice-export.processor.ts:154-166 | Across any number of provider organisations, guarded steps whose lookups find nothing in one organisation only while no other one is engaged leave at most one live invoice anywhere |
| `InvoiceExportLimits.GuardedInExactlyWhen` | apps/api/src/accounting-invoice-export/accounting-invoice-export.processor.ts:387-391 | That condition is exact: from consistent books a step leaves one live invoice at most through every guarded continuation if and only if it is guarded across organisations |
| `InvoiceExportLimits.UnguardedInCanDuplicate` | apps/api/src/accounting-invoice-export/accounting-invoice-export.processor.ts:387-391 | After a step that breaks it, guarded steps alone, none of them a start or a lookup, can end in two live invoices in one organisation or in two |
| `InvoiceExportLimits.SwitchedOrganisationDuplicates` | apps/api/src/accounting-invoice-export/accounting-invoice-export.processor.ts:387-391 | Without that condition the guarantee is per organisation only: an unanswered create, then a switch of organisation, ends in one live invoice in each |
| `InvoiceExportProcessor.ExportProcessor.ClaimExport` | apps/api/src/accounting-invoice-export/accounting-invoice-export.processor.ts:178-236 | What claiming answers and leaves for each state of the row: inserted, skipped as completed or in flight, resumed when stale, retried |
| `InvoiceExportProcessor.ExportProcessor.RunExport` | apps/api/src/accounting-invoice-export/accounting-invoice-export.processor.ts:238-457 | Takes the claimed row and the ledger to the state `Exported` describes, and the job is to be run again exactly when the failed call's error is unexpected, transient, or our own call budget putting an unsent call off before the last attempt, or when the provider's invoice could not be saved |
| `InvoiceExportProcessor.ExportProcessor.RecordCompleted` | apps/api/src/accounting-invoice-export/accounting-invoice-export.processor.ts:464-536 | Ends COMPLETED with the invoice, or PENDING, or still PROCESSING, never FAILED |
| `InvoiceExportProcessor.ExportProcessor.Process` | apps/api/src/accounting-invoice-export/accounting-invoice-export.processor.ts:100-172 | One whole attempt, begun whatever other attempts and creates are pending: getting through its checks and lookup it adopts the invoice if one exists, and never leaves FAILED once handed one; an ineligible order is never retried, a permanent error neither, and the row goes back to PENDING exactly when the call budget put it off with attempts left or its claim was given back unsaved; it keeps to one live invoice when earlier attempts are over and settled |
| `InvoiceExportProcessor.ExportProcessor.SettleAbandoned` | apps/api/src/accounting-invoice-export/accounting-invoice-export.processor.ts:77-81 | A create its attempt gave up on, carried out or refused by the provider later, leaves at most one live invoice and none of that attempt's creates pending |
| `InvoiceExportProcessor.ExportProcessor.LoseRecord` | apps/api/src/accounting-invoice-export/accounting-invoice-export.processor.ts:77-81 | Losing the export row, as a restored database does, leaves the ledger and its one invoice alone |
| `JobFailure.SettleDelayExactly` | apps/api/src/accounting/accounting-backoff.ts:12-29 | After a create with unknown outcome the retry waits at least 120 s if and only if the provider named no wait or named at least 120 s |
| `JobFailure.SettleDelaySkipped` | apps/api/src/accounting/accounting-backoff.ts:22-25 | A 503 with Retry-After 5 is retried after 5 s though its outcome is unknown |
| `JobFailure.BackoffNeverShrinks` | apps/api/src/accounting/accounting-backoff.ts:26-28 | Without a named wait, delays start at 30 s and never shrink from attempt to attempt |
| `JobFailure.BackoffDoubles` | apps/api/src/accounting/accounting-backoff.ts:26-28 | An ordinary failure is retried after 30 s the first time and after twice as long each further time |
| `JobFailure.SettleDelayIsAFloor` | apps/api/src/accounting/accounting-backoff.ts:26-28 | An unknown outcome raises exactly those delays that are below 120 s, and to 120 s |
| `JobFailure.NamedWaitHonoured` | apps/api/src/accounting/accounting-backoff.ts:22-25 | A named wait is never undercut and exceeded by less than 5 s |
| `RefreshLock.OverlapMeansLapsed` | apps/api/src/accounting/accounting-refresh-lock.service.ts:104-121 | In every interleaving of acquire, renew, expiry and release, two callers are in their critical sections at once only if the lease of one of them ran out |
| `RefreshLock.EntersOnlyAfterLapse` | apps/api/src/accounting/accounting-refresh-lock.service.ts:107-121 | A caller that enters while another is inside does so only after the earlier one's lease ran out |
| `RefreshLock.LapsedForGood` | apps/api/src/accounting/accounting-refresh-lock.service.ts:27-35 | A lease that ran out is never renewed back |
| `RefreshLock.OnlyTheOwnerTouchesTheKey` | apps/api/src/accounting/accounting-refresh-lock.service.ts:16-35 | A renewal or release by anybody but the owner leaves the key unchanged |
| `RefreshLock.MutualExclusion` | apps/api/src/accounting/accounting-refresh-lock.service.ts:40-62 | While every holder's lease is renewed in time, critical sections never overlap |
| `RefreshLock.UntimelyTickLetsAnotherIn` | apps/api/src/accounting/accounting-refresh-lock.service.ts:104-121 | The moment time passes a holder's lease unrenewed, somebody else can enter |
| `RefreshLock.AccountingRefreshLock.RenewOnTimer` | apps/api/src/accounting/accounting-refresh-lock.service.ts:56-62 | Extends the lease by a full TTL if still owned, otherwise changes nothing |
| `RefreshLock.AccountingRefreshLock.ReleaseLock` | apps/api/src/accounting/accounting-refresh-lock.service.ts:64-74 | Leaves the critical section, stops the timer and deletes the key only if still owned and Redis was reached |
| `RefreshLock.TryAcquire` | apps/api/src/accounting/accounting-refresh-lock.service.ts:107-121 | Hands out a lock exactly when the key was free, Redis was reached and its answer came back |
| `TokenRefresh.CredentialsFormOneChain` | apps/api/src/accounting/accounting-connection.service.ts:517-530 | In every run, with the lock failing freely, the credentials stored in a row form one chain: each was obtained by refreshing exactly the one it replaced |
| `TokenRefresh.ReturnsOnlyCurrent` | apps/api/src/accounting/accounting-connection.service.ts:356-403 | In every run, whenever a call settles on a credential to hand back, it is the one current in a CONNECTED row at that step: read there with over five minutes left, or just stored by this call over the one it refreshed |
| `TokenRefresh.ReplacedForGood` | apps/api/src/accounting/accounting-connection.service.ts:518-530 | A credential that has been replaced never becomes current again, so the compare-and-swap cannot be fooled |
| `TokenRefresh.RefreshReplacesWhatItSpent` | apps/api/src/accounting/accounting-connection.service.ts:517-530 | A refreshed credential is stored, and handed back by its call, exactly when the one it was refreshed from is still current; won or lost, the credential that was spent is not current at any later moment of any run |
| `TokenRefresh.ReadingDecides` | apps/api/src/accounting/accounting-connection.service.ts:358-389 | What a call makes of the row it reads: no connection exactly for a DISCONNECTED one, reconnect needed exactly for ERROR or REVOKED, the lock exactly for a CONNECTED one with at most five minutes left |
| `TokenRefresh.AloneItRefreshes` | apps/api/src/accounting/accounting-connection.service.ts:356-566 | From every state with such a row, a call that gets the lock and the provider's answer, with nothing in between, leaves the refreshed credential in the row and hands it back |
| `TokenRefresh.LosingWriter` | apps/api/src/accounting/accounting-connection.service.ts:532-554 | A writer whose compare-and-swap fails changes nothing, and returns only the credential currently stored in a CONNECTED row with over five minutes left, or a transient error |
| `TokenRefresh.NeverReconnects` | apps/api/src/accounting/accounting-connection.service.ts:504-530 | A row that has left CONNECTED never returns to it |
| `TokenRefresh.AlertsAtMostOnce` | apps/api/src/accounting/accounting-connection.service.ts:441-461 | However the lock behaves, each row produces at most one reconnect notification in every run where a call goes on to refresh a re-read row only while no other call is committed to that row |
| `TokenRefresh.ExclusiveRunIsGuarded` | apps/api/src/accounting/accounting-connection.service.ts:366-403 | Runs whose critical sections do not overlap meet that guard at every step |
| `TokenRefresh.AlertsOnceExactlyWhen` | apps/api/src/accounting/accounting-connection.service.ts:568-574 | The guard is exact: after a guarded run, a step leaves every guarded continuation with at most one notification for each row if and only if the step is guarded |
| `TokenRefresh.UnguardedRereadCanAlertTwice` | apps/api/src/accounting/accounting-connection.service.ts:568-574 | In every state reached from the start, a step that breaks it can be continued, by guarded steps of calls already under way alone, to two notifications for the very row it re-read |
| `LockedRefresh.TimelyLeasesAlertOnce` | apps/api/src/accounting/accounting-connection.service.ts:391-403 | Calls and lock composed: while leases are renewed before they run out, whatever commands or answers Redis loses and wherever processes stop, critical sections never overlap and no row is notified twice |
| `LockedRefresh.StepStaysLocked` | apps/api/src/accounting/accounting-refresh-lock.service.ts:104-121 | Every step of that composition keeps each call in a critical section among the holders of its key, with the lease running, and alone in it |
| `TokenRefresh.ErrorRowsAreNotRefreshed` | apps/api/src/accounting/accounting-connection.service.ts:426-431 | In guarded runs no call is refreshing a row in ERROR |
| `TokenRefresh.DisconnectLastsExactlyWhen` | apps/api/src/accounting/accounting-connection.service.ts:504-513 | The ERROR write is blind: in every reachable state, a row disconnected now stays DISCONNECTED through every continuation if and only if no call is committed to it |
| `ConnectionService.RunsKeepRely` | apps/api/src/accounting/accounting-connection.service.ts:356-566 | Whatever other callers, callbacks and disconnects do in a run is covered by the condition the imperative service is verified under |
| `ConnectionService.AccountingConnectionService.SwapCredential` | apps/api/src/accounting/accounting-connection.service.ts:523-530 | The conditional write takes effect exactly when the row is CONNECTED with the expected ciphertext, and appends to its chain; otherwise nothing changes |
| `ConnectionService.AccountingConnectionService.StoreRefreshed` | apps/api/src/accounting/accounting-connection.service.ts:517-554 | Encrypts and conditionally writes what the provider handed over: its new credential is returned exactly when this call stored it, and in either case the credential spent at the provider is not left in a CONNECTED row, whatever others do meanwhile |
| `ConnectionService.AccountingConnectionService.PerformRefresh` | apps/api/src/accounting/accounting-connection.service.ts:465-566 | Once the provider has refreshed, the spent credential is not left in place: either this call's new one, minted in this call, is stored over it and returned, or a lost write leaves the row alone and returns somebody else's usable credential or a transient error; a permanent refusal marks the row ERROR, and there is no other write |
| `ConnectionService.AccountingConnectionService.RefreshHoldingLock` | apps/api/src/accounting/accounting-connection.service.ts:413-463 | Asks the provider exactly when the row re-read under the lock is CONNECTED with at most five minutes left; retries exactly if it is not CONNECTED, else hands it back; what was refreshed is stored as `PerformRefresh` says, and it writes nothing else |
| `ConnectionService.AccountingConnectionService.GetValidTokenSet` | apps/api/src/accounting/accounting-connection.service.ts:356-403 | A token handed back was stored by a connection of the same distributor: this call's own refresh, minted from the credential it spent, or one with over five minutes left when read; a spent credential is never left in place; a transient error means that a refresh was asked for under the lock or that the lock was still taken at the deadline; it writes at most once and never sleeps more than 46 times |
| `OAuthConnect.ExchangedAtMostOnce` | apps/api/src/accounting/accounting-connection.service.ts:218-243 | However often and concurrently a callback is delivered, each state leads to at most one code exchange |
| `OAuthConnect.ExchangesOnlyUnexpired` | apps/api/src/accounting/accounting-connection.service.ts:222-243 | In every run, a delivery that exchanged a code did so for a state whose row it deleted itself, at an instant that row had not expired, and with a code |
| `OAuthConnect.ExchangesExactlyWhen` | apps/api/src/accounting/accounting-connection.service.ts:222-234 | Deleting its state, a delivery goes on to the exchange if and only if the row is still there, has not expired and came with a code; otherwise it is rejected, and the state is used up in either case |
| `OAuthConnect.RowsComeFromExchanges` | apps/api/src/accounting/accounting-connection.service.ts:222-319 | In every run, every connection row belongs to a distributor one of whose states was deleted in time, with a code the provider exchanged |
| `OAuthConnect.FailedExchangeWritesNothing` | apps/api/src/accounting/accounting-connection.service.ts:240-255 | An exchange the provider refuses writes no connection row, and no later step of that delivery does anything |
| `OAuthConnect.UncontendedCallbackConnects` | apps/api/src/accounting/accounting-connection.service.ts:209-319 | A callback delivered in time with a code, exchanged, and with nothing in between, ends in the one live connection of its state's distributor |
| `OAuthConnect.UsedStateIsRejected` | apps/api/src/accounting/accounting-connection.service.ts:218-224 | A delivery that has not consumed its state when another already has is rejected without effect |
| `OAuthConnect.RunKeepsMarks` | apps/api/prisma/migrations/20260723202742_add_active_marker_triggers/migration.sql:17-27 | Through every write of callbacks, disconnects and refreshes the trigger keeps the marker to the row's status and the unique index keeps markers apart |
| `OAuthConnect.AtMostOneConnected` | apps/api/prisma/schema.prisma:1036-1070 | So after any interleaving a distributor has at most one CONNECTED row, derived from the marker column and its index on the written row alone |
| `OAuthConnect.OnlyConnectsCollide` | apps/api/prisma/migrations/20260723202742_add_active_marker_triggers/migration.sql:17-27 | The index never refuses a disconnect, a refresh or an ERROR write: only a second connect |
| `OAuthConnect.CommitsExactlyWhen` | apps/api/src/accounting/accounting-connection.service.ts:298-319 | A connect commits if and only if every CONNECTED row of the distributor was among those it retired |
| `OAuthConnect.CommitLeavesOnlyTheNewRow` | apps/api/src/accounting/accounting-connection.service.ts:298-319 | An uncontended connect leaves the new row as the only CONNECTED or ERROR row of the distributor, and other distributors alone |
| `CallBudget.RollingWindow` | apps/api/src/accounting/accounting-call-budget.service.ts:19-35 | For every limit of at least 1 and every non-decreasing clock, no half-open window of 60,000 ms holds more admitted calls than the limit, whoever runs the script |
| `CallBudget.ExpiryDropsOnlyTheOld` | apps/api/src/accounting/accounting-call-budget.service.ts:27-30 | PEXPIRE on the key never removes a member the script would still count |
| `CallBudget.CountsTheRecentCalls` | apps/api/src/accounting/accounting-call-budget.service.ts:27-28 | What the script counts is exactly the admitted calls of the last 60 s |
| `CallBudget.WaitIsExact` | apps/api/src/accounting/accounting-call-budget.service.ts:33-34 | A denied call's wait is at least 1 ms; at every earlier instant the call is denied, and at that instant it is admitted |
| `CallBudget.DeniedUntilOldestAges` | apps/api/src/accounting/accounting-call-budget.service.ts:28-34 | A full key denies every call until its oldest member ages out |
| `CallBudget.NoBudgetFailsOpen` | apps/api/src/accounting/accounting-call-budget.service.ts:33-34 | With a limit of 0 or less the script fails on the empty set, which acquire treats as admitted |
| `CallBudgetService.BudgetKey.RunScript` | apps/api/src/accounting/accounting-call-budget.service.ts:23-35 | The script's commands compute `Acquire` on the key |
| `CallBudgetService.AcquireCall` | apps/api/src/accounting/accounting-call-budget.service.ts:61-90 | The waiting loop always ends, having slept at most 20,249 ms by its own count and never less than the wait it was told; it goes ahead unbudgeted exactly if Redis fails it on its last pass, is otherwise admitted, when exactly one more call on record is its own, or throws exhaustion with the exact wait, and only when that would pass the maximum |
| `ContactPaging.SamePages` | apps/api/src/accounting/accounting-contact.service.ts:118-146 | The page sliced in memory equals the keyset page for the same descending rows, every cursor and every limit of at least 1 |
| `ContactPaging.ListIsKeysetOfMatches` | apps/api/src/accounting/accounting-contact.service.ts:82-146 | With or without a status filter, the list answers with the keyset page of its matching rows, in order |
| `ContactPaging.WalkShowsEverything` | apps/api/src/accounting/accounting-contact.service.ts:139-146 | Following nextCursor from the first page ends and shows every matching row exactly once, in (createdAt, id) descending order |
| `ContactPaging.NothingRepeats` | apps/api/src/accounting/accounting-contact.service.ts:118-126 | When rows come and go between requests, what is shown keeps strictly descending: no row is shown twice |
| `ContactPaging.PresentIsNotSkipped` | apps/api/src/accounting/accounting-contact.service.ts:151-182 | A row matching at every request is shown if and only if it does not still lie past the cursor left to follow, so a finished traversal never skips it |
| `ContactReview.BadgeMatchesTheList` | apps/api/src/accounting/accounting-contact.service.ts:186-213 | The two aggregate counts together are the number of rows the list shows as SUGGESTED, CONFLICT or READY_TO_IMPORT, whatever the conflict set |
| `ContactReview.ConflictMeansShared` | apps/api/src/accounting/accounting-contact.service.ts:509-533 | A row is in CONFLICT if and only if it is unlinked and the customer of its first pending suggestion is pending for another row too |
| `ContactRaces.KeepsOneLinkExactlyWhen` | apps/api/src/accounting/accounting-contact.service.ts:295-463 | Check and write apart: from any state, the calls under way keep a side to one link through every interleaving, with any unlinking and creation meanwhile, if and only if it has one now and no call clashes with a link or another call; for each combination of the two indexes |
| `ContactRaces.IndexKeepsOneLink` | apps/api/prisma/schema.prisma:1216-1217 | With its unique index a side keeps one link over every run of overlapping imports, confirmations and matches, whatever the other index does; with both, both sides do |
| `ContactRaces.GuardedRunKeepsOneLink` | apps/api/src/accounting/accounting-contact.service.ts:298-371 | Without an index a side keeps one link in every run where calls start only clear of the links there are and of the calls under way |
| `ContactRaces.UnguardedStartCanGiveTwo` | apps/api/src/accounting/accounting-contact.service.ts:298-371 | That guard is exact: after a start that breaks it the calls under way can come to two links with no further start |
| `ContactRaces.WriteGivesSecondExactlyWhen` | apps/api/src/accounting/accounting-contact.service.ts:450-463 | A single write gives its contact, or its customer, a second link exactly when neither index refuses it |
| `ContactRaces.DoubleClickExactlyWhen` | apps/api/src/accounting/accounting-contact.service.ts:300-306 | Two imports of one contact at once can both link it exactly when the contact-side index is missing and the customer to be created has a name and no account number |
| `ContactRaces.AloneIsTheAction` | apps/api/src/accounting/accounting-contact.service.ts:295-404 | Without overlap the steps of an import, a confirmation or a match come to the action taken at once |
| `ContactReview.ConfirmingAfterImportNeedsTheIndex` | apps/api/src/accounting/accounting-contact.service.ts:340-366 | Importing a contact leaves its suggestion pending; confirming that afterwards, with no overlap at all, keeps one link per contact if and only if the index is there |
| `ContactReview.StatusAfter` | apps/api/src/accounting/accounting-contact.service.ts:521-537 | After a successful import the row shows as LINKED; after a dismissal as IGNORED unless it is linked |
| `ContactReview.DetailsInOrder` | apps/api/src/accounting/accounting-contact.service.ts:295-315 | A customer is created with the admin's account number, else the contact's code, else its account number |
| `ContactReview.AccountingContactService.Begin` | apps/api/src/admin-customers/admin-customers.service.ts:199-232 | The first half of an import: a customer is created exactly when the contact is there and unlinked, its name is not blank and no customer holds its account number; a death after it leaves that customer and nothing else |
| `ContactReview.AccountingContactService.Import` | apps/api/src/accounting/accounting-contact.service.ts:295-338 | importAsNewCustomer: exactly then the contact gets one link, to a customer of its own; otherwise nothing changes |
| `ContactReview.AccountingContactService.Confirm` | apps/api/src/accounting/accounting-contact.service.ts:340-366 | Done exactly for a pending suggestion whose customer is free; then contact and customer are linked and that suggestion alone is closed, otherwise nothing changes. One link per customer is kept, one per contact exactly when the contact had none or the index is there |
| `ContactReview.AccountingContactService.Match` | apps/api/src/accounting/accounting-contact.service.ts:368-404 | Done exactly for a contact and a customer that are there and both unlinked; then that link is added and every pending suggestion of the contact, and no other, is superseded. One link per side is kept |
| `ContactReview.AccountingContactService.Dismiss` | apps/api/src/accounting/accounting-contact.service.ts:406-421 | The contact shows as IGNORED unless it is linked, its pending suggestions and no others are rejected, and no link or other contact changes |
| `ContactReview.AccountingContactService.Detach` | apps/api/src/accounting/accounting-contact.service.ts:423-439 | Closes that one mapping, after which its customer, and where links were single its contact, has none; every other mapping is as it was |
| `BulkImport.ProcessOneLinksOnce` | apps/api/src/accounting-bulk-import/accounting-bulk-import.processor.ts:204-241 | An item is reported imported or matched if and only if it gave an unlinked contact its one link; otherwise, a refused creation included, it changed nothing |
| `BulkImport.ResumingIsHarmlessExactlyWhen` | apps/api/src/accounting-bulk-import/accounting-bulk-import.processor.ts:66-89 | However many attempts died and wherever, the one that finishes leaves one link per contact and customer; it leaves the links one uninterrupted attempt would have left if and only if no death left an unmapped customer holding its contact's account number |
| `BulkImport.StrandedStaysUnlinked` | apps/api/src/admin-customers/admin-customers.service.ts:223-232 | Where one did, that contact is refused by every later attempt, for its number is in use, and is never linked |
| `BulkImport.NumberedContactIsStranded` | apps/api/src/accounting/accounting-contact.service.ts:307-312 | One contact with a code and one death after its customer is created: the resumed attempt reports it failed, where an uninterrupted one imports it |
| `BulkImport.OneResultPerId` | apps/api/src/accounting-bulk-import/accounting-bulk-import.processor.ts:80-89 | Exactly one result per selected id, in selection order, repeated ids included |
| `BulkImport.CountsSum` | apps/api/src/accounting-bulk-import/accounting-bulk-import.processor.ts:38-45 | The four counts always add up to the number of results |
| `BulkImport.CountIsOfIndexes` | apps/api/src/accounting-bulk-import/accounting-bulk-import.processor.ts:38-45 | Each count is the number of results with that outcome |
| `BulkImport.StaleConflictsAreHarmless` | apps/api/src/accounting-bulk-import/accounting-bulk-import.processor.ts:71-74 | The conflict set, fetched once, has no effect on what happens to an item |
| `BulkImport.OutcomeExactlyWhen` | apps/api/src/accounting-bulk-import/accounting-bulk-import.processor.ts:204-241 | Exactly when an item is imported, matched or failed, in terms of its row, its link, its first pending suggestion and the account numbers in use: an ignored contact is imported, archived ones and suppliers are not unless suggested, and an import fails for a blank name or a number another customer holds |
| `BulkImportProcessor.TalliedAddsUp` | apps/api/src/accounting-bulk-import/accounting-bulk-import.processor.ts:247-252 | Every row written holds for each outcome the number of results with it, and the four add up to the results reported so far |
| `BulkImportProcessor.AccountingBulkImportProcessor.Claim` | apps/api/src/accounting-bulk-import/accounting-bulk-import.processor.ts:116-140 | Claims exactly a job that exists, is not COMPLETED and, if PROCESSING, has gone five minutes unwritten |
| `BulkImportProcessor.AccountingBulkImportProcessor.ProcessOneContact` | apps/api/src/accounting-bulk-import/accounting-bulk-import.processor.ts:204-241 | Decides and acts on the contact's current row as `ProcessOne` says, refusals of the customer's creation included |
| `BulkImportProcessor.AccountingBulkImportProcessor.Process` | apps/api/src/accounting-bulk-import/accounting-bulk-import.processor.ts:66-111 | One delivery: a finished row holds every result and its counts, a died one a prefix reaching at least to the last full 25; a live attempt never leaves the row unwritten for longer than 5 s plus resolving and one item |
| `BulkImportProcessor.AccountingBulkImportProcessor.Finalize` | apps/api/src/accounting-bulk-import/accounting-bulk-import.processor.ts:254-277 | The row is completed with all results, and marked FAILED over that when the closing notification fails |
| `BulkImportProcessor.AccountingBulkImportProcessor.ProcessDeliveries` | apps/api/src/accounting-bulk-import/accounting-bulk-import.processor.ts:116-140 | Over any deliveries one after another no contact gains a second link, the counts are always those of the results, and a COMPLETED job is never worked on again |
| `InvoiceSync.GoesBackExactlyWhen` | apps/api/src/accounting-invoice-sync/accounting-invoice-sync.processor.ts:133-141 | A merge moves a row back in time exactly when it writes a snapshot older than the row re-read under the lock, and never when the row read is still current |
| `InvoiceSync.TimeNeverGoesBack` | apps/api/src/accounting-invoice-sync/accounting-invoice-sync.processor.ts:133-141 | Any sequence of timed snapshots, in any order, leaves the row's provider time no earlier |
| `InvoiceSyncOverlap.SafeScheduleExactlyWhen` | apps/api/src/accounting-invoice-sync/accounting-invoice-sync.processor.ts:114-141 | A schedule of overlapping fetches, each reading the row with its chunk and writing it later, never moves the row back in time, whatever timed snapshots it delivers, if and only if no fetch writes on a read that a write has come after, its own earlier record included |
| `InvoiceSyncOverlap.NeverGoesBackExactlyWhen` | apps/api/src/accounting/invoice-payment-state.service.ts:117-130 | A run of overlapping fetches never moves the row back if and only if none of its steps writes a snapshot older than the row re-read |
| `InvoiceSync.InOrderConverges` | apps/api/src/accounting-invoice-sync/accounting-invoice-sync.processor.ts:133-143 | Snapshots arriving in order leave the row with the newest facts and number |
| `InvoiceSync.LateSnapshotWins` | apps/api/src/accounting/invoice-payment-state.service.ts:55-68 | Snapshots t, t+2 repeating it, then t+1: the row ends with the facts of t+1, because the comparison leaves out the provider time |
| `InvoiceSync.EveryOrderEndsAtNewestExactlyWhen` | apps/api/src/accounting/invoice-payment-state.service.ts:54-68 | From any row older than the newest snapshot, synced before or not, with or without the number stored when the invoice was created, snapshots whose newest is delivered once leave its facts and time in every order if and only if it changes that row and no other hides it: one with the same facts, where the newest has no number, or that one carries its number, or, carrying none, comes when the row or a snapshot no later has it. Any numbers, blank ones included |
| `InvoiceSync.EveryOrderEndsWithNewestFactsExactlyWhen` | apps/api/src/accounting/invoice-payment-state.service.ts:54-68 | From any row older than the newest snapshot, for an invoice with one number, which the row and the snapshots of distinct times carry or leave out, every order leaves the newest facts if and only if the invoice did not come back to them: reported or on the row, then others reported, with the number known by then or carried by no report of them after the others |
| `InvoiceSync.EveryOrderKeepsTheNumberExactlyWhen` | apps/api/src/accounting/invoice-payment-state.service.ts:65-66 | From any row older than the newest snapshot, the invoice number is there after every order if and only if the row or the newest snapshot carries it, or the newest says nothing new to the row and whatever can be written to it first brings the number |
| `InvoiceSync.AnyOrderConverges` | apps/api/src/accounting-invoice-sync/accounting-invoice-sync.processor.ts:133-143 | From any row older than the newest snapshot, any two deliveries of the same snapshots, repeated and in any order, end with the facts and time of the newest where it changes that row and no other hides it, whatever numbers they carry |
| `InvoiceSync.StatusByWhatIsDue` | apps/api/src/accounting/invoice-payment-status.ts:10-53 | Where the amounts add up, an invoice awaiting payment is paid, part paid or unpaid exactly by what is due of it, one of no amount stays unpaid, and a draft is never paid |
| `InvoiceSync.StatusExactlyWhen` | apps/api/src/accounting/invoice-payment-status.ts:41-53 | Exactly when an invoice is not synced, void, paid, part paid or unpaid, over its state and amounts, whether or not they add up |
| `InvoiceSyncProcessor.AnyChunking` | apps/api/src/accounting-invoice-sync/accounting-invoice-sync.processor.ts:114-126 | With one record per invoice in a fetch, the result is that of applying record after record, for every chunk size |
| `InvoiceSyncProcessor.DuplicatesInAChunkGoBack` | apps/api/src/accounting-invoice-sync/accounting-invoice-sync.processor.ts:116-125 | Two records of one invoice in one chunk can end with the older one; in two chunks they cannot |
| `InvoiceSyncProcessor.FetchesMergePerInvoice` | apps/api/src/accounting-invoice-sync/accounting-invoice-sync.processor.ts:105-172 | Over any fetches each row is the merge of its own snapshots in the order fetched |
| `InvoiceSyncProcessor.ApplyAllTells` | apps/api/src/accounting/invoice-payment-state.service.ts:158-197 | The outbox alone tells every row's payment status and balance, its events chain from status to status and none repeats what was known, and the count of status changes is that of the status events |
| `InvoiceSyncProcessor.MatchedCountsOurs` | apps/api/src/accounting-invoice-sync/accounting-invoice-sync.processor.ts:100-128 | However a fetch is chunked, `matched` is the number of its records of invoices that are ours, repeats included |
| `InvoiceSyncProcessor.AccountingInvoiceSyncProcessor.Apply` | apps/api/src/accounting/invoice-payment-state.service.ts:117-197 | Writes the row re-read under the lock exactly when both the row read and the row re-read differ from the snapshot, and an event exactly when that changes the status or the balance; the event announces VOID exactly for a voided or deleted invoice and PAID exactly for a paid one |
| `InvoiceSyncProcessor.AccountingInvoiceSyncProcessor.ApplyStatuses` | apps/api/src/accounting-invoice-sync/accounting-invoice-sync.processor.ts:105-172 | The nested loops leave the rows, outbox and three counters of `ApplyAll` in chunks of 500; `matched` is the number of records that are ours and `updated` the number of writes |
| `AccountSync.ActiveAreThoseReported` | apps/api/src/accounting-account-sync/accounting-account-sync.processor.ts:61-86 | After a committed pull the active accounts are exactly those the fetch's last report calls active, and no row is lost |
| `AccountSync.PulledAsReported` | apps/api/src/accounting-account-sync/accounting-account-sync.processor.ts:61-86 | A pull leaves an account exactly as its last report has it, and an unreported one with the details it had, inactive |
| `AccountSync.OneReportIsTheLast` | apps/api/src/accounting-account-sync/accounting-account-sync.processor.ts:61-80 | For a fetch that lists an account once, its last report is that one |
| `AccountSync.NotifiedOncePerFall` | apps/api/src/accounting-account-sync/accounting-account-sync.processor.ts:52-90 | Over any pulls, rollbacks, retries and default changes, of which none is unguarded, there is one notification for every committed pull that took the default from active to inactive, and no inactive default is left untold |
| `AccountSync.ToldExactlyWhen` | apps/api/src/accounting/accounting-connection.service.ts:77-100 | The guard on default changes is exact: from any state where all is right, a step leaves every guarded continuation with a notification for every fall and no inactive default untold if and only if it is guarded |
| `AccountSync.UnguardedChangeCanMisjudge` | apps/api/src/accounting/accounting-connection.service.ts:77-100 | After a change that breaks it an inactive default is untold, or the open pull only has to end for a notification too many or too few |
| `AccountSync.CommitMisjudgesExactlyWhen` | apps/api/src/accounting-account-sync/accounting-account-sync.processor.ts:57-90 | What a pull tells, with the default changed between its first read, its second look and its commit: it notifies without a fall, or misses one, exactly as stated of the three |
| `AccountSync.ChoosingDuringAPullCanBeSilent` | apps/api/src/accounting/accounting-connection.service.ts:77-100 | A default checked and written while a pull that drops it is open goes inactive with no notification |
| `AccountSync.AccountingAccountSyncProcessor.Pull` | apps/api/src/accounting-account-sync/accounting-account-sync.processor.ts:48-94 | The upsert loop and the deactivation leave the cache `Pulled` describes or, rolled back, the old one, with exact counts and the notification exactly on a fall |
| `RouteAssignment.AssignRoutes` | apps/api/scripts/seed-demo-dashboards.ts:147-174 | Places every roster customer once, keeps existing places, gives each addition exactly the position after the highest on its route by then, and, everyone starting on at most one route, no assignment extending the start has a smaller largest route |
| `RouteAssignment.LargestIsLeast` | apps/api/scripts/seed-demo-dashboards.ts:165-171 | No other way of placing the same customers keeps every route below the size of any route the greedy choice ends with |
| `RouteAssignment.BalancedStep` | apps/api/scripts/seed-demo-dashboards.ts:167-169 | Adding to a smallest route keeps every route that grew within one of all the others |
| `RouteAssignment.CountExisting` | apps/api/scripts/seed-demo-dashboards.ts:156-162 | Finds who is placed already, how long each route is and its highest position, customers off the roster included |
| `RouteAssignment.PlaceOne` | apps/api/scripts/seed-demo-dashboards.ts:167-169 | Picks the first of the shortest routes and the next free position on it |
| `StatsdLine.ParseUndoesFormat` | packages/nest-telemetry/src/metrics.service.ts:98-106 | Splitting the printed line on `:`, the bar, `,` and `=` recovers exactly the sanitised name, the sanitised tags in order, the number and the type |
| `StatsdLine.OneLine` | packages/nest-telemetry/src/metrics.service.ts:98-106 | Whatever it is given, the printed line holds no line break |
| `StatsdLine.NumberIsCanonical` | packages/nest-telemetry/src/metrics.service.ts:105 | The number is printed with a sign exactly when negative and without a leading zero |
| `StatsdLine.AllTagsAreTheirs` | packages/nest-telemetry/src/metrics.service.ts:101-104 | The printed tags are the caller's and no others, but for an environment, first: theirs if they give one, else the ambient one |
| `StatsdLine.NameIsPlain` | packages/nest-telemetry/src/metrics.service.ts:109-112 | Character by character: letters, digits and underscores among the first 64 stay and anything else, a dot too, becomes an underscore; an empty name becomes one underscore |
| `StatsdLine.ValueIsTidy` | packages/nest-telemetry/src/metrics.service.ts:114-129 | A sanitised tag value has 1 to 64 allowed characters, no space, no leading underscore and no two underscores together |
| `StatsdLine.SanitisedAgain` | packages/nest-telemetry/src/metrics.service.ts:120-129 | Sanitising a sanitised value again changes it exactly when the cut at 64 left an underscore at its end |
| `StatsdLine.ValueStaysExactlyWhen` | packages/nest-telemetry/src/metrics.service.ts:120-129 | A value is written as given if and only if it is 1 to 64 letters, digits, dots, hyphens and underscores, the underscores single and inside |
| `StatsdLine.ValueSpellsTheTag` | packages/nest-telemetry/src/metrics.service.ts:120-129 | A sanitised value spells the letters, digits, dots and hyphens of the value given, all of them or as many as fit before the cut at 64, and says "unknown" exactly when there are none |
| `Slug.SuggestionIsASlug` | apps/admin/src/lib/slug.ts:5-16 | Every suggestion is empty or at most 60 characters matching SLUG_PATTERN, for any folding |
| `Slug.SuggestsItselfExactlyWhen` | apps/admin/src/lib/slug.ts:5-16 | The names that suggest themselves are exactly the empty one and the slugs of at most 60 characters |
| `Slug.SuggestingIsIdempotent` | apps/admin/src/lib/slug.ts:5-14 | Suggesting from a suggestion changes nothing (NFKD as in UAX #15) |
| `Slug.SuggestionSpellsTheName` | apps/admin/src/lib/slug.ts:6-13 | The letters and digits of a suggestion are a prefix of those of the folded name, all of them if it fits; it is empty exactly when there are none |
| `Slug.MarksDoNotShow` | apps/admin/src/lib/slug.ts:6-13 | With or without a combining mark in the folded name the suggestion is the same |
| `Slug.PatternIsWellFormed` | apps/admin/src/lib/slug.ts:16 | The pattern matches exactly the non-empty strings of alphanumerics and single inner hyphens |
| `DeliveryBoard.DragsConserve` | apps/admin/src/lib/resolve-drag-end.ts:21-54 | Every sequence of drags over columns that are on the board once conserves its cards, each order staying in exactly one column |
| `DeliveryBoard.MoveConservesExactlyWhen` | apps/admin/src/lib/optimistic-board-update.ts:36-53 | A move keeps every card if and only if the order is not on the board, or goes to the unassigned column or to a run that is on the board exactly once |
| `DeliveryBoard.MoveAppends` | apps/admin/src/lib/optimistic-board-update.ts:36-53 | Where orders are on the board once, a move leaves every column its old cards without the order, in their order, and puts the order's card last in the target |
| `DeliveryBoard.DropOnAnotherColumn` | apps/admin/src/lib/resolve-drag-end.ts:32-39 | Dropped on another column or over a card of it, the card leaves the one it is in and goes last in that column; all others keep their place |
| `DeliveryBoard.DropOverACard` | apps/admin/src/lib/resolve-drag-end.ts:43-53 | Dropped over another card of its own run, the card takes that card's place, the others of the run keep their order and nothing else changes |
| `DeliveryBoard.DropDoesNothingExactlyWhen` | apps/admin/src/lib/resolve-drag-end.ts:21-51 | A drop does nothing if and only if it is over nothing, or stays in its column without being over another card of the same run |
| `DeliveryBoard.ReorderMovesWithinRun` | apps/admin/src/lib/optimistic-board-update.ts:57-67 | A reorder from a drag moves one card within its run to the index asked for and touches no other run |
| `DeliveryBoard.ArrayMovePlaces` | apps/admin/src/lib/resolve-drag-end.ts:49-53 | The moved element ends at the new index and the others keep their order |
| `DeliveryBoard.FindTakesOne` | apps/admin/src/lib/optimistic-board-update.ts:3-27 | Where orders are on the board once, removing one takes exactly its card, wherever it was |
| `DeliveryBoard.FindAndRemoveCard` | apps/admin/src/lib/optimistic-board-update.ts:3-27 | The loop over the columns, with the card assigned from inside the callbacks, computes `FindAndRemove` |

## Left out

- `InvoiceExport`: the provider's lookup by reference is taken to be complete; it finds the order's invoice whenever a live one is on the ledger.
- `InvoiceExport`: how the invoice request is assembled (lines, tax codes, accounts, dates) is one abstract value; two requests have the same idempotency key exactly when they are equal, SHA-256 being taken as collision-free.
- `InvoiceExport`: one order, one provider; the row's error fields, outbox events, audit rows and notifications of an export are not modelled.
- `InvoiceExportProcessor.ExportProcessor.Process`: no other attempt's step comes between its own; attempts whose steps interleave are the subject of `InvoiceExport`.
- `TokenRefresh`: a distributor's connections all belong to one provider; encryption is a ciphertext nobody has seen before; an `invalid_client` refusal is a permanent one like any other, and mail is not modelled.
- `ConnectionService.AccountingConnectionService.GetValidTokenSet`: time only passes by the amounts given for each pass; a caller stuck in one awaited call is not modelled.
- `OAuthConnect`: the organisation upsert, and the provider's list of organisations, of which the source takes the first.
- `CallBudget`: the number of calls in one instant is not limited by the name of a sorted-set member, which a random UUID makes unique. Calls let through on a Redis error are outside the bound, as they are in the source.
- `ContactPaging`: ids are integers; the database's collation and JavaScript's string comparison are taken to order them alike. The cursor's base64url JSON is its key; JSON that decodes without a valid date, which the two paths treat differently, is not modelled.
- `ContactReview`: searching and filtering by type; customers deleted, renumbered or joined to an existing organisation; of a new customer's fields only its name being blank and its account number. An empty account number counts as a number, which the index on active numbers treats alike.
- `ContactReview.AccountingContactService.Import`: each method is one step; steps of other calls in between are the subject of `ContactRaces`.
- `ContactRaces.KeepsOneLinkExactlyWhen`: a transaction's writes take effect together at its insert, after the reads before it; reading a contact or customer and checking the contact's link are one step, for rows do not vanish.
- `BulkImport.ResumingIsHarmlessExactlyWhen`: speaks of a fixed selection of ids and of attempts with nobody else at work; a filter is resolved anew by each attempt. Failures of the database inside one item are not modelled.
- `BulkImport`: products, whose import mirrors that of contacts; the job's connection having changed; two workers on one job, which the claim, a read and then an update, does not rule out.
- `InvoiceSync.EveryOrderEndsWithNewestFactsExactlyWhen`: asks that the row and the snapshots carry one number or none, as those of one invoice do; an invoice renumbered in between is covered by `EveryOrderEndsAtNewestExactlyWhen` only.
- `InvoiceExportSchedule.PunctualAttemptsNeverInvoiceTwice`: takes it from the schedule that a create given up on is settled before the retry claims, which the delay of `JobFailure.SettleDelayExactly` is for.
- `LockedRefresh.TimelyLeasesAlertOnce`: when the renewal timer fires is left open; what it has to achieve is the condition.
- `InvoiceSync`: a row as new as the newest snapshot, or newer, is not where the `EveryOrder` lemmas start; older snapshots leave it as it is. Amounts are whole minor units, so the rounding to two decimals in `sameAmount` is the identity; `occurredAt` of an event, the audit row and the order's completion.
- `AccountSync`: provider, timestamps and who is notified; pulls of one connection that overlap, which the claim of its run row keeps apart while its heartbeat is fresh.
- `RouteAssignment.AssignRoutes`: takes at least one route, as its only caller does; customers and routes stand for their ids.
- `StatsdLine`: numbers of magnitude 1e21 or more, which JavaScript prints with an exponent; the order JavaScript gives to keys that look like integers; `char` stands for a UTF-16 code unit, surrogates being characters like any other that is not allowed.
- `Slug`: lower-casing and NFKD are a parameter that leaves lower-case ASCII letters, digits and hyphens alone.
- `DeliveryBoard`: `stopCount` and `itemCount`, which `applyMove` does not update; `applyRunUpdate`, which leaves cards alone (its comment mentions `readyAt`, which the code does not set); column ids other than `unassigned` and `run:` with an id.
- Controllers, modules, DTO validation, the browser and driver applications, adapters, matchers, the sync scheduler, seed data and backfills.
