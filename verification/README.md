# Verified model of the Rastreia backend

Dafny modules that model the stateful protocols of the backend and prove what
they promise. Every table is a map in a state, every transaction is one step,
the clock and the answers of providers are parameters of the steps, and crashes,
lost answers and competing workers are steps of their own. Results about runs
hold for every sequence of steps; a class in each module holds the tables as the
service updates them, and each of its methods is proved to be a step, or a run of
steps, of that protocol.

Each protocol also states, apart from its definition, when a step takes effect and
what it leaves (the lemmas named `...ExactlyWhen` and those beside them); of these
the table below lists the ones that are more than a reading of one step.

| file | what it models |
|---|---|
| `IfoodStatus.dfy`, `IfoodInbox.dfy`, `IfoodCommands.dfy` | iFood order status, event inbox with orders and deliveries, outgoing commands |
| `LiveVideo.dfy` | video lease of a live and the stream keys at the provider |
| `PixCharge.dfy` | the one bank charge of an order |
| `BankAmounts.dfy`, `Doubles.dfy` | amounts of the bank in double arithmetic |
| `Invoices.dfy`, `Billing.dfy` | an invoice row; profiles, invoices, notices, financial holds and the billing worker |
| `TaxId.dfy` | CPF and CNPJ check digits, the latter with letters too |
| `RetryDelay.dfy`, `Outbox.dfy` | back-off, leases, retries and dead letters of notifications |
| `ImportCents.dfy`, `CatalogPreview.dfy`, `CatalogImport.dfy` | amounts, preview and replay of a catalogue file |
| `FinanceLedger.dfy`, `FinanceReport.dfy` | entries, settlements, cash and balances; the income statement |
| `LiveSelection.dfy`, `LiveSessions.dfy` | moving through the products of a live; sessions, quotas and expiry |
| `RefreshSessions.dfy` | rotation and reuse of refresh tokens |
| `CanonicalJson.dfy`, `CanonicalDates.dfy`, `KeyOrder.dfy`, `Idempotency.dfy` | canonical requests and execution under an idempotency key |
| `Decimals.dfy` | numbers written in decimal digits |
| `Wrappers.dfy` | `Option` and `Result` |

Some promises hold only under a condition, which is then stated exactly:

- The final iFood status does not depend on the order of arrival if and only if
  one event is both the most advanced and the latest
  (`IfoodStatus.OrderIndependentExactlyWhen`).
- No stream key outlives its video if and only if no creation that was given up is
  carried out after the video stopped (`LiveVideo.OrphanFreeExactlyWhenTimely`;
  `LiveVideo.LateCreationCanOrphan` is a run that fails, and
  `LiveVideo.PromptProviderLeavesNoOrphan` a condition on the provider that suffices).
- A processed notification stays processed if and only if every worker that still
  holds it is at its last attempt (`Outbox.ProcessedForGoodExactlyWhen`;
  `Outbox.OverrunReopens` is a run that fails, and `Outbox.AcknowledgedIsFinished`
  says that workers within their lease suffice).
- Canonical JSON forgets the order of keys if and only if no two keys of an object,
  neither of them an array index, collate as equal
  (`KeyOrder.OrderForgottenExactlyWhenKeysApart`).
- Canonical JSON turns a date into an empty object, so requests that differ only in
  dates pass for one, as those that create shifts, deliveries and locations can
  (`src/modules/shifts/shift.service.ts:226`, `src/modules/deliveries/delivery.service.ts:212`,
  `src/modules/locations/location.service.ts:207`). A different request under a used
  key is always refused if and only if the first holds neither a date nor an empty
  object (`Idempotency.OthersAreRefusedExactlyWhenSolid`;
  `Idempotency.DifferentDatesAreReplayed` is a run that fails).
- An idempotent request may be executed again if and only if its first answer was null
  (`Idempotency.RepeatedExactlyWhenNull`). `withIdempotency` accepts such an answer;
  no operation of the repository was found to give one.
- Every amount up to n cents survives the double arithmetic of the bank client if and
  only if n is at most 107374182408 (`BankAmounts.EveryAmountComesBackExactlyUpTo`);
  107374182409 cents are refused (`BankAmounts.FirstRefused`). No amount up to n cents
  is read as another if and only if n is at most 7036874417766400
  (`BankAmounts.NoAmountIsMistakenExactlyUpTo`).
- An event of the outbox may also be marked processed by the emergency search of
  shifts (`src/modules/shifts/shift-search.service.ts:171`), so the no-loss result
  names that third case.

To check the project: `dafny verify dfyconfig.toml`.

## Model

| member | source | states |
|---|---|---|
| `IfoodStatus.NeverRegresses` | src/integrations/ifood/ifood.status.ts:5-10 | replaying any events never lowers the rank or the time of the status, and leaves a cancelled order untouched |
| `IfoodStatus.OrderIndependentExactlyWhen` | src/integrations/ifood/ifood.integration.ts:114-118 | every order and repetition of the same events ends at the highest rank seen if and only if some event is both the most advanced and the latest |
| `IfoodStatus.RanksFollowTimeSuffices` | src/integrations/ifood/ifood.status.ts:8-9 | it does when higher ranks never carry earlier times |
| `IfoodStatus.ReorderedTimestampsDisagree` | src/integrations/ifood/ifood.integration.ts:114-118 | a concrete pair of events for which the order of arrival decides the status |
| `IfoodStatus.MeansExactlyByCode` | src/integrations/ifood/ifood.status.ts:1-4 | an event means a status exactly by its full code or, failing that, its short one |
| `IfoodCommands.CalledAgainOnlyWhenThrottled` | src/integrations/ifood/ifood.integration.ts:208-240 | over every interleaving the provider is called again for a command only if every earlier call was answered 429, and at most five times |
| `IfoodCommands.ResentOnlyWhenRefused` | src/integrations/ifood/ifood.client.ts:38-47 | counting the request repeated with a new token after a 401, a command is posted again only if every earlier request was refused with 429 or 401, and at most ten times |
| `IfoodCommands.AtMostOneEffectiveRequest` | src/integrations/ifood/ifood.integration.ts:234-238 | at most one request for an order and operation has an accepted or unknown outcome |
| `IfoodCommands.SettledForGood` | src/integrations/ifood/ifood.integration.ts:202-240 | REQUEST_SENT, ERROR, UNCERTAIN and CONFIRMED never lead back to REQUESTED; a settled command nobody holds is never sent again |
| `IfoodCommands.ConfirmationIsFinal` | src/integrations/ifood/ifood.integration.ts:131-132 | a confirmation by the platform survives whatever a slow worker writes later |
| `IfoodCommands.ThrottledIsRetried` | src/integrations/ifood/ifood.integration.ts:235-237 | a throttled command is claimable again once its delay has passed |
| `IfoodCommands.CrashedReservationIsNeverResent` | src/integrations/ifood/ifood.integration.ts:209-210 | a reservation whose worker died becomes UNCERTAIN at the next sweep and is never sent again, whatever follows |
| `IfoodCommands.RunKeepsInv` | src/integrations/ifood/ifood.integration.ts:185-240 | no two workers ever hold one command, and each row knows how many sends it had and that all but the last were throttled |
| `IfoodCommands.RecordLeaves` | src/integrations/ifood/ifood.integration.ts:227-237 | a SENDING row ends REQUEST_SENT exactly for a stored success, REQUESTED exactly for a 429 before the fifth call, ERROR exactly for another listed code or the fifth 429, and UNCERTAIN otherwise |
| `IfoodCommands.StatusTellsTheOutcome` | src/integrations/ifood/ifood.integration.ts:208-240 | in every run a row is REQUEST_SENT only if its last call was accepted, and ERROR only after a refusal with one of the listed codes or a rejected cancellation |
| `IfoodCommands.CommandQueue.RequestAction` | src/integrations/ifood/ifood.integration.ts:185-206 | creates the command once and only for an order that allows it, a cancellation only with a reason on offer; a repeat returns the row as it is |
| `IfoodCommands.CommandQueue.QueueDispatch` | migrations/0035_external_orders.sql:80-91 | a delivery that leaves queues the dispatch of its order, once and unless the order is closed |
| `IfoodCommands.CommandQueue.SweepStale` | src/integrations/ifood/ifood.integration.ts:209-210 | marks exactly the reservations older than two minutes UNCERTAIN |
| `IfoodCommands.CommandQueue.ClaimNext` | src/integrations/ifood/ifood.integration.ts:212-217 | reserves the oldest claimable command, or reports that none is |
| `IfoodCommands.CommandQueue.RecordOutcome` | src/integrations/ifood/ifood.integration.ts:227-237 | the final update touches a row only while it is still SENDING |
| `IfoodCommands.CommandQueue.SendNext` | src/integrations/ifood/ifood.integration.ts:211-238 | one turn of the loop is the run claim, call, record |
| `IfoodCommands.CommandQueue.ProcessCommands` | src/integrations/ifood/ifood.integration.ts:208-240 | a pass is a run of the protocol of at most 25 turns, and stops early only when nothing is claimable |
| `IfoodInbox.AcknowledgedIsStored` | src/integrations/ifood/ifood.integration.ts:57-59 | every acknowledged event id is stored, for good, and a closed event of a known merchant never changes again |
| `IfoodInbox.EffectsCommitOnce` | src/integrations/ifood/ifood.integration.ts:93-134 | the effects of one stored event commit at most once over retries, re-attachment, manual reprocessing and competing workers |
| `IfoodInbox.LinkIsOneToOne` | src/integrations/ifood/ifood.integration.ts:119-124 | orders and deliveries are linked one to one |
| `IfoodInbox.OrderOnlyAdvances` | src/integrations/ifood/ifood.integration.ts:110-124 | an order never goes back in rank or time, its delivery link is written once, a cancelled order stays cancelled and unlinked if it was |
| `IfoodInbox.OrderStep` | src/integrations/ifood/ifood.integration.ts:119-124 | a link is only ever created for an own delivery whose status after the step allows it |
| `IfoodInbox.DeliveryFollowsOrder` | src/integrations/ifood/ifood.integration.ts:125-127 | no delivery of a cancelled order is open, and none of an order only placed was released |
| `IfoodInbox.ReleasedOnlyWhileConfirmed` | src/integrations/ifood/ifood.integration.ts:162-168 | in every run each delivery that left for the couriers was a draft released by a release of its order while that was confirmed or in preparation |
| `IfoodInbox.StatusIsTopOfCommittedEvents` | src/integrations/ifood/ifood.integration.ts:110-118 | the stored status is the replay of the committed events, hence the most advanced of them whenever one is both most advanced and latest |
| `IfoodInbox.RunKeepsInv` | src/integrations/ifood/ifood.integration.ts:33-183 | all of the above is inductive over every run of workers, crashes and manual actions |
| `IfoodInbox.OrderAfter` | src/integrations/ifood/ifood.integration.ts:110-126 | the status and the link a used event leaves on its order |
| `IfoodInbox.DeliveriesAfterUse` | src/integrations/ifood/ifood.integration.ts:119-126 | a used event makes at most its one draft and aborts at most the open delivery of its cancelled order |
| `IfoodInbox.NeverLinkedWhenOver` | src/integrations/ifood/ifood.integration.ts:119-119 | no delivery is ever linked to an order that is cancelled, concluded or dispatched after the step |
| `IfoodInbox.StoredAsReceived` | src/integrations/ifood/ifood.integration.ts:36-43 | an event is stored once, with the connection of its merchant |
| `IfoodInbox.Inbox.IngestBatch` | src/integrations/ifood/ifood.integration.ts:33-45 | stores each event of a batch once and reports only stored ids |
| `IfoodInbox.Inbox.ProcessEvent` | src/integrations/ifood/ifood.integration.ts:93-140 | the transaction of a selected event either commits, closing it or leaving it for later, or changes nothing |
| `IfoodInbox.Inbox.ImportOrder` | src/integrations/ifood/ifood.integration.ts:110-134 | the whole effect of a used event on orders, deliveries and the event |
| `IfoodInbox.Inbox.AdvanceAndLink` | src/integrations/ifood/ifood.integration.ts:110-126 | inserts or advances the order, links a draft delivery when allowed and aborts the delivery of a cancelled order |
| `IfoodInbox.Inbox.CreateManualDelivery` | src/integrations/ifood/ifood.integration.ts:173-183 | creates one delivery for an order that allows it and otherwise returns the one it has |
| `IfoodInbox.Inbox.ReleaseDelivery` | src/integrations/ifood/ifood.integration.ts:162-171 | releases a draft exactly when the order and the connection allow it |
| `LiveVideo.OrphanFreeExactlyWhenTimely` | src/modules/commerce/live-video.service.ts:33-57 | in every run with crashes each stream key of a live has a video that is not stopped, at every moment, if and only if no create request given up is carried out after its video stopped |
| `LiveVideo.UntimelyCreationOrphans` | src/modules/commerce/live-video.service.ts:95-96 | each creation carried out after its video stopped does leave an orphan key |
| `LiveVideo.LateCreationCanOrphan` | src/modules/commerce/live-video.service.ts:52-57 | a concrete run in which the provider carries out a given-up request once the video has stopped |
| `LiveVideo.PromptProviderLeavesNoOrphan` | src/modules/commerce/live-video.service.ts:48-57 | it is enough that the provider carries out what was given up before the lease ends, a shutdown is asked for or the live is over |
| `LiveVideo.OneLivePerChannel` | src/integrations/ivs/ivs.provider.ts:52-58 | all keys of this system on one channel carry one live |
| `LiveVideo.StoppedBetweenStudios` | src/modules/commerce/live-video.service.ts:40-46 | two connects of different studios that both obtain a key always have a stopped state between them |
| `LiveVideo.HolderKeptUntilStopped` | src/modules/commerce/live-video.service.ts:40-51 | until it stops, a video keeps its holder and a requested shutdown |
| `LiveVideo.ShutdownEndsIssuing` | src/modules/commerce/live-video.service.ts:51-51 | once a shutdown is requested nobody obtains a key until the video has stopped |
| `LiveVideo.CrashIsRecoverable` | src/modules/commerce/live-video.service.ts:81-97 | after the lease has run out one complete maintenance pass leaves no key of the live |
| `LiveVideo.LeaseEndsInTime` | src/modules/commerce/live-video.service.ts:53-66 | in every run a lease ends no later than ninety seconds from now, and that of a connected studio no later than the deadline |
| `LiveVideo.LeaseIsFull` | src/modules/commerce/live-video.service.ts:53-66 | a connect or a renewal makes the lease as long as both allow |
| `LiveVideo.IvsProvider.Key` | src/integrations/ivs/ivs.provider.ts:52-59 | hands out the key of the live, or a new one, and never on a channel with a foreign key |
| `LiveVideo.IvsProvider.StopChannel` | src/integrations/ivs/ivs.provider.ts:61-69 | deletes keys one by one, and says whether all of them and the stream are gone |
| `LiveVideo.LiveVideoService.ReserveVideo` | src/modules/commerce/live-video.service.ts:36-47 | commits the lease before any provider call, or refuses and changes nothing |
| `LiveVideo.LiveVideoService.Connect` | src/modules/commerce/live-video.service.ts:33-57 | is a reservation followed by an issue, whatever the provider does |
| `LiveVideo.LiveVideoService.RenewLease` | src/modules/commerce/live-video.service.ts:58-69 | renews only the current, unexpired, ready holder |
| `LiveVideo.LiveVideoService.StopVideo` | src/modules/commerce/live-video.service.ts:89-97 | stops a video only when it is due and its keys are gone |
| `LiveVideo.LiveVideoService.Maintain` | src/modules/commerce/live-video.service.ts:81-97 | a maintenance pass is a run of stops, and with no failure nothing listed stays due |
| `PixCharge.ChargedAtMostOnce` | src/modules/commerce/pix.service.ts:43-66 | for any workers, crashes and lost sessions an order is POSTed at most once and its payment booked at most once |
| `PixCharge.PostsTheRecordedAccount` | src/modules/commerce/pix.service.ts:56-58 | a charge is only requested for the tax id and Pix key on record |
| `PixCharge.RecordedForGood` | src/modules/commerce/pix.service.ts:56-78 | tax id, Pix key, provider, transaction and location ids and a booked outcome never change once set |
| `PixCharge.PaidOnlyWhenExact` | src/modules/commerce/pix.service.ts:76-79 | an order becomes paid only by one exact, timely payment booked while it still waited, and dated at most five minutes ahead; any other payment is left for review |
| `PixCharge.UnknownOutcomeIsReconciled` | src/modules/commerce/pix.service.ts:70-75 | a charge whose creation went unanswered is found and its ids recorded with no second request |
| `PixCharge.IdsComeFromTheRecordedCharge` | src/integrations/btg/btg.pix.ts:13-16 | in every run ids are written only from a charge with the recorded tax id and Pix key, worth the amount of the row, which the customer may not change |
| `PixCharge.PaymentsComeFromTheRecordedCharge` | src/integrations/btg/btg.pix.ts:13-16 | and a payment is booked only from such a charge, with the recorded ids |
| `PixCharge.SavedReply` | src/modules/commerce/pix.service.ts:58-64 | a usable reply on record leaves PENDING before the expiry and EXPIRED after it, any other an order for review |
| `PixCharge.ReconciledExactlyWhen` | src/modules/commerce/pix.service.ts:67-75 | ids are recorded exactly from the one charge that is the order's and on record, under an account of the recorded tax id |
| `PixCharge.PixWorker.CommitChargeIntent` | src/modules/commerce/pix.service.ts:53-56 | the intent is committed with its account before the request |
| `PixCharge.PixWorker.SaveReply` | src/modules/commerce/pix.service.ts:58-64 | a usable answer is stored once, any other leaves the order for review |
| `PixCharge.PixWorker.Identify` | src/modules/commerce/pix.service.ts:67-75 | exactly one matching charge of the recorded account, or nothing happens |
| `PixCharge.PixWorker.Book` | src/modules/commerce/pix.service.ts:76-79 | money is booked once, as paid only if exact, in time and still awaited |
| `PixCharge.PixWorker.ProcessOrder` | src/modules/commerce/pix.service.ts:43-81 | one call of the worker is a run of the protocol |
| `BankAmounts.ReadExactlyWhenClose` | src/integrations/btg/btg.pix.ts:12-12 | an amount is read as given cents exactly when the computed double product is within the double 0.00001 of them |
| `BankAmounts.EveryAmountComesBackExactlyUpTo` | src/integrations/btg/btg.pix.ts:12-12 | in double arithmetic every amount up to n cents, sent as reais, comes back as itself if and only if n is at most 107374182408 |
| `BankAmounts.FirstRefused` | src/integrations/btg/btg.pix.ts:12-12 | the product of 1073741824.09 and a hundred is one last place short of 107374182409, and the amount is refused |
| `BankAmounts.NoAmountIsMistakenExactlyUpTo` | src/integrations/btg/btg.pix.ts:12-12 | no amount up to n cents is read as another if and only if n is at most 7036874417766400 |
| `BankAmounts.FirstMistaken` | src/integrations/btg/btg.pix.ts:12-12 | 70368744177664.01 is read as one cent more |
| `Invoices.DoKeepsInv` | src/modules/billing/billing.service.ts:57-107 | every operation keeps 0 <= paid <= total, what each status says of the balance, the dates, and a history that is a path from DRAFT to the status |
| `Invoices.DoEvolves` | src/modules/billing/billing.routes.ts:55-88 | payments and history only grow, items are fixed once issued, paid and cancelled are final |
| `Invoices.AgeIsIdempotent` | src/modules/billing/billing-worker.service.ts:35-48 | ageing a row twice at one instant changes nothing more |
| `Invoices.EditedAndIssuedExactlyWhen` | src/modules/billing/billing.routes.ts:55-83 | a row is edited exactly as a draft of the version and store named, with one to a hundred items worth more than zero, and issued exactly as a draft worth more than zero |
| `Invoices.CancelledAndPaidExactlyWhen` | src/modules/billing/billing.service.ts:94-107 | a row is cancelled exactly when neither closed nor paid upon, and paid exactly when open and within its balance, which closes it exactly at zero |
| `Invoices.AgedExactlyWhen` | src/modules/billing/billing-worker.service.ts:35-47 | a row ages exactly from the first day late, if issued, or the fifth, if overdue |
| `Billing.EveryInvoiceBalances` | src/modules/billing/billing.service.ts:57-107 | in every run: 0 <= paid <= total, open means owing, PAID means settled, DRAFT and CANCELLED have no payment, the history is a connected path |
| `Billing.InvoicesEvolve` | src/modules/billing/billing.routes.ts:52-88 | over any further run an invoice is never lost and only evolves |
| `Billing.NoticeLeavesTimeForGood` | src/modules/billing/billing-worker.service.ts:36-40 | an invoice is given notice once, by the worker, and over any further run its suspension stays at the later of 24 hours from then and the end of the days of grace |
| `Billing.ChargedAtMostOnce` | src/modules/billing/billing-worker.service.ts:18-22 | no two invoices charge a store for the same month and kind |
| `Billing.HeldOnlyForDebt` | src/modules/billing/billing.service.ts:85-93 | in every run a store with an unreleased hold has a DELINQUENT invoice that owes money |
| `Billing.OnlyTheBatchBlocks` | src/modules/billing/billing-worker.service.ts:53-62 | only the worker blocks a unit, outside any waiver, once its earliest suspension date has come |
| `Billing.BlockedOnlyAfterNotice` | src/modules/billing/billing-worker.service.ts:36-62 | every block rests on an invoice at least five days late at its notice, given at least 24 hours before |
| `Billing.BatchSettles` | src/modules/billing/billing-worker.service.ts:12-64 | after the transaction of a store nothing is left to draft, notify, age, hold or block there at that instant |
| `Billing.OtherStoresStaySettled` | src/modules/billing/billing-worker.service.ts:12-64 | and the transactions of other stores do not undo that |
| `Billing.SecondPassChangesNothing` | src/modules/billing/billing-worker.service.ts:7-66 | a second pass over the same stores at the same instant changes no invoice, history, notice or hold |
| `Billing.LateOnlyAfterDue` | src/modules/billing/billing-worker.service.ts:35-48 | in every run an OVERDUE or DELINQUENT invoice was past its due date at some batch of its store |
| `Billing.LateOnTheFirstDay` | src/modules/billing/billing-worker.service.ts:35-48 | a batch makes an invoice OVERDUE on the first to the fourth day late and DELINQUENT from the fifth, and leaves every other as it is |
| `Billing.DraftFallsDueInItsMonth` | src/modules/billing/billing-worker.service.ts:17-31 | a month is drafted exactly once from the start of the plan on, for its two parts, due in the month on the due day or the last |
| `Billing.ToldExactlyOfNotices` | src/modules/billing/billing-worker.service.ts:41-45 | exactly the managers of the store are told, exactly of what is given notice |
| `Billing.ReleasedExactlyWithoutDebt` | src/modules/billing/billing.service.ts:85-93 | an issue, cancellation, payment or batch releases the hold of its store exactly when no delinquent invoice with a suspension date is left; only a waiver releases otherwise |
| `Billing.BlockStays` | src/modules/billing/billing.service.ts:85-93 | over any run without a waiver, a block stays while a delinquent invoice is left |
| `Billing.BlockedExactlyWhenSuspended` | src/modules/billing/billing-worker.service.ts:50-63 | a batch blocks the unit exactly when some suspension has come, no waiver is in force and it is not blocked, and schedules the earliest suspension |
| `Billing.ClosedExactlyWhen` | src/modules/billing/billing-worker.service.ts:50-63 | after its batch a unit is closed exactly when in debt, outside any waiver, and suspended or closed before |
| `Billing.HoldAfterSettling` | src/modules/billing/billing.service.ts:85-93 | the exact hold an issue, cancellation, payment or batch leaves |
| `Billing.BillingTables.CreateInvoice` | src/modules/billing/billing.service.ts:66-78 | a draft with the given items, refused without a billing profile or for a charge that exists |
| `Billing.BillingTables.EditInvoice` | src/modules/billing/billing.routes.ts:55-69 | only a current draft of the same store can be edited; its items are replaced |
| `Billing.BillingTables.RecordState` | src/modules/billing/billing.service.ts:57-65 | writes a status with its history and dates, or nothing if it is already there |
| `Billing.BillingTables.ChangeStatus` | src/modules/billing/billing.routes.ts:70-83 | issue and cancel, with their conditions, followed by the reconciliation of the hold |
| `Billing.BillingTables.RegisterPayment` | src/modules/billing/billing.service.ts:94-107 | a payment within the balance lowers it by its amount and closes the invoice when it reaches zero |
| `Billing.BillingTables.ReconcileHold` | src/modules/billing/billing.service.ts:85-93 | releases the hold exactly when no delinquent invoice is left |
| `Billing.BillingTables.NextSuspension` | src/modules/billing/billing-worker.service.ts:50-51 | the earliest suspension date over the delinquent invoices of a store |
| `Billing.BillingTables.WaiveHold` | src/modules/billing/billing.routes.ts:89-104 | a waiver releases the hold, so the unit is open |
| `Billing.BillingTables.DraftMonth` | src/modules/billing/billing-worker.service.ts:17-31 | drafts the month once, with the positive parts of the plan |
| `Billing.BillingTables.AgeInvoices` | src/modules/billing/billing-worker.service.ts:32-49 | ages every open invoice of the store and counts exactly the notices |
| `Billing.BillingTables.ApplyHold` | src/modules/billing/billing-worker.service.ts:50-63 | schedules, and blocks when due, or reconciles |
| `Billing.BillingTables.ProcessStore` | src/modules/billing/billing-worker.service.ts:12-64 | the three parts are one step, and count nothing when the store is settled |
| `Billing.BillingTables.ProcessBatch` | src/modules/billing/billing-worker.service.ts:7-66 | a pass settles every store, and over settled stores returns zero drafts, notices and blocks and changes nothing |
| `TaxId.ValidTaxId` | src/modules/billing/billing.schemas.ts:3-18 | the loops accept exactly the ids of the right shape, not all one character, whose check digits are right |
| `TaxId.StoredFormIsValid` | src/modules/billing/billing.schemas.ts:4-4 | the stored, normalised form is its own normal form and is valid exactly when the typed one is |
| `TaxId.OneFormula` | src/modules/billing/billing.schemas.ts:7-16 | the CPF and the CNPJ formula compute the same check digit from a sum |
| `TaxId.CpfSubstitution` | src/modules/billing/billing.schemas.ts:6-11 | a changed digit of a good CPF is caught unless it is the first, by one, or the sixth, by two or nine, with zero check digits |
| `TaxId.CpfUnprotectedPlaces` | src/modules/billing/billing.schemas.ts:6-11 | some changed digit goes unnoticed exactly at indices 0 and 5 |
| `TaxId.CnpjSubstitution` | src/modules/billing/billing.schemas.ts:12-17 | a changed character of a good CNPJ is caught unless its value moves by a multiple of 11, or the check digits are 00 and the index is 0, 4 or 8 |
| `TaxId.CnpjUnprotectedPlaces` | src/modules/billing/billing.schemas.ts:12-17 | among all-digit CNPJs some changed digit goes unnoticed exactly at indices 0, 4 and 8 |
| `TaxId.ElevenApartIsNeverCaught` | src/modules/billing/billing.schemas.ts:13-16 | characters whose values differ by a multiple of 11 are never told apart |
| `TaxId.ExactlyOnePair` | src/modules/billing/billing.schemas.ts:6-17 | every base has exactly one pair of check digits |
| `TaxId.SeparatorsDoNotMatter` | src/modules/billing/billing.schemas.ts:4-4 | inserting dots, dashes, slashes or spaces anywhere changes neither validity nor the stored form |
| `TaxId.CaseDoesNotMatter` | src/modules/billing/billing.schemas.ts:4-4 | nor does writing a letter in lower case |
| `TaxId.ValidExactlyWhenCompleted` | src/modules/billing/billing.schemas.ts:3-18 | a typed id is valid exactly when its normal form is not all one character and is nine digits or twelve letters and digits completed by their check digits |
| `RetryDelay.DelayIsBounded` | src/workers/notification-worker.service.ts:139-149 | the delay is between the capped exponential and the cap for any jitter |
| `RetryDelay.DelayNeverShrinks` | src/workers/notification-worker.service.ts:139-149 | the next delay is never shorter, however the jitter falls |
| `RetryDelay.DelaysDouble` | src/workers/notification-worker.service.ts:139-149 | the exponential starts at the base and doubles up to the cap |
| `RetryDelay.DelayIsNearest` | src/workers/notification-worker.service.ts:139-149 | the delay is the jittered exponential to half a second, up to the cap |
| `Outbox.NothingIsLost` | src/workers/notification-worker.service.ts:130-197 | in every interleaving, lease overruns included, a processed event was handled successfully, has a dead letter, or was withdrawn by its publisher |
| `Outbox.NothingWaitsForever` | src/workers/notification-worker.service.ts:106-128 | an unprocessed event is claimable again after the longer of a lease and the largest delay |
| `Outbox.NotRetriedBeforeItsDelay` | src/workers/notification-worker.service.ts:157-185 | over any further run nobody takes a failed event before its exponential delay is over, and after its last attempt it is a dead letter for good, if no other worker holds it |
| `Outbox.ClaimsAreBounded` | src/workers/notification-worker.service.ts:111-127 | while leases are kept, an event is claimed at most the configured attempts plus the crashes that held it, and never by two workers at once |
| `Outbox.ProcessedForGoodExactlyWhen` | src/workers/notification-worker.service.ts:130-197 | a processed event stays processed over every further run if and only if every worker that still holds it is at its last attempt |
| `Outbox.AcknowledgedForGoodExactlyWhen` | src/workers/notification-worker.service.ts:130-137 | an acknowledged success is final if and only if every other worker holding the event is at its last attempt |
| `Outbox.AcknowledgedIsFinished` | src/workers/notification-worker.service.ts:130-137 | in particular, while leases are kept an acknowledged success is final over any further run |
| `Outbox.FinishedIsFinal` | src/workers/notification-worker.service.ts:112-117 | a processed event that nobody holds never changes |
| `Outbox.OverrunReopens` | src/workers/notification-worker.service.ts:163-185 | a concrete run in which a worker past its lease reopens an event another one finished |
| `Outbox.TurnEndsExactly` | src/workers/notification-worker.service.ts:576-600 | a turn closes its event exactly when the handler succeeded and that was stored, else leaves a later try or a dead letter |
| `Outbox.OutboxTable.ClaimEvent` | src/workers/notification-worker.service.ts:106-128 | leases the earliest available event, or reports that there is none |
| `Outbox.OutboxTable.MarkEventProcessed` | src/workers/notification-worker.service.ts:130-137 | marks the event whoever holds it now |
| `Outbox.OutboxTable.MarkEventForRetry` | src/workers/notification-worker.service.ts:151-197 | a dead letter at the last attempt, else a later try |
| `Outbox.OutboxTable.ProcessNext` | src/workers/notification-worker.service.ts:585-597 | one turn and the counter it raises |
| `Outbox.OutboxTable.ProcessBatch` | src/workers/notification-worker.service.ts:576-600 | a batch is a run of the protocol whose counters add up to its turns, and stops early only when nothing can be claimed |
| `ImportCents.AmountRoundTrip` | src/modules/commerce/catalog-file.ts:76-80 | every amount up to the limit, written with a comma or a point, is read back as itself |
| `ImportCents.AmountsAreLimited` | src/modules/commerce/catalog-file.ts:76-80 | whatever is read lies between zero and the limit |
| `ImportCents.ReadExactlyWhenWritten` | src/modules/commerce/catalog-file.ts:76-80 | an amount is read exactly from one to seven digits with at most two more after a point or a comma, worth no more than the limit |
| `CatalogPreview.PreviewIsPlan` | src/modules/commerce/catalog-import.service.ts:38-67 | rows to be written have distinct SKUs, whatever their case, distinct barcodes and distinct products, and no other product or variant has their codes |
| `CatalogPreview.DetailedFacts` | src/modules/commerce/catalog-import.service.ts:51-64 | a row to be written is valid, names the matched product and its version, and its category is new when it has none |
| `CatalogPreview.JudgeRow` | src/modules/commerce/catalog-import.service.ts:39-67 | the judgement of one row against what was seen before it |
| `CatalogPreview.BuildPreview` | src/modules/commerce/catalog-import.service.ts:27-68 | the preview of a file is a plan, and is refused exactly when SKU, name, price or key is not mapped, or a column is used twice or missing |
| `CatalogPreview.CountsAddUp` | src/modules/commerce/catalog-import.service.ts:69-69 | the four counters cover every row |
| `CatalogPreview.RowMeetsItsFate` | src/modules/commerce/catalog-import.service.ts:38-67 | each row of a file is ignored, written or refused exactly by a rule on the file and the catalogue alone: skipped or excluded by the mode, readable with codes of its own, or neither; it updates the product that has its key, and inserts one exactly when there is none |
| `CatalogPreview.RowReadsItsCells` | src/modules/commerce/catalog-import.service.ts:55-64 | each written row takes its fields, stock, category and versions from its cells and its product, or the defaults of a new one |
| `CatalogPreview.NoProductIsSeenAgain` | src/modules/commerce/catalog-import.service.ts:47-47 | the refusal of a second row for one product can never come into play |
| `CatalogPreview.PreviewSeesExactly` | src/modules/commerce/catalog-import.service.ts:37-47 | the running sets hold exactly the codes and products of the rows that repeat none |
| `CatalogPreview.UsedOnceExactlyWhenAsMany` | src/modules/commerce/catalog-import.service.ts:29-30 | no column is used twice exactly when there are as many columns as fields |
| `CatalogPreview.CountersAreOfTheirRows` | src/modules/commerce/catalog-import.service.ts:69-69 | each counter is the number of rows of its action |
| `CatalogPreview.JudgeRows` | src/modules/commerce/catalog-import.service.ts:38-67 | the loop over the file computes the preview |
| `CatalogImport.EveryWriteIsSafe` | src/modules/commerce/catalog-import.service.ts:88-100 | after each single write SKUs, non-null barcodes and category names are pairwise distinct |
| `CatalogImport.CommitsEveryRow` | src/modules/commerce/catalog-import.service.ts:88-100 | each INSERT or UPDATE row ends as its own product with the codes, prices and, if mapped, the stock of the row |
| `CatalogImport.TargetsDiffer` | src/modules/commerce/catalog-import.service.ts:88-93 | distinct written rows hit distinct products |
| `CatalogImport.CommitsNothingElse` | src/modules/commerce/catalog-import.service.ts:88-100 | any other product is as it was and none is added |
| `CatalogImport.ImportsExactlyTheMappedFields` | src/modules/commerce/catalog-import.service.ts:51-63 | an updated product ends with the mapped cells of its row, and every field that is not mapped as it was |
| `CatalogImport.NewCategoriesAreCreatedOnce` | src/modules/commerce/catalog-import.service.ts:90-92 | a new category name is created exactly once, whatever its case, and only if a written row needs it |
| `CatalogImport.TargetStillFits` | src/modules/commerce/catalog-import.service.ts:93-98 | no earlier write of the import disturbs the product, version, stock or reservation a row was previewed with |
| `CatalogImport.SaveProduct` | src/modules/commerce/commerce.service.ts:50-69 | inserts, or updates the product named if its version is the one read |
| `CatalogImport.AdjustStock` | src/modules/commerce/catalog-import.service.ts:94-99 | the balance ends at the mapped stock, checked against version, reservation and limit |
| `CatalogImport.ApplyRow` | src/modules/commerce/catalog-import.service.ts:89-99 | the three writes of a row |
| `CatalogImport.ImportsNewProducts` | src/modules/commerce/catalog-import.service.ts:55-63 | a new product ends with the cells of its row, and unmapped fields empty, zero or active |
| `CatalogImport.ImportsTheNamedCategory` | src/modules/commerce/catalog-import.service.ts:51-54 | a written row with a category ends in the category of that name, whatever its case, old or new |
| `CatalogImport.ImportTables.PreviewImport` | src/modules/commerce/catalog-import.service.ts:70-75 | stores the preview of an import not yet applied |
| `CatalogImport.ImportTables.Recheck` | src/modules/commerce/catalog-import.service.ts:84-86 | succeeds exactly for a live token, an equal recomputed preview and no ERROR row |
| `CatalogImport.ImportTables.ApplyImport` | src/modules/commerce/catalog-import.service.ts:76-104 | commits the whole plan or nothing; applying again returns the stored result |
| `FinanceLedger.NeverOverpaid` | src/modules/commerce/finance.service.ts:42-55 | unreversed settlements never exceed the amount, and cancelled or non-cash entries have none |
| `FinanceLedger.CashPlusOutstandingIsBooked` | src/modules/commerce/finance.service.ts:91-98 | for each direction all cash ever moved plus what is outstanding is what was booked on cash-moving entries not cancelled |
| `FinanceLedger.AdjacentPeriodsAddUp` | src/modules/commerce/finance.service.ts:91-94 | cash over adjacent periods adds up |
| `FinanceLedger.CumulativeCashIsNotNegative` | src/modules/commerce/finance.service.ts:60-61 | cash from the beginning to any day is never negative |
| `FinanceLedger.OneWriteForEachVersion` | src/modules/commerce/finance.service.ts:38-41 | of two writes with one expected version at most one is accepted, whatever happens between them |
| `FinanceLedger.VersionsGrow` | src/modules/commerce/finance.service.ts:49-62 | versions never decrease and amounts never change |
| `FinanceLedger.CancelledIsFinal` | src/modules/commerce/finance.service.ts:51-55 | a cancelled entry never changes again, and that of an order is never cancelled |
| `FinanceLedger.BankCashIsFinal` | migrations/0067_commerce_pix_checkout.sql:172-179 | money the bank confirmed is cash for good: its settlement stands and its entry stays paid in full over any further run |
| `FinanceLedger.OneEntryForEachOrder` | migrations/0067_commerce_pix_checkout.sql:124-167 | payment and completion of an order, in any sequence, leave it one entry at most |
| `FinanceLedger.FinanceTables.SettleEntry` | src/modules/commerce/finance.service.ts:42-50 | settles within the balance and raises what is paid by the amount |
| `FinanceLedger.FinanceTables.CancelEntry` | src/modules/commerce/finance.service.ts:51-55 | cancels exactly entries without an order or a standing settlement |
| `FinanceLedger.FinanceTables.ReverseSettlement` | src/modules/commerce/finance.service.ts:56-63 | reverses a standing settlement once, between its date and today, and never one the bank confirmed |
| `FinanceLedger.FinanceTables.ConfirmPix` | migrations/0067_commerce_pix_checkout.sql:110-130 | books the confirmed payment of an order as an entry and its settlement, once |
| `FinanceLedger.FinanceTables.CompleteSale` | migrations/0067_commerce_pix_checkout.sql:157-171 | turns the cash entry of a completed order into revenue, or creates its entry |
| `FinanceReport.EverySubtotalAddsUp` | src/modules/commerce/finance.service.ts:82-91 | a subtotal is blank exactly when some detail line above it is, and otherwise is the sum of all detail lines above it |
| `FinanceReport.CashOnlyIsInvisible` | src/modules/commerce/finance.service.ts:76-82 | CASH_ONLY entries change no line, nor whether there is a statement |
| `FinanceReport.DetailLinesAreTheirGroups` | src/modules/commerce/finance.service.ts:82-90 | each detail line is plus or minus the sum of the totals of the group it is named after |
| `FinanceReport.StatedExactlyWithinRange` | src/modules/commerce/finance.service.ts:66-90 | a statement is refused exactly when a figure it reads or a line it shows is beyond 2^53 - 1 in size |
| `LiveSelection.NextEnumeratesEligible` | src/modules/commerce/live.service.ts:105-112 | from nothing shown NEXT enumerates exactly the eligible items in order and is then refused |
| `LiveSelection.PreviousUndoesNext` | src/modules/commerce/live.service.ts:105-112 | from an eligible product PREVIOUS undoes NEXT |
| `LiveSelection.EligibleItemsAreThose` | src/modules/commerce/live.service.ts:102-112 | the enumerated items are the eligible ones of the list |
| `LiveSessions.EverySession` | src/modules/commerce/live.service.ts:17-126 | at most one LIVE session a store, the current product is in the list, what was started ends no later than its deadline |
| `LiveSessions.SessionsOnlyAdvance` | src/modules/commerce/live.service.ts:67-126 | a session starts at most once, keeps its list from then on and does not change once ended |
| `LiveSessions.StartsWithinQuota` | src/modules/commerce/live.service.ts:81-98 | a start adds one to its month and keeps the month within the limit of the contract in force |
| `LiveSessions.StartHonoursTheContract` | src/modules/commerce/live.service.ts:86-95 | a start shows the first product and ends at the earlier of the contract and the duration of the plan |
| `LiveSessions.MonthlyQuota` | src/modules/commerce/live.service.ts:23-33 | if no contract of a store allows more than a number of lives a month, no month has more starts |
| `LiveSessions.NextShowsTheFirstAfter` | src/modules/commerce/live.service.ts:107-111 | NEXT shows the first eligible product after the current one, or of the list, and is refused exactly when there is none |
| `LiveSessions.PreviousShowsTheLastBefore` | src/modules/commerce/live.service.ts:107-111 | PREVIOUS shows the last eligible product before it, or of the list, and is refused exactly when there is none |
| `LiveSessions.ChosenAndHidden` | src/modules/commerce/live.service.ts:99-113 | a chosen product is shown exactly if listed and eligible, hiding shows none, and no session is steered that is not live in the version expected |
| `LiveSessions.NextShowsEligibleInOrder` | src/modules/commerce/live.service.ts:105-111 | a run of NEXT from nothing shown shows exactly the eligible products in order, and is then refused |
| `LiveSessions.PreviousReturns` | src/modules/commerce/live.service.ts:105-111 | PREVIOUS after NEXT returns to the product |
| `LiveSessions.EndedExactlyWhenOver` | src/modules/commerce/live.service.ts:15-22 | exactly the live sessions past their deadline or without an active contract of their store end, at the earlier of the deadline and now |
| `LiveSessions.EveryOperationExpires` | src/modules/commerce/live.service.ts:40-44 | every accepted operation first ends what is over in its store, and a refused one changes nothing |
| `LiveSessions.StartedExactlyWhen` | src/modules/commerce/live.service.ts:81-98 | a session starts exactly under the latest contract, within the quota, with no other running, published and with all its products eligible |
| `LiveSessions.LiveTables.ExpireStore` | src/modules/commerce/live.service.ts:17-22 | ends exactly the expired sessions of a store, at most at their deadline |
| `LiveSessions.LiveTables.ExpireStores` | src/modules/commerce/live-maintenance.ts:6-9 | maintenance is a run of expiries |
| `LiveSessions.LiveTables.CurrentPlan` | src/modules/commerce/live.service.ts:23-26 | the contract in force with the latest start, the first by identity among equals |
| `LiveSessions.LiveTables.SaveLive` | src/modules/commerce/live.service.ts:67-80 | plans a session or replaces the list of one that has not started |
| `LiveSessions.LiveTables.StartLive` | src/modules/commerce/live.service.ts:81-98 | starts exactly when version, status, contract, quota, publication and products allow it |
| `LiveSessions.LiveTables.ChooseProduct` | src/modules/commerce/live.service.ts:105-113 | the product chosen by selecting, moving or hiding, refused when it is not listed or not eligible |
| `LiveSessions.LiveTables.HighlightLive` | src/modules/commerce/live.service.ts:99-119 | shows the product the action leads to, or refuses and changes nothing |
| `LiveSessions.LiveTables.EndLive` | src/modules/commerce/live.service.ts:120-126 | ends a session of the given version once |
| `RefreshSessions.ReplacementsFormChains` | src/modules/auth/auth.service.ts:193-198 | replaced_by is an acyclic partial injection within one account, and whatever is replaced is revoked |
| `RefreshSessions.OneUnrevokedInAChain` | src/modules/auth/auth.service.ts:193-198 | a rotation chain has at most one unrevoked session |
| `RefreshSessions.EverySessionIsInAChain` | src/modules/auth/auth.service.ts:100-103 | every session is reached from a login that replaced nothing |
| `RefreshSessions.ExchangedAtMostOnce` | src/modules/auth/auth.service.ts:131-198 | each refresh token is exchanged at most once in any run |
| `RefreshSessions.SpentIsSpent` | src/modules/auth/auth.service.ts:131-198 | a token exchanged or logged out is never exchanged afterwards |
| `RefreshSessions.ReuseRevokesEverything` | src/modules/auth/auth.service.ts:153-160 | a detected reuse leaves, and commits, no unrevoked session of that tenant and user, and touches no other account |
| `RefreshSessions.NothingSurvivesReuse` | src/modules/auth/auth.service.ts:153-160 | after it no token issued to that user before is ever exchanged |
| `RefreshSessions.ExpiredIsNeverExchanged` | src/modules/auth/auth.service.ts:150-150 | a token past its expiry is never exchanged again, whatever follows |
| `RefreshSessions.ExchangedExactlyWhen` | src/modules/auth/auth.service.ts:131-198 | a token is exchanged exactly when signed, of that account and secret, neither revoked nor expired, for an active member |
| `RefreshSessions.RefreshLeavesExactly` | src/modules/auth/auth.service.ts:131-198 | what an exchange, a detected reuse and a refusal leave of the sessions |
| `RefreshSessions.SessionTable.StoreSession` | src/modules/auth/auth.service.ts:41-62 | inserts the session unrevoked and unreplaced |
| `RefreshSessions.SessionTable.RevokeAccount` | src/modules/users/user.routes.ts:190-194 | revokes every session of the account, keeping the times of those already revoked |
| `RefreshSessions.SessionTable.RefreshSession` | src/modules/auth/auth.service.ts:115-221 | rotates, detects reuse or refuses, and a refusal changes nothing |
| `RefreshSessions.SessionTable.LogoutSession` | src/modules/auth/auth.service.ts:223-238 | revokes the presented session only |
| `CanonicalDates.CanonicalExactlyWhenSame` | src/shared/idempotency.ts:12-22 | where no two keys of an object tie, canonical forms are equal exactly for values equal up to key order at every depth and to what their dates are |
| `CanonicalDates.SameExactlyWhenDatesAgree` | src/shared/idempotency.ts:12-22 | of two values equal but for dates, the same ones are exactly those with the same dates in the same places |
| `CanonicalDates.ToldApartExactlyWhenSolid` | src/shared/idempotency.ts:13-19 | the canonical form tells a value from every different one if and only if it holds neither a date nor an empty object |
| `CanonicalJson.CanonicalForgetsOnlyOrder` | src/shared/idempotency.ts:12-22 | without dates, equal canonical forms always come from values equal up to key order |
| `CanonicalJson.CanonicalIsIdempotent` | src/shared/idempotency.ts:12-22 | the canonical form is its own canonical form |
| `KeyOrder.OrderForgottenExactlyWhenKeysApart` | src/shared/idempotency.ts:16-18 | all listings of a value have one canonical form if and only if no two keys of one of its objects, neither an array index, collate as equal |
| `KeyOrder.OrderShowsThroughTies` | src/shared/idempotency.ts:16-18 | if two keys of an object do tie, some listing of the same value has another canonical form |
| `Idempotency.AtMostOnce` | src/shared/idempotency.ts:36-81 | without null answers of its own the effect of a key commits at most once until the key is purged |
| `Idempotency.EffectsAreAccountedFor` | src/shared/idempotency.ts:36-81 | in general effects are at most one, plus one for each purged answer and one for each null answer |
| `Idempotency.RepeatsGetTheFirstResponse` | src/shared/idempotency.ts:65-71 | until the key expires, a repeat by the same actor with the same request up to key order and dates gets the first response and any other is a conflict |
| `Idempotency.OthersAreRefusedExactlyWhenSolid` | src/shared/idempotency.ts:65-68 | every different request under a used key is refused if and only if the first holds neither a date nor an empty object |
| `Idempotency.DifferentDatesAreReplayed` | src/modules/shifts/shift.routes.ts:29-29 | a concrete run: two shifts that start at different times are taken for one request |
| `Idempotency.RepeatedExactlyWhenNull` | src/shared/idempotency.ts:69-71 | a request can be executed again before its key expires, whatever comes in between, if and only if its first answer was null |
| `Idempotency.NullAnswerRepeats` | src/shared/idempotency.ts:69-71 | a concrete run with two effects under one key |
| `Idempotency.KeyTable.WithIdempotency` | src/shared/idempotency.ts:36-81 | the transaction of one request; anything but a committed execution leaves the table as it was |

## Left out

- Transactions are atomic steps; what a statement of one transaction may see of another that commits meanwhile (READ COMMITTED) is not modelled.
- HTTP routes, request parsing, cookies, rate limits, logging, audit rows, telemetry and message texts.
- Network clients: only the answers of iFood, BTG and IVS appear, chosen freely at each step.
- Cryptography: hashes are injective, signatures either hold or not, payload encryption is absent.
- SQL functions and triggers that are not part of the modelled files: row-level security, `identity_units`, `commerce_manage_store`, inventory accounting beyond quantity and version. `commerce_pix_settle` is modelled by its effect on the order, its payment and the finance entries.
- Dates are integers and a zone is a fixed offset; the month of a date is given by an arbitrary calendar, so daylight saving and civil calendars are not modelled.
- Lower-casing covers ASCII and Latin-1 letters; other alphabets and the difference between JavaScript and PostgreSQL casing are not modelled. Upper-casing covers every character that can become a letter of a tax id.
- Numbers are exact, except the amounts of the bank: sums beyond 2^53 that JavaScript would round are not modelled, nor is the rounding inside the jitter of a delay. A bank amount that overflows a double is a very large number, refused all the same.
- JSON payloads are plain values and dates: undefined fields, numbers that are not finite and other non-JSON objects are not modelled.
- Inbox events keep no next attempt time: a failed event may be selected again at once, which allows more interleavings than the service does.
- The mock mode of iFood, which feeds a confirmation back after each command, and the dispatch schedule of orders.
- Names inherited by JavaScript objects (such as `constructor`) as iFood status codes.
- Deliveries and routes beyond creating, releasing, moving and aborting a delivery.
- Viewers of a live, their slots and their revocation at the provider.
- Deletion of old rows by retention, except for idempotency keys.
- Replay of dead letters, which publishes a new event.
- The effect of a notification on message deliveries and push subscriptions: a handler either succeeds or fails.
- Financial sales, inventory movements and the average cost: the statement takes their totals of the period as given.
- Opening cost, category seeding and the listing of entries.
- Plan versions and contracts of lives, except their terms, start and end.
- Delivery of CSV and XLSX files: a file is its rows of trimmed cells.
- The error texts of a previewed row: each refusal is one short reason, so two previews that differ only in the text of an error are equal here.
- Haversine distances, sockets, environment validation, smoke programs and message webhooks.
- Idempotency of platform administrators and of mobile expenses: the first is the same protocol, the second only prolongs a key.
- Identities of new rows are given to the operations and are fresh, as random ids are; titles, descriptions of charges, reasons and public tokens are absent.
- RefreshSessions.SessionTable.RefreshSession: the checks of the membership and of its units are one flag.
