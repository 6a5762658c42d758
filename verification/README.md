# Verified models of an accounting web application

These modules model the parts of the application whose behaviour depends on order and history: the
subscription change protocol, the barcode worker, three ways of sending a command exactly once, the
lanes in which a late answer must not overwrite a newer one, calendar arithmetic, the demonstration
ledger, and several transformations that must lose nothing. Each is proved over every input, or over
every run of its state machine.

Run `dafny verify dfyconfig.toml` with Dafny 4.11.

## How the model is built

A component that changes state has three layers. A datatype holds its state, and a step function
says what each event does to it; every `await` in the source is a boundary between two steps, so any
other event may come in between, any number of times. Lemmas about `Run` then speak of every reachable
state. A class with the component's own refs and state variables carries its handlers in imperative
form, cut at each `await`, and every method is proved to do exactly what the step function says.
Expressions in the source are functions here, and loops are loops with invariants.

- `OptionalModules` — selecting and dropping optional modules along their dependencies, cycles included.
- `SubscriptionSafety`, `SubscriptionPage` — reviews, attempts and records; the page as a state machine
  of nineteen events. `SubscriptionSelection`, `SubscriptionLatch` and `SubscriptionProtocol` prove its
  invariants, and `SubscriptionComponent` holds its imperative form, a class whose state after any events
  is what the state machine's run makes of them.
  `SubscriptionReads` ties what is shown to the answers stored, `SubscriptionEffects` says what every event does,
  and `SubscriptionOrders` follows a choice up to the server's answer.
- `BarcodeScanner` — the queue, the one worker draining it, and the epochs that make scans stale; `ScanQueue`
  proves it to be a plain queue seen from outside.
- `Delivery` — a network that loses and delays requests and answers, and a server that carries out each
  key at most once. `AttemptKeys` (a key kept per command), `ProjectSender`, `ExpensePage`,
  `PayrollCommands` and `SubscriptionProtocol` are composed with it; `KeyViews`, `SenderViews`,
  `ExpenseViews` and `PayrollRefusals` compare runs that look alike to their pages, and `SenderOutcomes`,
  `ExpenseOutcomes` and `PayrollOutcomes` say what comes of every click and of any number of retries.
- `ReadLanes` — payroll, expense and project reads.
- `Calendar`, `FiscalPeriods`, `PayrollDates` — dates, day numbers, ISO text and what is built from them.
- `DemoLedger` — the posting and settlement code of the demonstration seed; `LedgerBalances` says what it does to
  each account and item.
- `Base64`, `PoolOptions`, `JournalDraft` with `JournalEdits`, `Paging`, `LocaleManifest` — round trips and
  canonical forms.
- `Common` — optional values, and trimming.

## What the model assumes

- Between two events a page has rendered, so a handler sees the state the event before it left.
  A network answer may arrive at any later time or never; the network does not duplicate requests.
- A fresh idempotency key differs from every key before it: keys are numbered. A server that has
  carried out a key never carries it out again, and a refused request has had no effect.
- What an error can mean is stated apart from the pages' own tests. To the payroll page it is conclusive, thrown only
  by a server that refused the request, if it is an answer of the API with a status from 400 to 499 other than 408,
  425 and 429 that mentions no request in progress. To the subscription page it is conclusive if it is an answer of
  the API with a status below 500, of this context, and not about a key in progress or known for another body; 408
  and 429 count as refusals there.
- The subscription model follows one actor and one company through any number of mounts. A change of
  key renders the new page, reading the remembered attempt, before the old page cleans up.
- Plan ids are not empty, and within one plan each module appears once (the schema's key in
  `apps/api/prisma/schema.prisma:4330-4341`) where a lemma says `UniqueIds`. Option ids form a set, as
  reviews sort them. A list is served from one state of the database per request.
- A date input holds a date of the HTML Standard: the year is 1 or later, written with four digits or as many
  more as it needs. An agreement's stored dates have four-digit years.
- The browser submits no form while an input holds a number below its minimum or off its step; a date input's
  bounds are kept in the same way.
- A directory holds each file name once, and collation is a strict total order on the language tags of its
  locale files.

## Where a property does not hold as one might expect

- Switching an option on and then off may keep more than was selected before, and off and on may return
  less (`OnThenOffMayKeepMore`, `OffThenOnMayReturnLess`). On and off gives the selection back exactly if
  every unselected module the option's dependencies lead to leads back to the option; off and on exactly if
  the option's dependencies lead to every selected module that leads to it (`OnThenOffRestoresIff`,
  `OffThenOnRestoresIff`).
- The project page's sender is exactly-once as long as no command is sent while an awaited send of it can
  still succeed; the page's disabled buttons see to that. From what the page knows, a click of a command is
  safe exactly if no send of it is awaited (`ClickIsSafeIffNotAwaited`). Otherwise two successes may be reported
  for one effect (`OneOverlapBreaksTheCount`), and an intent may even take effect twice
  (`OverlapRepeatsAnEffect`).
- The payroll page drops a command when a retry is refused, although the first request may still take
  effect (`RefusedYetApplied`). From what the page knows, a refusal is final exactly if the command was
  sent once: for a retried one there is always a run the page cannot tell from its own in which the
  command takes effect (`RefusalIsFinalIffSentOnce`). The subscription page keeps such an attempt as
  uncertain.
- Pending payroll commands and expense keys die with their mount; only the subscription page's memory outlives
  one. From what the expense page knows, a command takes effect once per intent on a new mount exactly if the
  old one held no key of it (`RemountIsSafeIffNothingHeld`); leaving the payroll page leaves no command behind
  that may still take effect exactly if nothing is pending (`LeavingIsSafeIffNothingPending`).
- A conflict refresh of the project page checks only the detail sequence and the selection, so it may
  overwrite newer phases, tasks, assignments or dependencies; `RefreshStoresNewestIff` says when.
- The end-agreement form and its handler: the input's bounds offer exactly the dates that the handler accepts
  if and only if the agreement has an end, after 0001-01-01, and does not start on 9999-12-31
  (`OfferedIffAccepted`). An open-ended agreement has no upper bound, so the input takes years of five digits,
  which the handler refuses (`YearOfFiveDigits`). The Save button, which compares text, takes such years too
  unless no four-digit year from 1000 on lies from the start's year up to the end's
  (`SaveEnabledIffAccepted`). Bounds and button together are right exactly for agreements with an end
  (`FormSubmitsIffAccepted`).
- An open item's outstanding amount is not its original less its posted allocations for the items that the seed
  settles: a credit note and a debit note have lowered them before (`CreditedItemsAreLower`). It is so after any
  run exactly if it was before (`OriginalLessAllocatedIff`); how far a run moves an item does not depend on it
  (`ItemsFollowSettlements`).
- A new fiscal year starts on a well-formed ISO date exactly for four-digit years, as the year is not padded.
- The seed picks a period by the month digits of a date alone; it contains the date exactly if the date
  is in the stored year.
- Fetching all pages gives the later of two lists exactly under `AllPagesGiveTheLaterListIff`.
- Approving the only match on the last page of filtered reconciliation lines leaves an empty table although
  lines match the filters (`LoadMayLeaveThePage`): a load stays on a page exactly if the page still exists
  (`TurnsStayOnAPage`), and the table is empty exactly past the last one (`EmptyIffPastTheEnd`).

## Model

| member | source | states |
|---|---|---|
| OptionalModules.OnIsLeastClosedSuperset | apps/web/src/CompanySubscriptionPage.tsx:271-282 | Adding to a closed selection gives the least closed superset that contains the option; an option that cannot be selected changes nothing. |
| OptionalModules.OnIsLeastAbsorbing | apps/web/src/CompanySubscriptionPage.tsx:271-282 | For any selection, closed or not, the added set is the least one that takes in the option and what newly added options require. |
| OptionalModules.OffIsGreatestClosedSubset | apps/web/src/CompanySubscriptionPage.tsx:283-295 | Removing from a closed selection gives the greatest closed subset without the option. |
| OptionalModules.OffIsGreatestSurviving | apps/web/src/CompanySubscriptionPage.tsx:283-295 | For any selection, what remains is the greatest part in which nothing depends on something removed. |
| OptionalModules.ToggleKeepsClosed | apps/web/src/CompanySubscriptionPage.tsx:267-299 | A toggle keeps a closed selection closed, whatever the graph, and even with repeated ids. |
| OptionalModules.OnThenOffLosesNothing | apps/web/src/CompanySubscriptionPage.tsx:267-299 | On and then off keeps everything that was selected. |
| OptionalModules.OffThenOnAddsNothing | apps/web/src/CompanySubscriptionPage.tsx:267-299 | Off and then on selects nothing new. |
| OptionalModules.OnAddsWhatItLeadsTo | apps/web/src/CompanySubscriptionPage.tsx:273-282 | Switching on adds exactly the modules a chain of dependencies leads to. |
| OptionalModules.OffDropsWhatLeadsToIt | apps/web/src/CompanySubscriptionPage.tsx:283-295 | Switching off drops exactly the modules from which a chain leads to the option. |
| OptionalModules.OnThenOffRestoresIff | apps/web/src/CompanySubscriptionPage.tsx:267-299 | On and off restores the selection exactly if every unselected module the option leads to leads back to it. |
| OptionalModules.OffThenOnRestoresIff | apps/web/src/CompanySubscriptionPage.tsx:267-299 | Off and on restores the selection exactly if the option leads to every selected module that leads to it. |
| OptionalModules.OnThenOffMayKeepMore | apps/web/src/CompanySubscriptionPage.tsx:267-299 | The input that shows the first condition fail: a dependency pulled in stays. |
| OptionalModules.OffThenOnMayReturnLess | apps/web/src/CompanySubscriptionPage.tsx:267-299 | The input that shows the second fail: a dependent that was dropped does not return. |
| OptionalModules.OptionSet.Visit | apps/web/src/CompanySubscriptionPage.tsx:275-282 | The recursive visit terminates on cyclic graphs and leaves the least absorbing superset. |
| OptionalModules.OptionSet.DropWithDependents | apps/web/src/CompanySubscriptionPage.tsx:284-295 | The repeat-until-unchanged loop terminates and leaves exactly the surviving part. |
| OptionalModules.ToggleOptional | apps/web/src/CompanySubscriptionPage.tsx:270-298 | The code's Set updates compute the specified toggle. |
| SubscriptionSelection.ShownIsCurrent | apps/web/src/CompanySubscriptionPage.tsx:109-309 | Over every run the options are a closed set of active optional modules of the selected plan, a shown review without a recorded attempt is of the current company, plan, options and version, and every command ever sent fits its review and company. |
| SubscriptionSelection.FirstSendIsWhatIsShown | apps/web/src/CompanySubscriptionPage.tsx:311-331 | A first send carries what the page shows at that moment, acknowledged, under an open latch, a successful last read and an unchanged link, with a fresh key. |
| SubscriptionSelection.StepFits | apps/web/src/CompanySubscriptionPage.tsx:109-309 | Each of the nineteen events keeps the options closed and the review current. |
| SubscriptionReads.ShowsWhatItWasTold | apps/web/src/CompanySubscriptionPage.tsx:171-246 | Over every run the subscription shown is of the company and version, and the catalogue has the plans, of the answers stored last since the mount; a page answer changes the catalogue only, and a new mount shows nothing. |
| SubscriptionReads.AnswerIsTaken | apps/web/src/CompanySubscriptionPage.tsx:171-246 | In every reachable page an answer is stored exactly if no read, and for a load no mismatch, came after its read and it proves the context; a load opens the latch, one that disproves the context shuts it; the plan selected is a pending link's, else the one chosen, else the recorded attempt's, else the fallback, if the catalogue holds it; options stay exactly if plan and definition stay; nothing else changes. |
| SubscriptionReads.FirstSendIsWhatWasTold | apps/web/src/CompanySubscriptionPage.tsx:311-331 | Over every run a first send asks for a plan of the catalogue stored last, for this company, with the version loaded last. |
| SubscriptionLatch.LatchFollowsHistory | apps/web/src/CompanySubscriptionPage.tsx:79-248 | Over every run the latch is opened only by the newest read, started after the last mismatch; data is stored only from the newest read; and the latch is open exactly if so opened since the last mount and mismatch. |
| SubscriptionLatch.AnswerKeepsInv | apps/web/src/CompanySubscriptionPage.tsx:171-246 | Any answer, to any load or page, in any order, keeps that discipline. |
| SubscriptionProtocol.NeverTwoOpenAttempts | apps/web/src/CompanySubscriptionPage.tsx:311-377 | When an attempt is sent, every different attempt sent before has a definite outcome; while one is uncertain only that attempt, with its key and body, can be sent. |
| SubscriptionProtocol.OutcomesMatchEffects | apps/web/src/CompanySubscriptionPage.tsx:311-354 | No attempt takes effect twice, a definite outcome is a success exactly if the server carried it out, and requests of one key carry one body. |
| SubscriptionProtocol.OutcomesAreFinal | apps/web/src/subscription-change-safety.ts:50-77 | A definite outcome is never revised and stays true whatever arrives later. |
| SubscriptionProtocol.FirstRefusalIsFinal | apps/web/src/subscription-change-safety.ts:51-55 | An attempt whose first and only request was refused can never take effect. |
| SubscriptionProtocol.StepKeepsInv | apps/web/src/CompanySubscriptionPage.tsx:74-100 | Page, memory and network stay in agreement under every event, cancelling, unmounting and remounting included. |
| SubscriptionEffects.SelectingAPlan | apps/web/src/CompanySubscriptionPage.tsx:256-265 | Selecting a plan selects it without options and closes a review, unless a command or outcome is there or the context is not proved. |
| SubscriptionEffects.TogglingAnOption | apps/web/src/CompanySubscriptionPage.tsx:267-299 | Toggling changes the options of the selected plan by the least closed superset or the greatest closed subset, and closes a review. |
| SubscriptionEffects.ReviewingIsAllowedIff | apps/web/src/CompanySubscriptionPage.tsx:301-309 | A review of what is chosen, at the version loaded last, appears exactly under the guards of submit. |
| SubscriptionEffects.FollowingALink | apps/web/src/CompanySubscriptionPage.tsx:131-160 | A new link drops what was chosen and is followed at once, or by the read under way; a known link does nothing; while a command or outcome is there a link is consumed. |
| SubscriptionEffects.BeginningAReadIff | apps/web/src/CompanySubscriptionPage.tsx:171-239 | A load or a page begins the newest, clean read and abandons the one before; a page only if nothing is locked. |
| SubscriptionEffects.EarlyMismatch | apps/web/src/CompanySubscriptionPage.tsx:184-193 | Another company in a load's early answer shuts the latch at once, exactly if no read and no mismatch came after the load. |
| SubscriptionEffects.ConfirmingSendsIff | apps/web/src/CompanySubscriptionPage.tsx:311-331 | Confirming sends the acknowledged review as it stands on screen, under a fresh key, exactly under the guards of confirm; of an unfit review nothing remains. |
| SubscriptionEffects.RetryingSendsIff | apps/web/src/CompanySubscriptionPage.tsx:311-331 | A retry sends the recorded attempt again, key, body and review, exactly if it is uncertain and nothing is under way. |
| SubscriptionEffects.ReturningRecordsSuccess | apps/web/src/CompanySubscriptionPage.tsx:333-344 | An answer records the success, consumes the link and reads anew; after the wait was cancelled it is ignored. |
| SubscriptionEffects.ThrowingRecordsTheOutcome | apps/web/src/CompanySubscriptionPage.tsx:345-353 | A failure of a first request is recorded as uncertain, in conflict or rejected by what the error can mean; that of a retry leaves the attempt uncertain; the latch shuts exactly if the context is in doubt. |
| SubscriptionEffects.DismissingIsAllowedIff | apps/web/src/CompanySubscriptionPage.tsx:371-377 | A definite outcome is dismissed exactly if the last read succeeded and nothing is under way; then the page can choose again. |
| SubscriptionEffects.LeavingRemembers | apps/web/src/CompanySubscriptionPage.tsx:89-100 | Leaving remembers a command being sent as uncertain, and any other as it is. |
| SubscriptionOrders.WhatIsChosenIsSent | apps/web/src/CompanySubscriptionPage.tsx:256-331 | From any ready page, selecting a plan, toggling any options, reviewing, acknowledging and confirming sends one command for just that plan and those options at the version loaded last. |
| SubscriptionOrders.SuccessIsTold | apps/web/src/CompanySubscriptionPage.tsx:333-344 | A request taken up and answered is recorded as a success and has taken effect. |
| SubscriptionOrders.RefusalIsTold | apps/web/src/subscription-change-safety.ts:51-77 | A first request refused with a conclusive error is recorded as in conflict or rejected, and its attempt never takes effect. |
| SubscriptionOrders.PagesAreReached | apps/web/src/CompanySubscriptionPage.tsx:74-377 | Every page of a run with its network is one these results are about. |
| SubscriptionSafety.CompanyIdsAreNumbers | apps/web/src/subscription-change-safety.ts:18 | A company id is valid exactly if it is a number from 1 on as JavaScript writes it. |
| SubscriptionSafety.FindPlanIsFirst | apps/web/src/CompanySubscriptionPage.tsx:250-253 | The plan shown for an id is the first of the catalogue that has it, if any does. |
| SubscriptionComponent.SubscriptionBody.Handle | apps/web/src/CompanySubscriptionPage.tsx:74-377 | Every event, handled by the page's code, is a step of the state machine; from any state the code has reached, what is shown is what the answers stored since the mount told, options stay closed, a shown review stays current, the latch is open only by the newest clean read, and a first send carries what is shown and so what was told. |
| SubscriptionComponent.SubscriptionBody.ApplyCatalog | apps/web/src/CompanySubscriptionPage.tsx:109-128 | The code of applyCatalog, statement by statement, does the step that `AnswerIsTaken` pins. |
| SubscriptionComponent.SubscriptionBody.Confirm | apps/web/src/CompanySubscriptionPage.tsx:311-334 | A first send or a retry up to its await, with every guard of the source. |
| SubscriptionComponent.SubscriptionBody.CommandReturned | apps/web/src/CompanySubscriptionPage.tsx:334-345 | Records the success, forgets the link and reloads, unless aborted or unmounted. |
| BarcodeScanner.NoLostWakeup | apps/web/src/InventoryBarcodeScanner.tsx:108-175 | In every reachable state a non-empty queue has the worker running with a request out, and a current request is for the queue's head. |
| BarcodeScanner.AcceptedScansAreResolvedInOrder | apps/web/src/InventoryBarcodeScanner.tsx:108-210 | The scans accepted since the last reset are those answered since, in order, followed by the queue; each once. |
| BarcodeScanner.AppliedAtMostOnceInOrderAndInTime | apps/web/src/InventoryBarcodeScanner.tsx:81-163 | Scans are applied at most once, in the order of acceptance, and none accepted before a reset, disabling or unmount is applied after it. |
| BarcodeScanner.StaleAnswerTakesNothing | apps/web/src/InventoryBarcodeScanner.tsx:115-164 | The answer to a stale scan removes nothing enqueued since, even of the same value, and the worker goes on with the head. |
| BarcodeScanner.StepKeepsInv | apps/web/src/InventoryBarcodeScanner.tsx:76-210 | Every event keeps the invariant the three results rest on. |
| ScanQueue.ScannerIsAPlainQueue | apps/web/src/InventoryBarcodeScanner.tsx:76-210 | Over every run of every interleaving the scanner, with its worker, epochs and stale answers, behaves as one plain queue of trimmed values: what waits, in which order, what was applied and which answer is stale. |
| ScanQueue.CurrentAnswer | apps/web/src/InventoryBarcodeScanner.tsx:117-163 | The answer to a current request applies the queue's head exactly if it was resolved while enabled and not blocked, takes the head out either way and requests the next. |
| ScanQueue.ScanIsAdmittedIff | apps/web/src/InventoryBarcodeScanner.tsx:177-210 | A scan is accepted, with its trimmed text, exactly if enabled, not blocked, not blank and with fewer than 20 waiting; otherwise nothing happens. |
| ScanQueue.ResetForgets | apps/web/src/InventoryBarcodeScanner.tsx:81-103 | A reset or unmount empties the queue and makes the request on the way stale, and applies nothing. |
| ScanQueue.BurstIsAppliedWhole | apps/web/src/InventoryBarcodeScanner.tsx:108-210 | From an idle scanner up to 20 scans in a row, each resolved, are all applied in order. |
| BarcodeScanner.Scanner.DrainUntilAwait | apps/web/src/InventoryBarcodeScanner.tsx:113-117 | The loop drops stale heads and stops at the first current one, with its request sent, or at an empty queue. |
| BarcodeScanner.Scanner.EnqueueScan | apps/web/src/InventoryBarcodeScanner.tsx:177-210 | Accepts a scan unless disabled, blocked, blank or full, and starts the worker if it is idle. |
| BarcodeScanner.Scanner.ResumeAfterAwait | apps/web/src/InventoryBarcodeScanner.tsx:124-165 | The continuation does the step of an answer that `CurrentAnswer` and `StaleAnswerTakesNothing` pin: applies, takes the entry out by identity, and drains on. |
| BarcodeScanner.Scanner.CleanUp | apps/web/src/InventoryBarcodeScanner.tsx:95-102 | Unmounting makes every accepted scan stale. |
| AttemptKeys.EffectsMatchReports | apps/web/src/GeneralProjectsPage.tsx:41-52 | A command takes effect as often as its success was reported, plus at most once for the attempt still open. |
| AttemptKeys.KeptCommandOnce | apps/web/src/EmployeeExpensesPage.tsx:167-188 | A command whose key is kept takes effect at most once ever, and has done so once success is reported. |
| AttemptKeys.SucceedKeepsInv | apps/web/src/GeneralProjectsPage.tsx:48-50 | Forgetting the key on success keeps every key accounted for. |
| ProjectSender.ExactlyOncePerIntent | apps/web/src/GeneralProjectsPage.tsx:41-52 | If no command is sent while an awaited send of it can still succeed, it takes effect at most once over any retries, and exactly once per reported success. |
| SenderViews.ClickIsSafeIffNotAwaited | apps/web/src/GeneralProjectsPage.tsx:41-52 | After any run in which sends of a command were kept apart, a click of it is safe in every run that looks the same to the page, whatever follows without an overlap, exactly if no send of it is awaited. |
| SenderViews.HeldThroughRun | apps/web/src/GeneralProjectsPage.tsx:41-52 | As long as no success is reported for a key, there is a run that looks the same in which all requests of the key are still on the way. |
| ProjectSender.ClickBreaksTheCountIff | apps/web/src/GeneralProjectsPage.tsx:41-52 | Seen from the network, a click of a command can break the exactly-once count without a further overlap exactly if an awaited send of it can still succeed. |
| ProjectSender.OneOverlapBreaksTheCount | apps/web/src/GeneralProjectsPage.tsx:41-52 | While a send can still succeed, one overlapping click and both returns report two successes for one effect. |
| ProjectSender.OverlapRepeatsAnEffect | apps/web/src/GeneralProjectsPage.tsx:41-52 | Overlapping sends can make one intent take effect twice. |
| ProjectSender.RequestSender.Prepare | apps/web/src/GeneralProjectsPage.tsx:45-47 | A retry reuses the remembered key; a new command stores its own. |
| SenderOutcomes.RetriedCommandTakesEffectOnce | apps/web/src/GeneralProjectsPage.tsx:41-52 | From any state a command that fails any number of times, is sent again each time and is then carried out has one effect under one key, one reported success, and no key left. |
| ExpensePage.ClaimsExactlyOnce | apps/web/src/EmployeeExpensesPage.tsx:69-188 | Over every run of any number of mounts, a claim takes effect exactly once per reported success and a claim version is submitted at most once, if no mount left a key of the command behind. |
| ExpenseViews.RemountIsSafeIffNothingHeld | apps/web/src/EmployeeExpensesPage.tsx:65-81 | A new mount keeps that promise, in every run that looks the same to the page and whatever follows, exactly if the old one held no key of the command. |
| ExpensePage.ExpenseJourney.Begin | apps/web/src/EmployeeExpensesPage.tsx:134-149 | Sends nothing while busy or gone, and otherwise under the body's remembered or a fresh key. |
| ExpenseOutcomes.ClickSendsIff | apps/web/src/EmployeeExpensesPage.tsx:134-149 | A click sends one request under the remembered or a fresh key exactly if the page is there and not busy. |
| ExpenseOutcomes.SuccessFreesThePage | apps/web/src/EmployeeExpensesPage.tsx:150-165 | A success is reported with its request's key, frees the page and forgets the key unless it is kept; a page that is gone does nothing. |
| ExpenseOutcomes.RetriedCommandTakesEffectOnce | apps/web/src/EmployeeExpensesPage.tsx:134-188 | From any idle page a command that fails any number of times and is then carried out has one effect under one key and one reported success, and the page is idle again. |
| PayrollCommands.CommandsAtMostOnce | apps/web/src/PayrollPage.tsx:92-118 | Over every run of any number of mounts no command takes effect twice, each reported success is of a different command that took effect, and a second command is sent only once the first was reported done or refused, or left behind by its mount. |
| PayrollCommands.OnlyTheSameCommand | apps/web/src/PayrollPage.tsx:92-118 | While a command is pending the only thing that can be sent is that command. |
| PayrollCommands.Definite | apps/web/src/PayrollPage.tsx:106-108 | The page's test holds exactly for errors that only a refusal can throw; not for lost answers, statuses outside 400 to 499, 408, 425 and 429, and texts that mention a request in progress. |
| PayrollOutcomes.FailureKeepsOrDrops | apps/web/src/PayrollPage.tsx:104-113 | An inconclusive failure keeps the pending command with its key; every other error drops it as refused. |
| PayrollOutcomes.ClickSendsIff | apps/web/src/PayrollPage.tsx:92-118 | A click sends one request under a key never used exactly if the page is there, idle and has nothing pending. |
| PayrollOutcomes.RetryResends | apps/web/src/PayrollPage.tsx:92-98 | A retry sends the pending command again under its own key. |
| PayrollOutcomes.NextMountStartsIdle | apps/web/src/PayrollPage.tsx:64-68 | Leaving drops the pending command and hears of nothing; the next mount starts idle. |
| PayrollOutcomes.RetriedCommandTakesEffectOnce | apps/web/src/PayrollPage.tsx:92-118 | From any idle page a command that fails inconclusively any number of times, is retried each time and then carried out has one effect under one key and one reported success. |
| PayrollRefusals.RefusalIsFinalIffSentOnce | apps/web/src/PayrollPage.tsx:104-110 | A refusal is final in every run that looks the same to the page, whatever follows, exactly if the page sent the command once. |
| PayrollRefusals.RetriedRefusal | apps/web/src/PayrollPage.tsx:104-110 | For a retried command there is a run that looks the same in which an earlier request, still on the way, takes effect after the refusal. |
| PayrollRefusals.LeavingIsSafeIffNothingPending | apps/web/src/PayrollPage.tsx:92-99 | Leaving the page leaves no command behind that may still take effect, in every run that looks the same to it, exactly if nothing is pending. |
| PayrollCommands.DroppedIsFinalIffNothingOnTheWay | apps/web/src/PayrollPage.tsx:104-110 | Seen from the network, a command that was refused or left behind never takes effect exactly if it has not and no request of it can arrive. |
| PayrollRefusals.RefusedYetApplied | apps/web/src/PayrollPage.tsx:104-110 | A command refused on a retry can still take effect. |
| PayrollRefusals.OnlyRequestRefusedIsFinal | apps/web/src/PayrollPage.tsx:104-110 | A command refused on its only request never takes effect. |
| PayrollCommands.PayrollWorkspace.StartExecute | apps/web/src/PayrollPage.tsx:92-98 | The guarded start of a command does its step. |
| PayrollCommands.PayrollWorkspace.Failed | apps/web/src/PayrollPage.tsx:104-113 | The handler does the step that `FailureKeepsOrDrops` pins. |
| ReadLanes.PayrollReadIsCurrent | apps/web/src/PayrollPage.tsx:19-35 | From the first render on, a payroll read never yields data of another path or refresh count, and after the render's effect only the newest request's. |
| ReadLanes.NewestAnswerIsYielded | apps/web/src/PayrollPage.tsx:19-35 | Once the effect of a render has run, the newest request is for what is rendered, its answer is what the read yields, its failure yields nothing, and no other answer changes anything. |
| ReadLanes.EffectSendsWhatIsRendered | apps/web/src/PayrollPage.tsx:22-32 | The effect of a render with a path sends one request for just that, and yields nothing until it is answered. |
| ReadLanes.ClaimListIsNewest | apps/web/src/EmployeeExpensesPage.tsx:83-103 | The list shows the newest load's answer or error or nothing; an answer is stored, or a failure reported without data, exactly if it is of the newest load of the current query on a living page. |
| ReadLanes.LoadStoresIffNewest | apps/web/src/GeneralProjectsPage.tsx:143-202 | A lane stores an answer, and is cleared by a failure, or in the detail lane kept, exactly if the load was sent and nothing newer went through the lane; none begun before a conflict refresh stores anything after it. |
| ReadLanes.BegunIsNewest | apps/web/src/GeneralProjectsPage.tsx:143-302 | A load advances its lane's sequence alone and is cleared at once without a selection; a refresh advances all five and changes nothing yet. |
| ReadLanes.RefreshStoresTogether | apps/web/src/GeneralProjectsPage.tsx:294-318 | A refresh stores its five answers together exactly if they came, the selection is the same and no detail load came after it; other lanes stay. |
| ReadLanes.RefreshStoresNewestIff | apps/web/src/GeneralProjectsPage.tsx:294-318 | What a refresh stores is the newest of a lane exactly if the lane's sequence is still the refresh's; for the detail it always is. |
| ReadLanes.RefreshMayOverwriteNewerPhases | apps/web/src/GeneralProjectsPage.tsx:294-318 | With any project selected, a refresh can overwrite phases loaded after it began. |
| ReadLanes.PayrollRead.Settle | apps/web/src/PayrollPage.tsx:26-30 | An answer or error is stored, tagged with its identity, unless its controller was aborted. |
| ReadLanes.ClaimList.StoreClaims | apps/web/src/EmployeeExpensesPage.tsx:91-97 | The continuation stores the answer only while active. |
| ReadLanes.ProjectReads.FinishLoad | apps/web/src/GeneralProjectsPage.tsx:156-194 | The continuation stores or clears only under the lane's own sequence. |
| ReadLanes.ProjectReads.FinishRefresh | apps/web/src/GeneralProjectsPage.tsx:309-316 | The five results are stored together or not at all. |
| Calendar.DayNumberOrder | apps/web/src/PayrollPage.tsx:231-234 | Day numbers order dates as the calendar does, so adding days is moving through dates. |
| Calendar.DayNumberIsEcma | apps/web/src/PayrollPage.tsx:231-234 | Day numbers are those of ECMA-262, so months and years have their lengths, leap years included. |
| Calendar.DateOfDayNumber | apps/web/src/PayrollPage.tsx:231-234 | Reading a date back from its day number gives the date. |
| Calendar.DayZeroIsMonthEnd | apps/web/src/FiscalPage.tsx:38 | Day 0 of the next month is the last day of the month, in leap years and in December too. |
| Calendar.IsoOrder | apps/web/src/PayrollPage.tsx:141-142 | ISO texts of four-digit years compare as strings exactly as their dates do. |
| FiscalPeriods.NewYearTilesTheYear | apps/web/src/FiscalPage.tsx:32-41 | For 1000 to 9999 the twelve periods are the months: they start and end with the year, and each starts the day after the one before ends. |
| FiscalPeriods.PeriodsPartitionTheYear | apps/web/src/FiscalPage.tsx:32-41 | By string comparison every date is in period i exactly if it is in month i + 1 of that year. |
| FiscalPeriods.WellFormedExactlyForFourDigits | apps/web/src/FiscalPage.tsx:32-41 | The draft starts on a well-formed ISO date exactly for years of four digits. |
| FiscalPeriods.StorePeriods | apps/api/prisma/demo-seed.ts:168-178 | The loop stores each month's first and last day. |
| FiscalPeriods.PickedRowContainsTheDate | apps/api/prisma/demo-seed.ts:197 | The row picked by a date's month digits contains the date exactly in the stored year, and is then the only one that does. |
| PayrollDates.CreateRunSpansTheMonth | apps/web/src/PayrollPage.tsx:129-136 | A run spans the month's first day to the day after its last, December included, and is refused exactly outside years 1 to 9998. |
| PayrollDates.OnlyMonthsAreSent | apps/web/src/PayrollPage.tsx:131-133 | Only texts of a month in those years are sent. |
| PayrollDates.RunsMeet | apps/web/src/PayrollPage.tsx:132-135 | A month's run ends where the next month's begins. |
| PayrollDates.RunsTileTime | apps/web/src/PayrollPage.tsx:132-135 | A date is inside a run by string comparison exactly if it is in its month. |
| PayrollDates.AcceptsExactlyInnerDates | apps/web/src/PayrollPage.tsx:137-146 | The handler accepts a text exactly if it is the ISO text of a date strictly between start and end. |
| PayrollDates.SaveEnabledIffAccepted | apps/web/src/PayrollPage.tsx:240 | The button is enabled for exactly the dates the handler accepts if and only if the agreement has an end whose year is at most the start's year or 1000. |
| PayrollDates.OffersExactlyInnerDates | apps/web/src/PayrollPage.tsx:231-239 | For every date of the input and every agreement: the bounds offer the dates after the start, unless that is 9999-12-31, and before the end, if there is one after 0001-01-01. |
| PayrollDates.OfferedIffAccepted | apps/web/src/PayrollPage.tsx:228-243 | Bounds and handler agree on every date exactly if the agreement has an end after 0001-01-01 and does not start on 9999-12-31. |
| PayrollDates.FormSubmitsIffAccepted | apps/web/src/PayrollPage.tsx:228-243 | Bounds and button together let through what the handler accepts exactly if the agreement has an end. |
| PayrollDates.YearOfFiveDigits | apps/web/src/PayrollPage.tsx:238-240 | The year 30000 passes bounds and button of an open-ended agreement and is refused. |
| DemoLedger.BooksStayBalanced | apps/api/prisma/demo-seed.ts:194-404 | Over any calls whose journals balance, posted debits equal posted credits, also when a call fails half way through the script. |
| DemoLedger.ApplyMovesBothSides | apps/api/prisma/demo-seed.ts:194-404 | A call moves posted debits and posted credits by what it posts, by nothing as a draft or if its number exists, and by equal amounts exactly if its journal balances. |
| LedgerBalances.ReceiptMoves | apps/api/prisma/demo-seed.ts:350-374 | A new posted receipt raises its cash account and lowers 1130 by its amount and moves no other account, nor any if they are one; the receivable owes that much less; a draft, an existing number and an unknown item move nothing. |
| LedgerBalances.PaymentMoves | apps/api/prisma/demo-seed.ts:381-404 | A new posted payment raises 2110 and lowers 1120 by its amount and moves no other account; the payable owes that much less. |
| LedgerBalances.JournalMoves | apps/api/prisma/demo-seed.ts:194-205 | A new posted journal moves each account by its own lines, and no item. |
| LedgerBalances.RunAddsUp | apps/api/prisma/demo-seed.ts:194-404 | Over every script every account moves by the postings, and every item by the payments, of the calls carried out, each number counted once. |
| DemoLedger.ItemsFollowSettlements | apps/api/prisma/demo-seed.ts:350-404 | From any start and over every run, an open item's outstanding amount falls by its new posted allocations, its version rises by one with each, it is SETTLED exactly at zero after the last, and without any it is unchanged. |
| DemoLedger.OriginalLessAllocatedIff | apps/api/prisma/demo-seed.ts:367-371 | Outstanding is original less posted allocations after a run exactly if it was before. |
| DemoLedger.CreditedItemsAreLower | apps/api/prisma/demo-seed.ts:347-409 | It is not for the seed's receivable and payable, which a credit and a debit note have lowered: they end at 12700 and 7650. |
| DemoLedger.RerunEqualsOneRun | apps/api/prisma/demo-seed.ts:194-404 | Stopping after any call and running the whole script again gives the ledger of one uninterrupted run. |
| DemoLedger.NumbersStayUnique | apps/api/prisma/demo-seed.ts:195-196 | No two documents of a kind get one number. |
| DemoLedger.Ledger.CreateJournalDocument | apps/api/prisma/demo-seed.ts:194-205 | Creates a journal once per number. |
| DemoLedger.Ledger.CreateReceipt | apps/api/prisma/demo-seed.ts:350-374 | The code does the call that `ReceiptMoves` pins, in one transaction, or fails leaving nothing behind. |
| DemoLedger.Ledger.CreatePayment | apps/api/prisma/demo-seed.ts:381-404 | The same on the payable side. |
| Base64.DecodeEncode | apps/web/src/CatalogImportModal.tsx:17-23 | Decoding by section 4 of RFC 4648 gives back every byte string. |
| Base64.EncodeDecode | apps/web/src/CatalogImportModal.tsx:22 | The encoding is the only text that decodes to its bytes. |
| Base64.GroupIsOneNumber | apps/web/src/CatalogImportModal.tsx:22 | The octets of a group and its sextets are one 24-bit number. |
| Base64.GroupsAreWritten | apps/web/src/CatalogImportModal.tsx:22 | Each group is written with the letters of the standard alphabet, and padded. |
| Base64.EncodeInChunks | apps/web/src/CatalogImportModal.tsx:17-23 | The loop gives the same text for every chunk size. |
| Base64.Base64Bytes | apps/web/src/CatalogImportModal.tsx:17-23 | With chunks of 8192 bytes it gives a text that decodes to the file. |
| PoolOptions.DatabaseUrlWithPoolOptions | apps/api/src/database-pool-options.ts:25-29 | Each option is set exactly once to its value, and unrelated parameters keep values and order. |
| PoolOptions.DatabaseUrlWithDefaultPoolOptions | apps/api/src/database-pool-options.ts:31-37 | Only missing options are set; present ones keep their values, repeated ones included. |
| PoolOptions.OptionsByName | apps/api/src/database-pool-options.ts:17-29 | Each option arrives under its name in the URL. |
| PoolOptions.DefaultsByName | apps/api/src/database-pool-options.ts:9-37 | Each missing option gets its default: 10, 1, 10000, 1000 and 1800. |
| PoolOptions.SetKeepsThePlace | apps/api/src/database-pool-options.ts:27 | A name that is there keeps its first place and loses the others; a new one comes last. |
| PoolOptions.PoolOptionsLastWriteWins | apps/api/src/database-pool-options.ts:25-29 | Setting options twice is setting the later ones, and idempotent. |
| PoolOptions.LastWriteWins | apps/api/src/database-pool-options.ts:27 | The same for any list of distinct names, by section 6.2 of the WHATWG URL Standard. |
| PoolOptions.DefaultsAfterOptionsChangeNothing | apps/api/src/database-pool-options.ts:31-37 | Applying defaults after options changes nothing. |
| PoolOptions.DefaultsAreIdempotent | apps/api/src/database-pool-options.ts:31-37 | Applying defaults twice is applying them once. |
| PoolOptions.SetAllKeepsOthers | apps/api/src/database-pool-options.ts:27 | Either loop leaves the other parameters as they were, in order. |
| JournalDraft.RunKeepsFit | apps/web/src/ManualJournalsPage.tsx:477-527 | Over every run of edits, default changes and late rates each entry keeps two lines, and no line has both sides positive or two counterparties. |
| JournalDraft.EditTouchesOneLine | apps/web/src/ManualJournalsPage.tsx:482-499 | A line edit sets the field it names, blanks the other side for a positive amount, sets one counterparty or none, and changes nothing else. |
| JournalEdits.EditsPutIn | apps/web/src/ManualJournalsPage.tsx:452-527 | What each other edit sets: dates, texts, an empty entry; and when a date counts as chosen. |
| JournalEdits.LinesPutIn | apps/web/src/ManualJournalsPage.tsx:466-527 | What each other edit does to lines: rates by position, currencies where none was, a blank line at the end. |
| JournalEdits.SubmitsExactly | apps/web/src/ManualJournalsPage.tsx:530-558 | A payload is sent exactly if period and text are given, the inputs hold what a browser lets through, and the payload is fit for the server and carries all the draft holds: no unfit draft is let through and no fit one held back. |
| JournalEdits.TypedJournalIsSent | apps/web/src/ManualJournalsPage.tsx:482-558 | An entry typed from scratch is sent as typed: the amount as debit of the first account and credit of the second. |
| JournalDraft.EditsLeaveTheRest | apps/web/src/ManualJournalsPage.tsx:464-527 | Every other edit, default and late rate leaves all other entries and lines as they were, in their order. |
| JournalDraft.RemoveTakesOneLine | apps/web/src/ManualJournalsPage.tsx:823-834 | Removing a line closes the gap and keeps all other lines in order. |
| JournalDraft.ChosenDatesStay | apps/web/src/ManualJournalsPage.tsx:452-465 | Once a date was chosen, or for a stored journal, no default replaces an entry's date. |
| JournalDraft.SubmittedPayload | apps/web/src/ManualJournalsPage.tsx:530-558 | After any edits a submitted payload is the draft's entries and lines in order with all they hold, numbered 1 to n at both levels, each line with one positive side, a positive rate and at most one counterparty, texts trimmed, each entry and the whole balanced within the tolerance. |
| JournalDraft.SentLineIsOneSidedIff | apps/web/src/ManualJournalsPage.tsx:546-557 | By the form's own checks alone a sent line has one positive side and a positive rate exactly if amount and rate are at least half a step; what the inputs let through is. |
| JournalDraft.DraftNumbersMayRepeat | apps/web/src/ManualJournalsPage.tsx:838-850 | The draft's own line numbers can repeat, so the renumbering is needed. |
| JournalDraft.JournalForm.UpdateLine | apps/web/src/ManualJournalsPage.tsx:482-499 | The handler does the edit that `EditTouchesOneLine` pins, and keeps the draft fitting. |
| Paging.AllPagesGiveTheList | apps/web/src/AccountsPage.tsx:33-38 | The pages fetched from an unchanging list are the whole list in order, for any page size. |
| Paging.AllPagesOfAChangingList | apps/web/src/AccountsPage.tsx:33-38 | What a fetch gives if the list changes after its first request. |
| Paging.AllPagesGiveTheLaterListIff | apps/web/src/AccountsPage.tsx:33-38 | It gives the later list exactly if the first page is the same and the counted pages reach its end. |
| Paging.FilteredRowIsOnOnePage | apps/web/src/BankReconciliationPage.tsx:326-328 | Each filtered line is on exactly one page, and on one the pager reaches. |
| Paging.PagesShowEveryRow | apps/web/src/BankReconciliationPage.tsx:326-328 | Side by side the pages are the filtered list. |
| Paging.FilteredExactly | apps/web/src/BankReconciliationPage.tsx:319-325 | A line is listed as often as the session holds it if it meets the filters, and otherwise not. |
| Paging.FilteredKeepsTheOrder | apps/web/src/BankReconciliationPage.tsx:319-325 | Filtering keeps the order of the lines. |
| Paging.StatusFiltersPartition | apps/web/src/bank-reconciliation.ts:27-32 | The four status filters split the list: each line is under exactly one. |
| Paging.EmptyIffPastTheEnd | apps/web/src/BankReconciliationPage.tsx:326-330 | The table is empty although lines match exactly if the page is past the last one. |
| Paging.TurnsStayOnAPage | apps/web/src/BankReconciliationPage.tsx:304-330 | The user's turns stay on a page; a load does exactly if the page still exists after it. |
| Paging.TurnsMove | apps/web/src/BankReconciliationPage.tsx:304-330 | What each turn does to page, filters and session. |
| Paging.EveryPageIsReached | apps/web/src/BankReconciliationPage.tsx:326-330 | The pager gets from any page to any other in as many turns as lie between. |
| Paging.MeetsIff | apps/web/src/BankReconciliationPage.tsx:319-325 | A line meets the filters exactly if it has the status, its amount shows the text somewhere, and it was booked neither before the first date nor after the last. |
| Paging.StatesAre | apps/web/src/bank-reconciliation.ts:21-32 | An approved match counts before a proposed one, and either before a classification. |
| Paging.LoadMayLeaveThePage | apps/web/src/BankReconciliationPage.tsx:304-330 | Approving the match of the 51st unmatched line empties the table with the pager hidden. |
| LocaleManifest.Manifest | apps/web/vite.config.ts:19-60 | A directory is accepted exactly if every locale file is good and Arabic is there; the manifest lists each once, Arabic first, then in collation order; the duplicate error never arises. |
| LocaleManifest.ListingOrderDoesNotMatter | apps/web/vite.config.ts:49-60 | Acceptance and manifest do not depend on the listing order. |
| LocaleManifest.MetadataIsSpelledOut | apps/web/vite.config.ts:19-46 | A file is good exactly if its literal spells a locale with canonical tags, a name and a direction, and the file is named after the code; that is then its locale. |
| LocaleManifest.SortedIsUnique | apps/web/vite.config.ts:55 | Any sort by the comparison gives the same manifest. |

## Left out

- React rendering, translation, focus, file pickers, downloads and the HTTP, database and mail plumbing: not part of this model.
- The posting engine, inventory valuation, bank matching and approval services: the server appears only as a key-to-result table.
- ProjectSender.ExactlyOncePerIntent: for runs in which no command is sent while a send of it can still succeed; others break it, as ProjectSender.ClickBreaksTheCountIff shows.
- SubscriptionProtocol.NeverTwoOpenAttempts: safety only; a result ignored after cancelling can leave the attempt marked as sending, and nothing is claimed about when it ends.
- SubscriptionComponent.SubscriptionBody: the order of the option list, module read state, notices and the catalogue page number are not kept.
- The project page's list `load` and its comments lane: no claim; the list load has no sequence guard.
- The project, phase and task transition tables: constants.
- JournalDraft.SubmittedPayload: sent amounts are the numbers that `toMoney` and `toRate` write, not their text; numbers are reals, not floating point.
- A late exchange rate in the journal form is written by line index after an await; it is an edit of its own here, and nothing is claimed about which line it was meant for.
- FiscalPeriods.NewYear: years below 100, to which Date.UTC adds 1900, are left out; the year comes from a clock.
- Automatic document numbering in the seed: its upsert resets the next number, so only explicit numbers are modelled.
- DemoLedger.RerunEqualsOneRun: the script is stopped between calls; a transaction either happens or does not.
- PoolOptions.DatabaseUrlWithPoolOptions: works on the list of query parameters; parsing and serializing the rest of the URL are not modelled.
- LocaleManifest.Metadata: starts from the parsed metadata literal; the regular expressions that find it are not modelled, and which of several bad files is reported does depend on the listing.
- Paging.AllPagesGiveTheLaterListIff: all requests after the first see one list.
- `config.ts` limits and the permission seed: constants.
