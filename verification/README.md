# Verified model of the platform's stateful core

The project models the parts of the platform whose correctness rests on arithmetic over time, on the interleaving of
steps, or on a greedy choice, and proves what they keep:

- **Partner billing** (`BillingModel`, `BillingFold`, `BillingReport`, `BillingAmounts`, `BillingAnchor`,
  `BillingItems`, `BillingStops`, `BillingKeys`, `BillingSummary`, `BillingLines`): the fold of an unordered token
  report into fixed-length cycles, compared with a declarative bill (sets of distinct keys per cycle), its behaviour
  under reordering, over time, under payments and when items are stopped, and the itemised bill.
- **Payment proofs** (`PaymentLedger`, `PaymentRuns`, `PaymentBounds`, `PaymentOutcomes`, `PaymentInterleavings`): the
  proof table under the handlers of members and admins, run one after the other as the bot does, and their steps if they
  interleaved.
- **Redis singletons** (`TtlKey`, `BackgroundLease`, `LeaseProgress`, `StartupGate`, `StartupOutcomes`): the renewed
  background-owner lease and the serialized start-up, as interleaved workers over keys with a time to live; each Redis
  command is one step.
- **Force-stop retries** (`ForceStopRetry`, `RetryRecords`, `RetryDrain`): locking, bounded attempts with back-off, and
  how fast a loop that looks at the oldest fifty rows only drains them, at whatever cadence it ticks.
- **Latency measurement** (`DispatchPairing`) and **knowledge ingestion** (`DocumentText`, `ParagraphPacking`): two
  greedy algorithms and their optimality.
- **Audit retention** (`AuditRetention`, `AuditCleanup`): the Python reference against the SQL window query, and the
  nightly batch loop.
- **Client event queue** (`ClientEventQueue`, `ClientEventDelivery`) and **message splitting** (`MessageSplitter`).

`Sorting`, `Lists`, `Dedup`, `TextRuns`, `Decimal`, `Calendar`, `Runs`, `Numbers` and `Options` hold what several of
them share. `dafny verify dfyconfig.toml` checks the whole project.

Code that updates state step by step is written as methods with loops or as classes, each proved against a function of
its input or of the old state; the properties are lemmas about those functions. Protocols are step functions on a state
value, with the code between two interruption points as methods of a class where one object holds the variables.

## Reading guide and conventions

- Times are integers: microseconds of local wall-clock time since 1 January of year 1 in billing, microseconds in the
  retry code, whatever unit the caller uses elsewhere. They are taken as already parsed.
- Identifier fields of a report item hold the text left after trimming and lower-casing, `""` when there is none.
- A setting of 0 stands for "not configured", as `x or default` treats it.
- A lexicographic or stable order that SQL leaves open is taken as the order of the rows.
- The header of `token-bot/app/force_stop_retry.py` (lines 9-10) describes the back-off as 1, 2, 5, 15, 30 minutes and
  one hour; the table in the code (line 28) also waits 10 minutes and waits 30 minutes twice. The model follows the
  table.
- The bot takes one update at a time: its application sets no concurrent processing and no handler is registered as
  non-blocking (`token-bot/app/tg_bot.py:4325-4332`), so `PaymentBounds` runs whole handlers one after the other.
  `PaymentRuns` proves what even every interleaving of their steps keeps, and `PaymentInterleavings` says what would go
  wrong if updates were processed concurrently.
- Some results are sharper than one would expect from the code. Bounding each supervisor iteration by `ttl - renew` does
  not make the lease safe, because two iterations lie between two renewals; the exact bound counts both. Ended billing
  cycles keep their charges exactly because anchors are midnights. What is paid and pending can exceed what is accrued,
  when two members are asked for the same debt; exactly when it does is stated for every run. And although time alone
  never lowers what is accrued, stopping an item can, on the day of its activation or on the first day of a cycle: in a
  report of that item alone it then does, while in a larger one a shared seat or a part-filled block can hide it.
- Two results say that something does not hold. The start-up gate does not read the ready key again under the lock, so a
  worker that read it too early bootstraps a second time (`StartupOutcomes.OncePerRevisionExactlyWhen`). And seat keys
  join names with colons, so names with colons can collide (`BillingKeys.SeatKeysCanCollide`).
- The retry loop sleeps a minute between ticks (`token-bot/app/force_stop_retry.py:26`, 221) while a row may rest for up
  to an hour, so most ticks reach few rows. The drain results therefore count, of all ticks with a backend, only those
  that begin an hour after the end of the one counted before (`RetryDrain.Hours`); ticks an hour apart, which all count,
  are the special case `RetryDrain.DrainFast`. They hold for the rows locked up to an instant, while the lock loop goes
  on locking others.

## Model

| member | source | states |
|---|---|---|
| BillingModel.IndexBounds | token-bot/app/tg_bot.py:864-867 | an instant from the anchor on lies in exactly the cycle whose index the whole-second division gives |
| BillingModel.IndexAtMost | token-bot/app/tg_bot.py:864-867 | comparing a cycle index with `k` is comparing the instant with the start of cycle `k` and of the next, clamping at the anchor included |
| BillingModel.SupportRangeIsExact | token-bot/app/tg_bot.py:732-749 | for an item past the guards, the index range is exactly the set of cycles up to the current one whose period overlaps its window, so the inner test never rejects; an item stopped by the guards overlaps none |
| BillingModel.BlocksAreFewest | token-bot/app/tg_bot.py:651-654 | the blocks hold all supported users and no smaller number does |
| BillingModel.ChargesAreMonotone | token-bot/app/tg_bot.py:644-668 | more users or more supported users never lower the total, which is never negative |
| BillingModel.NobodyCostsNothing | token-bot/app/tg_bot.py:651-658 | no users and no supported users cost nothing, in every part of the charge |
| BillingModel.OneMoreUser | token-bot/app/tg_bot.py:655-658 | one more user adds exactly one user fee to the total and changes no other part of the charge |
| BillingModel.OneMoreSupported | token-bot/app/tg_bot.py:652-658 | one more supported user adds exactly one support and one infrastructure fee if the blocks so far are full, else nothing |
| BillingModel.SettingsAreConfigured | token-bot/app/tg_bot.py:598-653 | configured cycle and block lengths are used; 0 stands for 30 days and 15 users, anything below for 1 |
| BillingModel.SupportLastsItsDuration | token-bot/app/tg_bot.py:715-729 | without an end date and unless stopped, support lasts the item's duration in whole days, from the midnight before its activation |
| BillingModel.OneCycleOfSupport | token-bot/app/tg_bot.py:715-749 | an item activated on the first day of a cycle, for as long as a cycle is, is supported in that cycle and no other |
| BillingKeys.UserKeysAgreeExactlyWhen | token-bot/app/tg_bot.py:679-684 | two items have one user key exactly when the first identifier either has is the same in both |
| BillingKeys.FeeKeysAgreeExactlyWhen | token-bot/app/tg_bot.py:687-692 | they are one fee unit exactly for the same entitlement, else the same token, else the same user |
| BillingKeys.SeatKeysAgreeExactlyWhen | token-bot/app/tg_bot.py:695-708 | they have one seat exactly for the same user and bot, else the same deployment, else the same token and bot or the same user, as long as no user is named with a colon |
| BillingKeys.SeatKeysCanCollide | token-bot/app/tg_bot.py:695-708 | with a colon in a name two different users can get one seat key |
| BillingFold.BestLinesAreBest | token-bot/app/tg_bot.py:899-948 | the dictionary the fold leaves has one line per distinct key that counts and no other, and shows an item of the best rank for it |
| BillingFold.FeeLinesAreTheBill | token-bot/app/tg_bot.py:899-914 | the user-fee lines of a cycle are one per distinct fee key activated in it, each with its earliest activation |
| BillingFold.SeatLinesAreTheBill | token-bot/app/tg_bot.py:916-948 | the support lines of a cycle are one per distinct seat whose window overlaps it, each with the window that ends last |
| BillingReport.EnterFee | token-bot/app/tg_bot.py:902-914 | the update guarded by the first-seen instant changes one cycle's dictionary to the specified one, no other, and keeps the instants in step with the lines |
| BillingReport.EnterSupport | token-bot/app/tg_bot.py:939-948 | the same for the support dictionary and the latest window end |
| BillingReport.EnterRange | token-bot/app/tg_bot.py:929-948 | the inner loop enters the item in exactly the cycles of the range |
| BillingReport.FoldItem | token-bot/app/tg_bot.py:891-948 | one item, guards included, changes every cycle's dictionaries as the declarative step says |
| BillingReport.FoldReport | token-bot/app/tg_bot.py:887-948 | the imperative fold leaves, for every cycle up to the current one, exactly the declarative lines |
| BillingAmounts.PermutationKeepsTheBill | token-bot/app/tg_bot.py:891-994 | any permutation of the report gives the same cycle charges and totals |
| BillingAmounts.AccrualNeverFalls | token-bot/app/tg_bot.py:884-985 | for a fixed report and anchor the accrued total never falls as time passes |
| BillingAmounts.AccrualGrowsWithTheReport | token-bot/app/tg_bot.py:891-985 | a report that only gains items accrues no less |
| BillingAmounts.NewFeeKeyCosts | token-bot/app/tg_bot.py:891-985 | an item activated by now whose fee key is new in its cycle raises the accrued total by at least one user fee |
| BillingAmounts.NewFeeKeyAlone | token-bot/app/tg_bot.py:891-985 | and by exactly that if it brings no seat to any cycle |
| BillingAmounts.KnownItemCostsNothing | token-bot/app/tg_bot.py:891-914 | an item without a key, without an activation by now, or with its fee key charged in its cycle and no new seat adds nothing |
| BillingAmounts.EndedCyclesStayExactlyWhen | token-bot/app/tg_bot.py:806-827 | ended cycles keep their fee keys and seats at every later time, for every report, if and only if the anchor is a midnight or the microsecond before one |
| BillingAmounts.EndedChargeIsFinal | token-bot/app/tg_bot.py:960-981 | with such an anchor the charge of an ended cycle is the same at every later time |
| BillingAmounts.PaymentsSettleOlderFirst | token-bot/app/tg_bot.py:995-1023 | accrued is previous plus current; the debt lies between the previous debt and that plus the current charge, and payments reduce the current charge only after the previous total |
| BillingAnchor.ComputeCycleAnchor | token-bot/app/tg_bot.py:806-827 | the stored anchor, else the midnight before the earliest billable activation, else before now |
| BillingAnchor.EarliestIsFirst | token-bot/app/tg_bot.py:817-826 | the earliest billable activation is one of the report, and no billable one precedes it |
| BillingAnchor.AnchorIsFirstActivation | token-bot/app/tg_bot.py:817-861 | without a stored anchor, the anchor used, handed on and stored is the midnight before the first activation of an item with a fee key |
| BillingAnchor.NoActivationNoAnchor | token-bot/app/tg_bot.py:825-848 | without such an item it is the midnight before now, and nothing is stored or handed on |
| BillingAnchor.StoredAnchorStays | token-bot/app/tg_bot.py:813-855 | a stored anchor is used, handed on and kept |
| BillingAnchor.HasBillableActivation | token-bot/app/tg_bot.py:830-834 | whether some item is billable |
| BillingAnchor.Partner.PinAnchor | token-bot/app/tg_bot.py:837-861 | the stored anchor after the call and the anchor returned: nothing is returned, even of a stored anchor, for a report without a billable activation |
| BillingAnchor.AnchorIsPinnedOnce | token-bot/app/tg_bot.py:853-859 | after any series of reports the stored anchor is the midnight before the earliest activation of the first report that has one, and stays so |
| BillingAnchor.EveryAnchorIsAMidnight | token-bot/app/tg_bot.py:813-827 | whatever reports came before, the anchor a summary works with is a midnight, so ended cycles stay |
| BillingAnchor.NothingPrecedesItsAnchor | token-bot/app/tg_bot.py:817-827 | no chargeable activation of the report lies before the anchor made from it |
| BillingAnchor.SameElementsSameAnchor | token-bot/app/tg_bot.py:817-826 | the anchor does not depend on the order of the report |
| BillingAnchor.NothingChargedNothingOwed | token-bot/app/tg_bot.py:891-914 | a report in which nothing can be charged by now accrues nothing wherever its cycles start |
| BillingAnchor.NothingActivatedNothingOwed | token-bot/app/tg_bot.py:846-848 | so does one without a billable activation, for which no anchor is offered |
| BillingStops.StopKeepsSeatsExactlyWhen | token-bot/app/tg_bot.py:715-729 | stopping an item now or later leaves every seat charged so far exactly when the stop falls behind its window, or on neither the day of its activation nor the first day of the current cycle |
| BillingStops.HarmfulStopLowersAccrual | token-bot/app/tg_bot.py:916-948 | where a seat costs something, any other stop has lowered, by the time it is made, what a report of this item alone accrues |
| BillingStops.StopNeverLowersExactlyWhen | token-bot/app/tg_bot.py:916-948 | over all reports that contain the item: the stop lowers the accrued total of none of them exactly when the item is not charged yet, seats cost nothing, or the stop is harmless in the sense above |
| BillingStops.StopsCarryOver | token-bot/app/tg_bot.py:715-729 | a later report in which charged items are unchanged or harmlessly stopped carries all of them over |
| BillingStops.SnapshotsNeverAccrueLess | token-bot/app/tg_bot.py:1157-1197 | two snapshots of a partner, pinning included: if the later report carries over every item charged before, with its keys, activation and seats, the accrued total does not fall |
| BillingItems.DetailKeysAreInjective | token-bot/app/tg_bot.py:759-768 | two detail keys are equal exactly when cycle, kind and base key are |
| Dedup.Dedup | token-bot/app/tg_bot.py:970-978 | the loop with the set of seen keys computes the specified deduplication |
| Dedup.NothingDroppedExactlyWhen | token-bot/app/tg_bot.py:970-978 | deduplication leaves a list unchanged exactly when no key occurs twice |
| Dedup.DedupedKeepsKeys | token-bot/app/tg_bot.py:970-978 | deduplication keeps every key once and adds nothing |
| BillingItems.CycleListsEveryCharge | token-bot/app/tg_bot.py:970-993 | a cycle's deduplication drops nothing and lists as many lines as it has billable and supported users |
| BillingItems.BillListsEveryCharge | token-bot/app/tg_bot.py:1012-1016 | no key occurs twice in the bill of all cycles, so deduplicating it drops nothing |
| BillingSummary.SummarizeCycle | token-bot/app/tg_bot.py:960-993 | one cycle's summary is the declarative one: period, lines and charge |
| BillingSummary.Totals | token-bot/app/tg_bot.py:950-993 | the loop over the cycles lists all their summaries and sums the accrued and the previous total |
| BillingSummary.BillingCycleSummary | token-bot/app/tg_bot.py:870-1025 | the whole summary of a report, from the declarative bill: cycles, lines, totals and debts |
| BillingLines.FirstActivationStands | token-bot/app/tg_bot.py:899-914 | the line of a fee unit shows an activation in the cycle, and no activation of the unit in it is earlier |
| BillingLines.LatestWindowStands | token-bot/app/tg_bot.py:916-948 | the line of a seat shows a window that overlaps the cycle, and none of the seat that does ends later |
| BillingLines.CyclesTileTime | token-bot/app/tg_bot.py:950-985 | the cycles follow each other without a gap from the anchor on, each as long as configured, and `now` lies in the current one alone |
| BillingSummary.MonthItems | token-bot/app/tg_bot.py:771-789 | the items with a fee key activated within the period |
| BillingSummary.StoredDetails | token-bot/app/tg_bot.py:3346-3391 | a confirmation stores the whole bill when it has a line, else the deduplicated items of the current period |
| BillingSummary.ChargeableIsListed | token-bot/app/tg_bot.py:895-914 | a chargeable item puts a line on the bill |
| BillingSummary.FallbackListsOnlyUncharged | token-bot/app/tg_bot.py:3346-3352 | when the bill has no line, every item stored in its place is one nobody is charged for: it has no seat or is activated only later |
| BillingLines.MonthLinesAre | token-bot/app/tg_bot.py:771-789 | exactly the items with a fee key activated within the period, both ends included |
| BillingLines.FallbackListsUnitsOnce | token-bot/app/tg_bot.py:3346-3391 | stored in place of an empty bill, they are listed exactly once for every fee unit activated in the period |
| Calendar.DateTextInjective | token-bot/app/tg_bot.py:611-612 | different days have different `%Y-%m-%d` texts |
| Calendar.DaysBeforeYearCounts | token-bot/app/tg_bot.py:611-612 | years begin where the Gregorian calendar has them: 365 days each, one more for every fourth, but of the centuries only for every fourth |
| Calendar.PeriodKeyFacts | token-bot/app/tg_bot.py:611-612 | period keys are injective and contain no colon |
| PaymentLedger.BillingDesk.OfferPayment | token-bot/app/tg_bot.py:3167-3187 | the amount is noted for the member exactly when something is due and no proof is pending; the tables show the corresponding step of the ledger |
| PaymentLedger.BillingDesk.SavePhoto | token-bot/app/tg_bot.py:3198-3248 | a photo becomes a submitted proof of the noted amount and clears the note; without a note nothing is stored; the tables show the corresponding step of the ledger |
| PaymentLedger.BillingDesk.ConfirmedPaid | token-bot/app/tg_bot.py:1120-1136 | the sum over confirmed proofs |
| PaymentLedger.BillingDesk.MarkConfirmed | token-bot/app/tg_bot.py:3337-3427 | a submitted proof becomes confirmed for its noted amount and one row is stored from what was read before; any other proof changes nothing; the tables show the corresponding step of the ledger |
| PaymentLedger.BillingDesk.MarkRejected | token-bot/app/tg_bot.py:3495-3504 | a submitted proof becomes rejected; any other changes nothing; the tables show the corresponding step of the ledger |
| PaymentRuns.ProofsSettleOnce | token-bot/app/tg_bot.py:3337-3343 | in every interleaving a proof leaves `submitted` at most once, keeps its amount and never disappears |
| PaymentRuns.PaidOnlyGrows | token-bot/app/tg_bot.py:1120-1136 | in every interleaving the confirmed total never falls |
| PaymentRuns.LedgerBalances | token-bot/app/tg_bot.py:3394-3427 | after every run each confirmed proof has exactly one stored row with its amount, and the rows add up to the confirmed total |
| PaymentRuns.StoredDueExactlyWhen | token-bot/app/tg_bot.py:3392-3419 | the stored remaining debt is the recomputed one exactly when the paid total read is the one found at marking, or both readings find the debt settled |
| PaymentRuns.SerialConfirmsStoreTheDue | token-bot/app/tg_bot.py:3297-3427 | when confirmations follow each other, every stored remaining debt is the recomputed one |
| PaymentBounds.PhotoStaysWithinExactlyWhen | token-bot/app/tg_bot.py:3215-3238 | a photo keeps paid plus pending within what is accrued exactly when what was confirmed or is pending since its debt was read is covered by what accrued since; if nothing accrued, exactly when nothing is pending and nothing was confirmed since |
| PaymentBounds.StaysWithinExactlyWhen | token-bot/app/tg_bot.py:3167-3238 | a run of interleaved steps in which the accrued total does not fall stays within it exactly when every photo is covered so |
| PaymentBounds.HandlersAreARun | token-bot/app/tg_bot.py:4325-4332 | whole handlers one after the other are one of the interleavings of their steps |
| PaymentBounds.ConfirmationStoresTheDue | token-bot/app/tg_bot.py:3297-3427 | a whole confirmation stores one row with the debt that remains after it |
| PaymentBounds.PhotoFitsExactlyWhen | token-bot/app/tg_bot.py:3198-3238 | between whole handlers, a photo keeps the bound exactly when the proofs sent since its member was asked claim no more than accrued since; if nothing accrued, exactly when every one of them was rejected |
| PaymentBounds.UpdatesStayWithinExactlyWhen | token-bot/app/tg_bot.py:3152-3238 | whatever updates the bot takes, paid plus pending stays within what is accrued exactly when every photo fits so |
| PaymentBounds.TurnsNeverExceed | token-bot/app/tg_bot.py:3152-3238 | when nobody presses pay while another member is asked for a photo, the bound holds after every update |
| PaymentBounds.TwoMembersSubmitTwice | token-bot/app/tg_bot.py:3167-3187 | two members who are both asked before either sends a photo submit the whole debt twice |
| PaymentOutcomes.PayAsksExactlyWhen | token-bot/app/tg_bot.py:3152-3187 | pressing pay notes the whole debt when something is due and nothing is pending, and changes nothing otherwise |
| PaymentOutcomes.PhotoCountsExactlyWhen | token-bot/app/tg_bot.py:3198-3248 | a photo becomes a submitted proof of the noted amount exactly when its member was asked |
| PaymentOutcomes.ConfirmedDebtIsSettled | token-bot/app/tg_bot.py:3152-3427 | asking, photo and confirmation together settle the whole debt: paid is what is accrued, nothing is due, and the stored row says so |
| PaymentOutcomes.RejectedDebtIsAskedAgain | token-bot/app/tg_bot.py:3152-3504 | asking, photo and rejection leave the debt as it was, and pressing pay asks for it again |
| PaymentOutcomes.OnlySubmittedAreDecided | token-bot/app/tg_bot.py:3337-3504 | confirming or rejecting anything but a submitted proof changes no proof and stores no row |
| PaymentOutcomes.ConfirmedProofsCount | token-bot/app/tg_bot.py:1120-1136 | a confirmed proof counts with its confirmed amount, or with the noted one if none was stored; any other counts nothing |
| PaymentInterleavings.NeverMoreThanAccrued | token-bot/app/tg_bot.py:3167-3238 | if updates were processed concurrently: when members pay one at a time and nothing is marked between the two readings, paid plus pending plus asked for never exceeds what is accrued |
| PaymentInterleavings.ConfirmedDebtIsSubmittedAgain | token-bot/app/tg_bot.py:1173-1180 | if updates were processed concurrently: a confirmation between reading the paid total and counting pending proofs would let one member submit a settled debt again |
| BackgroundLease.RenewFitsTtl | backend_ai/backend/app/main.py:268-275 | for every setting the renewal interval is at least 5 and at most the lifetime minus 5 |
| BackgroundLease.TtlIsConfigured | backend_ai/backend/app/main.py:268-269 | a lifetime from 30 seconds on is used, 0 stands for 90, anything below for 30 |
| BackgroundLease.RenewIsConfigured | backend_ai/backend/app/main.py:272-275 | an interval that leaves five seconds at both ends is used, 0 stands for 30, others for the nearest such interval |
| BackgroundLease.SafeExactlyWhen | backend_ai/backend/app/main.py:283-312 | over all interleavings of two or more workers, at most one is flagged or runs jobs and it holds the unexpired token, exactly when the end of one iteration, the sleep, the beginning of the next and the stop fit the lifetime together |
| BackgroundLease.FiveSecondsAreSafe | backend_ai/backend/app/main.py:268-312 | with any settings and iterations of any length, less than five seconds around the renewal and for the stop are safe |
| BackgroundLease.SafeIterationsExactlyWhen | backend_ai/backend/app/main.py:737-774 | where only whole iterations and the stop are bounded, safety holds exactly when two iterations, the sleep and the stop are shorter than the lifetime |
| BackgroundLease.OneIterationBoundIsTooWeak | backend_ai/backend/app/main.py:737-774 | for every setting there is an unsafe run in which every iteration is shorter than `ttl - renew` and every stop is immediate |
| BackgroundLease.StepKeepsInv | backend_ai/backend/app/main.py:737-774 | every worker's step keeps the deadline invariant that implies safety |
| LeaseProgress.SleepsWithoutJobs | backend_ai/backend/app/main.py:737-774 | whatever the bounds, in every reachable state a worker that sleeps without having got the lease has neither the flag nor jobs |
| LeaseProgress.LostLeaseIsGivenUp | backend_ai/backend/app/main.py:754-762 | whatever the bounds, a worker that finds another's live token clears its flag, stops its jobs and sleeps, and leaves the key alone |
| LeaseProgress.FreeLeaseIsTaken | backend_ai/backend/app/main.py:295-302 | a worker that reads no token or its own goes on to set the key, and holds it for a whole lifetime unless another set it in between |
| LeaseProgress.HolderRunsTheJobs | backend_ai/backend/app/main.py:745-774 | having set the key a worker is flagged with its jobs running, and sleeps the renewal interval |
| LeaseProgress.ActionsLeadOn | backend_ai/backend/app/main.py:743-774 | every action brings a worker nearer to the end of its iteration or of its shutdown |
| LeaseProgress.CancelledOwnerStopsJobs | backend_ai/backend/app/main.py:873-878 | a cancelled owner stops its jobs and clears the flag before it looks at the key |
| LeaseProgress.ReleaseDeletesOwnKey | backend_ai/backend/app/main.py:182-191 | the release deletes a key with the worker's token and leaves any other |
| LeaseProgress.GoneHasReleased | backend_ai/backend/app/main.py:873-878 | in every reachable state a worker that is gone has no flag and its token is not in the key |
| BackgroundLease.Supervisor.Boot | backend_ai/backend/app/main.py:737-744 | a starting supervisor begins its first iteration |
| BackgroundLease.Supervisor.ReadKey | backend_ai/backend/app/main.py:295-300 | the code up to the first interruption is the worker's step in the protocol |
| BackgroundLease.Supervisor.Renew | backend_ai/backend/app/main.py:296-298 | the renewal is the worker's step |
| BackgroundLease.Supervisor.Claim | backend_ai/backend/app/main.py:301-302 | the conditional claim is the worker's step |
| BackgroundLease.Supervisor.UpdateFlag | backend_ai/backend/app/main.py:745-763 | the branch on the status is the worker's step |
| BackgroundLease.Supervisor.JobsSettled | backend_ai/backend/app/main.py:754-774 | finishing the start or stop of the jobs is the worker's step |
| BackgroundLease.Supervisor.Shutdown | backend_ai/backend/app/main.py:873-878 | jobs stop and the flag clears before the key is read and, if it is still this worker's, deleted |
| StartupGate.ReturnMeansBootstrapped | backend_ai/backend/app/main.py:194-254 | faults included: when the call has returned normally in any worker, some worker has completed the bootstrap |
| StartupGate.EventKeepsWitness | backend_ai/backend/app/main.py:209-254 | every step, fault or bypass keeps the fact that a ready key or a return has a completed bootstrap behind it |
| StartupGate.CleanRunsAreGuarded | backend_ai/backend/app/main.py:214-229 | without faults, no two workers are between getting and having released the lock while the critical section is shorter than the lock's lifetime |
| StartupGate.OneAtATimeExactlyWhen | backend_ai/backend/app/main.py:147-152 | and that condition is exact for two or more workers |
| StartupGate.ShortBootstrapsNeverOverlap | backend_ai/backend/app/main.py:147-152 | with any settings and without faults, bootstraps shorter than thirty seconds never overlap |
| StartupGate.LifetimesAreConfigured | backend_ai/backend/app/main.py:147-152 | configured lifetimes are used, 0 stands for 180 and 300 seconds; the lock lives at least 30 and the ready key as long as the lock |
| StartupOutcomes.ReadyMeansReturn | backend_ai/backend/app/main.py:209-214 | a worker that reads a live ready key returns without touching the lock or bootstrapping; any other goes for the lock |
| StartupOutcomes.LateWorkersSkip | backend_ai/backend/app/main.py:208-243 | along every run without faults, while the ready key is live no worker that had not gone for the lock before it was set ever bootstraps |
| StartupOutcomes.OncePerRevisionExactlyWhen | backend_ai/backend/app/main.py:194-243 | even without faults, the bootstrap runs at most once in every interleaving exactly when there are not two workers, whatever the lifetimes |
| StartupOutcomes.MarkingMakesReady | backend_ai/backend/app/main.py:222-223 | the ready key set after a bootstrap is live for its whole lifetime |
| StartupOutcomes.ActionsLeadOn | backend_ai/backend/app/main.py:207-254 | every action, failed or not, brings a worker nearer to its end unless it finds the lock taken; only the local bootstrap can make the call raise |
| StartupOutcomes.FaultsAreHandled | backend_ai/backend/app/main.py:182-254 | where each failure leads: to the local bootstrap, through the release if the lock was held; a failed release changes nothing for the call |
| StartupOutcomes.FreeLockIsTaken | backend_ai/backend/app/main.py:214-221 | a free lock is taken for its lifetime and the bootstrap begins; a live one is left alone and the worker waits |
| StartupOutcomes.ReleaseDeletesOwnLock | backend_ai/backend/app/main.py:182-191 | the release deletes a lock with the worker's token and leaves any other |
| ForceStopRetry.TokenStore.MarkAttempt | token-bot/app/force_stop_retry.py:60-81 | exactly the row with the key is marked: attempt counted, time noted, success or truncated error recorded |
| ForceStopRetry.TokenStore.PendingQuery | token-bot/app/force_stop_retry.py:38-57 | the due rows among the fifty oldest locked rows still to be retried |
| ForceStopRetry.TokenStore.RetryTick | token-bot/app/force_stop_retry.py:84-117 | a tick with an enabled backend retries exactly the due window and leaves every other row; one without changes nothing |
| ForceStopRetry.TokenStore.LockCheckTick | token-bot/app/tg_bot.py:4148-4250 | fetched expired rows get their first attempt; those whose notice got through are locked, and a row whose notice failed keeps its attempt but stays unlocked |
| ForceStopRetry.StepOnLockedRow | token-bot/app/force_stop_retry.py:38-57 | a locked row changes by a due retry or not at all |
| ForceStopRetry.RetryBudget | token-bot/app/force_stop_retry.py:38-81 | in any run of retry and lock ticks a token locked with `a` attempts is retried at most `max(0, 12 - a)` times, each counted, and never after success |
| ForceStopRetry.RetrySpacing | token-bot/app/force_stop_retry.py:26-57 | while locked, attempts are at least the scheduled back-off apart |
| ForceStopRetry.TwelveAttemptsTake | token-bot/app/force_stop_retry.py:26-35 | from the first attempt to the twelfth at least 19980 seconds pass |
| RetryRecords.TickRecords | token-bot/app/force_stop_retry.py:67-117 | a tick changes exactly the rows it retries; each gets one more attempt, and a stop exactly when the reply's action is `stop` or `noop`, else the reason, cut to 255 characters |
| RetryRecords.StoppedExactlyWhen | token-bot/app/force_stop_retry.py:73-117 | over any run a locked row is recorded as stopped exactly when one of its retry calls was answered so |
| RetryRecords.LockTickRecords | token-bot/app/tg_bot.py:4148-4250 | a lock tick changes only expired, unrevoked, unlocked rows of reachable partners; such a row is locked exactly when its notice gets through, and its first call is recorded either way |
| RetryRecords.BackoffSchedule | token-bot/app/force_stop_retry.py:28-35 | the waits after the first attempts are 1, 2, 5, 10, 15, 30 and 30 minutes, then an hour |
| RetryRecords.OnlyPendingRowsChange | token-bot/app/force_stop_retry.py:38-57 | a locked row is stopped, pending with at most eleven attempts, or exhausted, and only a pending one ever changes |
| RetryDrain.TickMeasure | token-bot/app/force_stop_retry.py:84-117 | a tick lowers the sum of remaining attempts by at least the number of rows it retries |
| RetryDrain.ProgressExactlyWhen | token-bot/app/force_stop_retry.py:38-57 | a tick changes anything exactly when it has a backend and one of the fifty oldest pending rows is due, and then the sum falls |
| RetryDrain.SlowTick | token-bot/app/force_stop_retry.py:40-57 | an hour after the last attempt the whole window is due |
| RetryDrain.OldRowsFirst | token-bot/app/force_stop_retry.py:40-47 | the window holds every pending row locked up to an instant, or fifty of them and no later one |
| RetryDrain.CountedTick | token-bot/app/force_stop_retry.py:38-57 | from the end of one tick to the end of one that begins an hour later, whatever ticks in between, the attempts left to the rows locked up to an instant fall by at least the number of them in the window of the later tick |
| RetryDrain.ZeroMeansDrained | token-bot/app/force_stop_retry.py:40-47 | no attempts are left to the rows of a kind exactly when none of them waits: each locked one is stopped or exhausted |
| RetryDrain.ReportsShowAllExactlyWhen | token-bot/app/force_stop_retry.py:164-173 | every twenty rows the unordered report may fetch include all exhausted ones exactly when there are at most twenty |
| RetryDrain.DrainAtAnyCadence | token-bot/app/force_stop_retry.py:38-117 | however often the loop ticks, whatever the backend answers and whatever is locked later, the rows locked up to an instant are all stopped or exhausted after as many hours with a backend as a fiftieth of their remaining attempts, rounded up, and twelve |
| RetryDrain.DrainByMeasure | token-bot/app/force_stop_retry.py:84-117 | and after as many such hours as they have attempts left in all |
| RetryDrain.DrainInTime | token-bot/app/force_stop_retry.py:208-221 | on the clock: ticks with a backend that begin at most `gap` after the one before has ended and take at most `work` drain those rows within that many times one hour, `gap` and twice `work` |
| DispatchPairing.FirstAvailable | backend_ai/backend/scripts/measure_command_latency.py:185-191 | the first unused acknowledgement of the same deployment that is not earlier, or none |
| DispatchPairing.PairDispatchToAck | backend_ai/backend/scripts/measure_command_latency.py:168-197 | the loops compute the first-fit pairing in time order, with the matching delays, and no assignment matches more dispatches |
| DispatchPairing.GreedyIsMaximum | backend_ai/backend/scripts/measure_command_latency.py:181-196 | no injective assignment of acknowledgements that may answer has more pairs than first fit |
| DispatchPairing.GreedyShape | backend_ai/backend/scripts/measure_command_latency.py:177-196 | within a deployment the matched dispatches come first in time order and no two pairs cross |
| DispatchPairing.OrdersAreWorkLists | backend_ai/backend/scripts/measure_command_latency.py:177-184 | both work lists hold exactly the selected records, once, in time order |
| Lists.SortStable | backend_ai/backend/scripts/measure_command_latency.py:177-184 | sorting keeps the order of elements that compare as equal |
| DispatchPairing.CountOrphans | backend_ai/backend/scripts/measure_command_latency.py:248-255 | the number of sent dispatches that no acknowledgement may answer |
| DispatchPairing.MatchedPlusOrphans | backend_ai/backend/scripts/measure_command_latency.py:248-255 | matched dispatches and orphans together are at most those sent |
| DispatchPairing.RowsAreEligible | backend_ai/backend/scripts/measure_command_latency.py:171-196 | every reported row is a sent command of the type with a target event of the same deployment that is not earlier, and its delay |
| DispatchPairing.PairsExactlyWhenEligible | backend_ai/backend/scripts/measure_command_latency.py:171-196 | something is paired exactly when some such pair exists |
| DispatchPairing.OrphansExactlyWhen | backend_ai/backend/scripts/measure_command_latency.py:248-255 | a sent command of the type is an orphan exactly when it is in no such pair |
| ParagraphPacking.ChunkText | backend_ai/backend/scripts/ingest_platform_knowledge.py:80-97 | the loop computes the specified packing |
| DocumentText.CleaningKeepsParagraphs | backend_ai/backend/scripts/ingest_platform_knowledge.py:81-85 | cleaning a text changes neither its visible characters nor its paragraphs |
| DocumentText.CleanTexts | backend_ai/backend/scripts/ingest_platform_knowledge.py:81-81 | a clean text is trimmed and has no triple newline, and a text that is so already is left alone |
| ParagraphPacking.ChunkSizes | backend_ai/backend/scripts/ingest_platform_knowledge.py:85-97 | every chunk is non-empty and within the limit, over-long paragraphs included |
| ParagraphPacking.LosslessExactlyWhenAllFit | backend_ai/backend/scripts/ingest_platform_knowledge.py:80-97 | rejoining the chunks with blank lines gives back the paragraphs of the text passed in exactly when every one of them fits |
| ParagraphPacking.OnlyTailsAreLost | backend_ai/backend/scripts/ingest_platform_knowledge.py:80-97 | for every text passed in, the visible characters of the chunks are, in order, those of its paragraphs each cut to the limit; all of the text's if every paragraph fits |
| ParagraphPacking.FewestChunks | backend_ai/backend/scripts/ingest_platform_knowledge.py:88-97 | when every paragraph fits, no grouping of the paragraphs in order within the limit has fewer groups |
| ParagraphPacking.FillIsOptimal | backend_ai/backend/scripts/ingest_platform_knowledge.py:88-95 | filling greedily from any partly filled chunk is optimal |
| ParagraphPacking.ParagraphsOfJoin | backend_ai/backend/scripts/ingest_platform_knowledge.py:85-90 | splitting joined paragraphs gives them back |
| AuditRetention.ComputeRetentionDeleteIds | backend_ai/backend/app/store.py:48-74 | the ids deleted are exactly those behind the first `n` places of a sorted group |
| AuditRetention.GroupByUser | backend_ai/backend/app/store.py:56-62 | the dictionary holds exactly the group of every key that has one |
| AuditRetention.KeysAgreeExactlyWhen | backend_ai/backend/app/store.py:61-61 | the Python and the SQL group key of a row agree exactly for non-zero user ids, or trimmed Telegram ids (with the one coincidence of user 0) |
| AuditRetention.RankingAgreesExactlyWhen | backend_ai/backend/app/store.py:57-60 | both queries rank a stored row or both do not, unless trimming alone makes its action an excluded one |
| AuditRetention.PlaceIsRank | backend_ai/backend/app/store.py:64-70 | in a sorted group the place of a row is the number of its rows that come before |
| AuditRetention.ReferenceDeletesByRank | backend_ai/backend/app/store.py:64-73 | the reference deletes exactly the rows of which `n` or more of their group come before |
| AuditRetention.ReferenceRefinesSql | backend_ai/backend/app/store.py:228-243 | on stored rows that both queries partition alike, whatever their key texts, the reference deletes a row exactly when the window query ranks it above `n` |
| AuditRetention.AgreeOnEveryTableExactlyWhen | backend_ai/backend/app/store.py:48-74 | and nothing less will do: they agree on every table made of some stored rows exactly when they partition these rows alike |
| AuditRetention.EqualKeysPartitionAlike | backend_ai/backend/app/store.py:61-61 | rows whose keys agree one by one are partitioned alike |
| AuditRetention.PruneTwice | backend_ai/backend/app/store.py:259-297 | pruning to `n` and then to `m` is pruning to the smaller; pruning twice is pruning once |
| AuditRetention.VictimsAreOlder | backend_ai/backend/app/store.py:228-243 | a row the window query deletes is older, by creation and then by id, than every row of its partition that is kept |
| AuditRetention.ReferenceDeletesOlder | backend_ai/backend/app/store.py:64-73 | and so it is in the reference |
| AuditRetention.KeepsExactly | backend_ai/backend/app/store.py:228-243 | of every partition exactly `n` rows are kept, or all if there are fewer |
| AuditRetention.ExcludedRowsAreSpared | backend_ai/backend/app/store.py:228-243 | the window query never deletes a row whose action a trimmed, non-empty name in the list stands for; where none is kept, it deletes all others |
| AuditRetention.ReferenceSparesExcluded | backend_ai/backend/app/store.py:52-60 | nor does the reference, for which the trimmed action counts |
| AuditRetention.RetentionIsConfigured | backend_ai/backend/app/store.py:51-51 | a positive count is used, any other keeps nothing |
| AuditCleanup.AuditLogs.PruneKeepLastN | backend_ai/backend/app/store.py:214-297 | a row stays exactly when it was there and is no victim, and as many are counted as there are victims; a dry run counts them and changes nothing; the users scanned are the distinct partitions |
| AuditCleanup.AuditLogs.DeleteBatchOlderThan | backend_ai/backend/app/store.py:201-212 | exactly the batch's rows go, and their number is returned |
| AuditCleanup.BatchIsOldest | backend_ai/backend/app/store.py:205-205 | a batch takes the old rows with the smallest ids |
| AuditCleanup.OldRowsAre | backend_ai/backend/app/store.py:201-212 | old are exactly the rows created before the cutoff |
| AuditCleanup.BatchSizeIsConfigured | backend_ai/backend/app/store.py:201-203 | a batch size from 1 to 5000 is used, others stand for the nearest |
| AuditCleanup.DeletingBatch | backend_ai/backend/app/store.py:205-211 | deleting a batch by id removes as many rows as it has, all of them old |
| AuditCleanup.AuditLogs.NightlyCleanup | backend_ai/backend/app/main.py:517-529 | for any batch size, and with recent rows arriving in between, the loop ends with exactly the old rows gone and counted |
| ClientEventQueue.ClientLogger.OnReport | frontend-v2/lib/clientLogger.ts:143-161 | the oldest event makes room, the new one is appended, a timer is armed |
| ClientEventQueue.ClientLogger.OnTimer | frontend-v2/lib/clientLogger.ts:95-118 | the timer's flush takes a batch off the front, or re-arms when it comes too early |
| ClientEventQueue.ClientLogger.OnAnswer | frontend-v2/lib/clientLogger.ts:119-141 | an accepted batch is gone; of a failed one the newest events that fit go back to the front |
| ClientEventQueue.ClientLogger.OnPageHide | frontend-v2/lib/clientLogger.ts:224-244 | what is queued, up to the maximum, leaves by beacon |
| ClientEventQueue.EventsAreConserved | frontend-v2/lib/clientLogger.ts:101-161 | in every interleaving each reported event is in exactly one place once, and a non-empty queue has a timer armed or an answer to come |
| ClientEventQueue.SentAtMostOnce | frontend-v2/lib/clientLogger.ts:113-137 | no event is accepted or beaconed more than once |
| ClientEventQueue.BoundHoldsExactlyWhen | frontend-v2/lib/clientLogger.ts:131-148 | the queue never exceeds its maximum in any run exactly when that maximum is at least one |
| ClientEventQueue.NothingLostWithinCapacity | frontend-v2/lib/clientLogger.ts:131-148 | a run that reports no more events than the queue may hold drops none |
| ClientEventQueue.OrderIsKept | frontend-v2/lib/clientLogger.ts:101-141 | with at most one unanswered flush, events are accepted in the order of reporting |
| ClientEventDelivery.RipeTimerSends | frontend-v2/lib/clientLogger.ts:95-126 | a timer that fires with events queued and the interval over moves exactly the first ones, up to a batch, into a new unanswered batch |
| ClientEventDelivery.UnripeTimerWaits | frontend-v2/lib/clientLogger.ts:90-110 | any other firing sends nothing, and comes again if events are queued |
| ClientEventDelivery.RoundsDeliverAll | frontend-v2/lib/clientLogger.ts:95-141 | rounds of a ripe timer and an accepted answer deliver everything queued, in order, within as many rounds as there are batches |
| ClientEventDelivery.FailedFlushIsUndone | frontend-v2/lib/clientLogger.ts:127-141 | a flush that fails leaves a queue within its maximum as it was, with the timer armed |
| ClientEventDelivery.FailuresDouble | frontend-v2/lib/clientLogger.ts:127-129 | after `n` failures the delay is multiplied by `2^n`, at most 8, whatever happens in between |
| ClientEventDelivery.AcceptedEndsBackoff | frontend-v2/lib/clientLogger.ts:125-141 | an accepted batch is delivered and resets the multiplier |
| ClientEventDelivery.HidingSendsAll | frontend-v2/lib/clientLogger.ts:224-244 | when the page is hidden, a queue within its maximum leaves by beacon as a whole |
| MessageSplitter.NormalizeMessageText | hubbot/app/formatters.py:21-26 | the loop ends and computes the one-pass normal form |
| MessageSplitter.TriplePassKeepsMeaning | hubbot/app/formatters.py:24-25 | one replacement pass does not change the text with every run of newlines cut to two |
| MessageSplitter.NormalizedShape | hubbot/app/formatters.py:21-26 | a normalised text is trimmed and has no carriage return and no triple newline |
| MessageSplitter.NormalizeIsIdempotent | hubbot/app/formatters.py:21-26 | normalising twice is normalising once |
| MessageSplitter.NormalizeKeepsVisible | hubbot/app/formatters.py:21-26 | normalising keeps the visible characters, in order |
| MessageSplitter.LineEndsAreAlike | hubbot/app/formatters.py:23-23 | a text with Windows or old Macintosh line ends normalises like one with newlines |
| MessageSplitter.LineBreaksStay | hubbot/app/formatters.py:21-26 | a trimmed text without triple newlines keeps every line break, whatever line ends it is sent with |
| MessageSplitter.LimitIsConfigured | hubbot/app/formatters.py:34-34 | a length from 1000 to 4096 is used, 0 stands for 3900, others for the nearest bound |
| MessageSplitter.SplitPointMeaning | hubbot/app/formatters.py:44-48 | the cut is at the last newline in the second half of the window, else at the last blank there, else at the limit |
| MessageSplitter.SplitShape | hubbot/app/formatters.py:39-53 | chunks and the white space between them give the text back; chunks are non-empty, trimmed, within the limit, and `n` of them satisfy `(n - 1) * limit < 2 * length` |
| MessageSplitter.ChunkPlainText | hubbot/app/formatters.py:29-53 | the loop ends with exactly that split of the normalised text and keeps the visible characters of the text passed in, in order |

## Left out

- BillingModel: time zones and daylight saving; every day has 86 400 seconds and instants are parsed local times.
- BillingModel: the failure of `int(duration_days)` on text that is no number, which falls back to the default; a duration is a number or absent.
- BillingSummary.BillingCycleSummary: instants before year 1, which the source's dates cannot express either; the precondition says so.
- BillingKeys.SeatKeysAgreeExactlyWhen: names with a colon, of which only some collide; the general condition is that the joined texts differ, which is the property again.
- BillingAnchor.Partner.PinAnchor: two concurrent first snapshots that both find no stored anchor, and a partner row that is missing.
- PaymentLedger: rows of other partners, permission checks, notifications and message texts; a member's note is dropped by one step whatever the reason.
- PaymentLedger: reading the report and reading the paid total are one step; counting the pending proofs is another. A new report may change the total between any two handlers.
- PaymentBounds.UpdatesStayWithinExactlyWhen: assumes that the accrued total does not fall; BillingStops.SnapshotsNeverAccrueLess says which changes of a report keep it from falling, and BillingStops.StopNeverLowersExactlyWhen which stops can lower it.
- BackgroundLease: Redis errors, for which the code promises no single owner, and a cancelled Redis command, which is either done or not done.
- BackgroundLease: tokens are taken as distinct, as host name, process id and start time make them.
- StartupGate: the call is modelled as steps on a state value only, because its variables live in no object.
- ForceStopRetry: message sending and the state mirror of the lock tick; whether a notice gets through is an input of the tick, and so is the choice of fifty rows that the unordered query leaves open.
- ForceStopRetry: the clock does not run backwards within a tick; RetrySpacing and the drain results assume it.
- RetryDrain: a retry tick and a lock tick are whole steps, although the two loops interleave; they touch different rows, the former locked ones and the latter those not locked yet.
- ParagraphPacking.ChunkText: limits below 1, since the caller clamps the limit to at least 400.
- DispatchPairing: reading and filtering of log files, percentiles and printing.
- AuditRetention: text collation and NULL primary keys; stored rows have the columns the schema requires.
- AuditCleanup.AuditLogs.NightlyCleanup: old rows inserted while the loop runs, with which it need not end.
- ClientEventQueue: the delay of a timer, the contents of events, and a beacon that the browser refuses.
- Menus, keyboards, HTTP and database drivers, encryption, tokens, packaging, redaction, HTML extraction, DDL and scripts for stress or training.
