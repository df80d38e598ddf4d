# Verification of the property-management backend's money and scheduling engines

This Dafny project models the parts of the backend that keep state over many
runs, and proves what they keep: ad-hoc invoices with the tenant wallet they
move, the rent and installment jobs, the maintenance confirmation job, the
per-IP request limiter, the asset copy and delete scripts, the ledger and data
repairs, one-time codes, invoice numbers, the payment split of landlord
invoices, and the two HTML escapes of the invoice documents.

`dafny verify dfyconfig.toml` checks everything.

| file | what it models |
|---|---|
| `AdHocInvoices.dfy` | invoices, wallets and the wallet ledger; every operation as a function, payment confirmation as its three separate database steps |
| `AdHocLedger.dfy` | the ledger invariant and that every operation keeps it |
| `AdHocProtocol.dfy` | all interleavings of payment confirmations with each other and with every other operation |
| `AdHocOutcomes.dfy` | what each operation lets through and leaves, column by column, and what covers a row over whole runs |
| `AdHocDrift.dfy`, `AdHocDisturbed.dfy` | the one-naira tolerance as a bound on the wallet, and the runs in which edits disturb it |
| `AdHocService.dfy` | the service class itself, proved against the functions |
| `RentDates.dfy`, `RentRenewal.dfy` | calendar periods, and the catch-up renewal with its closed form |
| `RentFees.dfy`, `RentBook.dfy`, `RentSweep.dfy` | fee columns and letters, what they bill, the rent rows the job rolls forward, and the sweep that charges letters at expiry |
| `InstallmentReminders.dfy`, `InstallmentInstances.dfy` | the reminder cadence and the daily job over every plan, then several runs of the job at once |
| `MaintenanceReminders.dfy`, `MaintenanceInstances.dfy`, `MaintenancePasses.dfy` | remind, remind, auto-close: one instance over time, several at once, and when those stay sound |
| `IpRateLimit.dfy` | the fixed window with a block |
| `CopyPool.dfy`, `AssetMigration.dfy`, `AssetRuns.dfy` | the worker pool, the steps of copy and delete runs with crashes, then each kind of run as a whole |
| `PhantomRepair.dfy` | compensating writes for credits that should not exist |
| `DataCleanup.dfy` | the duplicate-rent and occupied-property repair |
| `Otp.dfy` | one-time codes, as both services keep them |
| `InvoiceNumbers.dfy` | zero-padded numbers and the year's greatest string |
| `PaymentSplit.dfy` | a landlord invoice from creation to its closing payment |
| `EscapeHtml.dfy` | five passes, one pass, and a reader for both |
| `Options.dfy` | `Option` and `Result` |

Money is integer kobo, days are integer indices and instants integer
milliseconds. Tables are sequences whose positions are
the row ids.

## What turned out to be conditional

The code is modelled as it is. Where a property the code or its comments
promise does not hold of every input, there is a lemma that exhibits an input
breaking it and one that says exactly when it holds.

- **One-naira tolerance.** It bounds the wallet on both sides over all sequential
  runs. In an interleaving an edit between a confirmation's read and its commit
  escapes it, downwards when it raises the total (`EditMidwayEscapesTolerance`)
  and upwards when it lowers it (`EditDownOvershoots`). All paid invoices stay
  within a naira exactly if each winning commit still passes the amount guard on
  the row it claims (`TolerantIff`); without installments none collects more than
  its total exactly if each credits at most what that row still asks for
  (`NeverTooMuchIff`). Each condition gives its side of the wallet bound
  (`GuardedBalance`).
- **Catch-up without debt.** The comment at
  `src/cron/rent-reminder.service.ts:756-760` promises that no uncovered period
  becomes fresh debt. It holds exactly if the letter was charged in advance no
  more than it bills (`NoDebtIff`). One uninterrupted sweep at expiry charges it
  as billed (`SweptLetterMakesNoDebt`). But a sweep checks once and then debits fee
  by fee: the letter is charged at most its bill exactly if no second sweep passes
  its check before the first debits (`ChargedAtMostBillIff`,
  `OnePassChargesAtMostBill`), and two that do leave debt (`TwoSweepsRenewInDebt`).
  A letter can also come to bill less: a payment plan takes its fee out and leaves
  the charge (`src/payment-plans/payment-plans.service.ts:3664-3747`,
  `CarvedLetterRenewsInDebt`). The other way round, a sweep cut short
  (`CutShortSweepChargesPart`) is never completed (`CutShortStaysShort`): a letter
  is charged just its bill in all exactly if nothing or all of it was charged in
  advance (`LetterIsChargedItsBillIff`).
- **Three weeks before auto-close.** The reminder window counts UTC days, the
  first wait counts Lagos days, and the close can come on the twentieth Lagos day
  (`TwentyDaysCanDo`). Over all runs, failed reminders included, 21 Lagos days are
  certain exactly when the first counting reminder's UTC day is already a week
  after resolution (`ThreeWeeksOverRunsIff`), as on the 08:00 schedule
  (`ThreeWeeksOnSchedule`).
- **Installment reminders once a day.** They hold with each run of the job taken
  whole (`HistoryIsSpaced`). Two runs that both read before either stamps, or one
  repeated after stopping before its stamp, remind twice (`TwoRunsRemindTwice`,
  `StoppedRunRemindsTwice`). The spacing holds throughout exactly if the cadence,
  judged by the last reminder sent, still asks for each as it is queued
  (`SpacedThroughoutIff`); runs that do not disturb one another keep it
  (`UndisturbedStaySpaced`).
- **Several cron instances.** The comments at
  `src/cron/maintenance-reminder.service.ts:79-83` call the window check a
  cross-instance guard. At most one instance ever closes
  (`AtMostOneInstanceCloses`), but two overlapping passes can both remind on day
  7, and the request then closes on day 14 (`OverlappingPassesCloseEarly`). The
  spacing and the cap hold throughout a run exactly if every reminder is still due
  as it is queued (`SoundThroughoutIff`); it is enough that no pass acts after
  another has reminded since its own window check (`SeparatePassesStaySound`), and
  the close then keeps its 20 or 21 days (`SeparatePassesCloseLate`).
- **Asset bytes.** Every asset stays on one account under its name. Its bytes can
  be lost (`TakenNameLosesBytes`), and survive every run exactly when no source
  name was already taken by other bytes on the destination (`BytesSurviveIff`). A
  lost progress file (`LostProgressForgets`) is rebuilt exactly when everything
  recorded before was in scope (`LostProgressConvergesIff`).
- **Ledger repair.** The ledger converges however often runs are stopped. The
  invoice totals re-derived at the end do not: a resumed run refreshes a pair
  exactly if one of its phantoms was still to be written or is zero
  (`ResumedRefreshIff`).
- **Data cleanup.** Ending a tenant's older rent marks its property vacant even
  if an active rent is still on it (`RentedPropertyGoesVacant`). Where no tenant
  has two active rents of one creation date, a rented property stays occupied
  exactly if no outdated rent was on it (`StaysOccupiedIff`).
- **Invoice numbers.** After 9999 the string order breaks
  (`TenThousandSortsLow`): a year gets exactly ten thousand numbers, and every
  later creation computes 10000 again and is refused by the unique index
  (`IssuedIff`).
- **Payment split.** It holds of every invoice made by `create`. An invoice for an
  offer letter with something prepaid loses it when its items are updated
  (`UpdateForgetsPrepaid`), and never had it when more was prepaid than the items
  ask (`OverpaidLetterHasNoCredit`), until a payment is recorded: `LetterSplitsIff`
  says exactly when outstanding and credit are the two sides of total minus paid,
  `LetterSplitIff` when at least the sums agree. One paid in full and then
  repriced owes the new total for good (`RepricedLetterStaysOwing`).

## Model

| member | source | states |
|---|---|---|
| AdHocLedger.SnapshotSum | src/ad-hoc-invoices/ad-hoc-invoices.service.ts:228-236 | the line-item rows written for an invoice sum to the total charged |
| AdHocLedger.ApplyChangeMoves | src/tenant-balances/tenant-balances.service.ts:121-168 | a wallet change moves that wallet and its ledger sum by its amount, and no other wallet |
| AdHocLedger.ApplyChangeKeepsLedger | src/tenant-balances/tenant-balances.service.ts:146-163 | the running balance in every ledger row stays the sum of the rows up to it, across appends |
| AdHocLedger.CreateKeeps | src/ad-hoc-invoices/ad-hoc-invoices.service.ts:194-257 | creating an invoice keeps wallet = money received − live totals, for every wallet |
| AdHocLedger.EditKeeps | src/ad-hoc-invoices/ad-hoc-invoices.service.ts:331-388 | so does an edit, whichever way the total moves |
| AdHocLedger.CancelKeeps | src/ad-hoc-invoices/ad-hoc-invoices.service.ts:446-472 | so does a cancellation, which gives the whole total back |
| AdHocLedger.CommitKeeps | src/ad-hoc-invoices/ad-hoc-invoices.service.ts:1150-1194 | so does the compare-and-swap, won or lost, whatever happened since the ticket was read |
| AdHocLedger.CollectKeeps | src/payment-plans/payment-plans.service.ts:3387-3538 | so does an installment, credited in full; the invoice takes what it needs and any surplus, or all of it once settled, stays in the wallet |
| AdHocLedger.CoverAndReleaseKeep | src/payment-plans/payment-plans.service.ts:1936-1973 | so do covering an invoice by a plan and releasing it again |
| AdHocLedger.ApplyKeeps | src/ad-hoc-invoices/ad-hoc-invoices.service.ts:194-472 | every operation, refused or not, keeps the whole invariant |
| AdHocProtocol.ProtocolOverRuns | src/ad-hoc-invoices/ad-hoc-invoices.service.ts:1118-1201 | the books and the phase of every confirmation stay consistent under every interleaving, from any consistent state |
| AdHocProtocol.BooksOverRuns | src/ad-hoc-invoices/ad-hoc-invoices.service.ts:1150-1194 | in every interleaving every wallet is its ledger sum, and money received minus the totals of its live invoices |
| AdHocProtocol.ExactlyOneWinner | src/ad-hoc-invoices/ad-hoc-invoices.service.ts:1118-1201 | an invoice has a payment reference if and only if one confirmation won it; the winner is unique, its reference and receipt are the stored ones, and losers lost to a paid or cancelled row |
| AdHocProtocol.PaidIsFinal | src/ad-hoc-invoices/ad-hoc-invoices.service.ts:1153-1169 | total, reference and receipt of a paid row never change again |
| AdHocProtocol.OnlyTheWinnerPays | src/ad-hoc-invoices/ad-hoc-invoices.service.ts:1150-1201 | a confirmation's step that does not win changes nothing; the winning one moves its wallet by its credit and one row |
| AdHocProtocol.PaidExactlyOnce | src/ad-hoc-invoices/ad-hoc-invoices.service.ts:1177-1193 | without installments, what an invoice has received is exactly its unique winner's credit, or nothing |
| AdHocDrift.BalanceIsOutstandingAndDrift | src/ad-hoc-invoices/ad-hoc-invoices.service.ts:1072-1111 | in every interleaving a wallet is minus what is outstanding minus what its paid invoices fell short |
| AdHocDrift.ConfirmTolerates | src/ad-hoc-invoices/ad-hoc-invoices.service.ts:1072-1111 | an undisturbed confirmation leaves its invoice at most one naira short |
| AdHocDrift.ToleranceIsTheOnlyDrift | src/ad-hoc-invoices/ad-hoc-invoices.service.ts:1072-1111 | over every sequential run the wallet is at least minus outstanding minus one naira per paid invoice, and without installments at most minus outstanding |
| AdHocDisturbed.CommitTolerates | src/ad-hoc-invoices/ad-hoc-invoices.service.ts:1150-1194 | a winning commit stays within tolerance exactly if its credit still passes the amount guard on the claimed row |
| AdHocDisturbed.TolerantIff | src/ad-hoc-invoices/ad-hoc-invoices.service.ts:1072-1201 | over every interleaving all paid invoices stay within tolerance throughout if and only if every winning commit passes that guard |
| AdHocDisturbed.NeverTooMuchIff | src/ad-hoc-invoices/ad-hoc-invoices.service.ts:1072-1201 | over every interleaving without installments, no invoice ever collects more than its total if and only if every winning commit credits at most what its row still asks for |
| AdHocDisturbed.GuardedBalance | src/ad-hoc-invoices/ad-hoc-invoices.service.ts:1072-1201 | the lower side of the sequential wallet bound holds of an interleaving where the guards do, the upper side where the caps do |
| AdHocDisturbed.EditDownOvershoots | src/ad-hoc-invoices/ad-hoc-invoices.service.ts:1118-1201 | the total lowered between read and commit: guards hold, no installments, and the wallet ends four thousand naira above what is owed |
| AdHocDisturbed.EditMidwayEscapesTolerance | src/ad-hoc-invoices/ad-hoc-invoices.service.ts:1118-1201 | an edit between read and commit: paid, and four thousand naira short |
| AdHocOutcomes.CancelledIff | src/ad-hoc-invoices/ad-hoc-invoices.service.ts:425-472 | a cancellation takes effect exactly on an existing row that is neither paid nor cancelled nor covered, and changes its status, its wallet and one ledger row |
| AdHocOutcomes.CancelRefusals | src/ad-hoc-invoices/ad-hoc-invoices.service.ts:426-444 | unknown, paid, cancelled and covered rows get their own refusals, in that order |
| AdHocOutcomes.EditedIff | src/ad-hoc-invoices/ad-hoc-invoices.service.ts:287-389 | the same of an edit: when it takes effect, the lines and columns it writes, the signed difference it books |
| AdHocOutcomes.EditRefusals | src/ad-hoc-invoices/ad-hoc-invoices.service.ts:287-324 | which refusal an edit gets, in order: unknown, paid, cancelled, covered, no items, sum not above zero |
| AdHocOutcomes.CreatedIff | src/ad-hoc-invoices/ad-hoc-invoices.service.ts:143-257 | when an invoice is created, every column of its row, and the debit |
| AdHocOutcomes.ItemsAddUp | src/ad-hoc-invoices/ad-hoc-invoices.service.ts:318-321 | the sum of items is additive over lists and the amount of a single item |
| AdHocOutcomes.ConfirmedIff | src/ad-hoc-invoices/ad-hoc-invoices.service.ts:979-1194 | an undisturbed confirmation settles exactly an open, uncovered row by a charge at most one naira short, and credits no more than was left |
| AdHocOutcomes.UninterruptedConfirmation | src/ad-hoc-invoices/ad-hoc-invoices.service.ts:979-1201 | its read, re-read and commit in a row are the whole confirmation, won exactly under those conditions |
| AdHocOutcomes.LoadAnswers | src/ad-hoc-invoices/ad-hoc-invoices.service.ts:979-1095 | what the first read answers in every other case: unknown, covered, paid by this or another charge, cancelled, too little |
| AdHocOutcomes.CommitMeans | src/ad-hoc-invoices/ad-hoc-invoices.service.ts:1150-1201 | a commit after any delay settles the row it finds if still unpaid or half paid, with the total and credit it read, and otherwise changes nothing |
| AdHocOutcomes.CoveredIff | src/payment-plans/payment-plans.service.ts:742-836 | a plan covers exactly an existing row that is unpaid, uncancelled, uncovered and owes something |
| AdHocOutcomes.CollectedIff | src/payment-plans/payment-plans.service.ts:3387-3538 | what an installment leaves of the row, settled at a naira or less, and its full credit to the wallet |
| AdHocOutcomes.ReleasedIff | src/payment-plans/payment-plans.service.ts:1936-1973 | a released row is open for what it still asks: paid at a naira or less left, pending up to half a naira collected, half paid otherwise |
| AdHocOutcomes.ShownOverdueIff | src/ad-hoc-invoices/ad-hoc-invoices.service.ts:1469-1481 | the displayed status differs from the stored one exactly for a pending, uncovered row past its due date |
| AdHocOutcomes.CoveredRowsAreFrozen | src/ad-hoc-invoices/ad-hoc-invoices.service.ts:305-313 | over any run from any state: as long as a plan covers a row, no event changes its owner, lines, total or due date, or cancels it |
| AdHocOutcomes.LandlordsLeaveCoveredRows | src/ad-hoc-invoices/ad-hoc-invoices.service.ts:436-444 | over any run of creations, edits and cancellations a covered row stays as it is in every column |
| AdHocService.AdHocInvoicesService.ApplyWalletChange | src/tenant-balances/tenant-balances.service.ts:121-168 | a zero change adds no row; any other moves the wallet and appends one row with the new balance |
| AdHocService.AdHocInvoicesService.CreateInvoice | src/ad-hoc-invoices/ad-hoc-invoices.service.ts:143-257 | refused exactly without items or with a sum not above zero, and then nothing changes; otherwise one new pending row with the items as its lines, and one wallet debited exactly their sum |
| AdHocService.AdHocInvoicesService.UpdateInvoice | src/ad-hoc-invoices/ad-hoc-invoices.service.ts:287-389 | succeeds exactly for an existing row that is neither paid nor cancelled nor covered by a plan, with items of a positive sum; which refusal each other case gets; the row takes items, sum and date alone and its wallet moves by the difference |
| AdHocService.AdHocInvoicesService.CancelInvoice | src/ad-hoc-invoices/ad-hoc-invoices.service.ts:425-472 | succeeds exactly for an existing row that is neither paid nor cancelled nor covered by a plan; which refusal each other case gets; the row changes in status alone, its wallet rises by its total, nothing else moves |
| AdHocService.AdHocInvoicesService.MarkInvoicePaidFromWebhook | src/ad-hoc-invoices/ad-hoc-invoices.service.ts:979-1111 | credits exactly when the row is pending or half paid, uncovered and the amount at most one naira short, and then the smaller of amount and what is left; the row's other columns, other rows and other wallets stay |
| AdHocService.AdHocInvoicesService.MarkInvoicePaid | src/ad-hoc-invoices/ad-hoc-invoices.service.ts:1118-1201 | loses exactly when the row is no longer unpaid, and then changes nothing |
| RentDates.AdvanceClamps | src/common/utils/rent-date.util.ts:195-221 | advancing months keeps the day of the month or clamps it to the month's last, and always moves forward |
| RentDates.NextDayIsNext | src/renewal-letters/renewal-charge.service.ts:548-549 | the day after a date is a date and one further along the calendar, over every month's end |
| RentDates.BeforeIsEarlier | src/cron/rent-reminder.service.ts:753-753 | comparing two dates compares their days along the calendar |
| RentDates.CalendarIsGregorian | src/common/utils/rent-date.util.ts:195-221 | the days up to the start of any month of any year, in closed form with the leap-year rule |
| RentDates.CustomMonthsIsNearest | src/common/utils/rent-date.util.ts:139-280 | a custom period is carried over as the nearest whole number of average months, and never less than one |
| RentRenewal.CatchUpClosedForm | src/cron/rent-reminder.service.ts:753-806 | without a letter the loop advances the elapsed periods or as many as the wallet divides into, whichever is fewer, and debits exactly those |
| RentRenewal.LetterThenCarried | src/cron/rent-reminder.service.ts:753-806 | a letter is used for at most the first period; from there on it is the closed form |
| RentRenewal.PrefixUnique | src/cron/rent-reminder.service.ts:753-806 | the longest fully covered prefix of elapsed periods is unique |
| RentRenewal.ElapsedCounts | src/cron/rent-reminder.service.ts:753-753 | the period count is the number of expiries before today, so the loop ends |
| RentRenewal.CatchUpMakesNoDebt | src/cron/rent-reminder.service.ts:822-850 | after advancing, the wallet is non-negative if and only if it started so or nothing was charged in advance; a negative one was never debited |
| RentRenewal.NoDebtWhenChargedAsBilled | src/cron/rent-reminder.service.ts:753-850 | charged in advance no more than the period bills, every tenancy rolled forward ends with a non-negative wallet and a paid rent |
| RentRenewal.NoDebtIff | src/cron/rent-reminder.service.ts:753-850 | whatever the wallet holds, rolling forward leaves no debt if and only if the advance charge is at most the bill |
| RentRenewal.LetterIsChargedItsBillIff | src/renewal-letters/renewal-charge.service.ts:645-680 | advance charge and renewal debit make up the bill if and only if nothing or just the bill was charged in advance |
| RentFees.CarryForwardIsRecurring | src/common/billing/fees.ts:334-350 | the carried columns bill exactly the recurring fees of the row before, in order |
| RentFees.CarriedChargeIsSum | src/common/billing/fees.ts:167-216 | a carried period costs the sum of the row's positive recurring fees |
| RentFees.BillIsSum | src/common/billing/fees.ts:218-260 | a letter bills the sum of its breakdown, or of its columns when it has none |
| RentFees.LetterFlagIsFees | src/renewal-letters/renewal-charge.service.ts:579-640 | the recurring flags of the new row are those of the letter's billed fees, or the old row's |
| RentFees.LetterRowMeans | src/renewal-letters/renewal-charge.service.ts:602-640 | each amount of the row a letter makes is the letter's, its deposit the old row's if recurring, each flag that of the fee billed or else the old one |
| RentFees.FeesOfColumns | src/common/billing/fees.ts:167-216 | exactly which fees a rent row is billed |
| RentFees.FeesOfLetter | src/common/billing/fees.ts:218-260 | exactly which fees a letter bills, from its breakdown or its columns with their default flags |
| RentBook.NextRowIsRenewed | src/renewal-letters/renewal-charge.service.ts:594-645 | the new row, with every column the letter or the old row gives it, is billed as the renewed period |
| RentBook.CarriedRowMeans | src/renewal-letters/renewal-charge.service.ts:547-551 | a row carried forward starts on the next day of the calendar, ends a period later, bills exactly the recurring fees, and is paid exactly if the wallet holds them |
| RentBook.LetterRowIsTheLetters | src/renewal-letters/renewal-charge.service.ts:544-546 | a letter's row takes its dates and frequency, and is paid exactly if the wallet or an earlier charge holds its fees |
| RentBook.DebitMeans | src/renewal-letters/renewal-charge.service.ts:645-680 | a renewal debits all fees of the letter unless it was charged in advance, or the recurring fees |
| RentBook.CoveredMeans | src/cron/rent-reminder.service.ts:725-760 | a period is covered exactly if wallet and advance charge hold the sum of its fees |
| RentBook.CarriedRowsKeepColumns | src/renewal-letters/renewal-charge.service.ts:594-645 | every new row after the first, and the first without a letter, starts one calendar day after its predecessor ends, ends a period later and bills exactly the predecessor's recurring fees |
| RentBook.OneRowStaysActive | src/renewal-letters/renewal-charge.service.ts:554-570 | a catch-up leaves every other row alone and exactly one of its own active, the last |
| RentBook.SweptLetterMakesNoDebt | src/renewal-letters/renewal-charge.service.ts:130-225 | a letter charged by one uninterrupted expiry sweep, or not at all, never rolls a tenancy forward into debt |
| RentBook.SweptIff | src/renewal-letters/renewal-charge.service.ts:130-225 | exactly which letters a sweep charges, from when, and that it charges all their fees |
| RentBook.CarveOutMeans | src/payment-plans/payment-plans.service.ts:3664-3747 | a fee taken into a plan leaves the breakdown once and its own column; the charge in advance and everything else stay |
| RentSweep.UninterruptedSweep | src/renewal-letters/renewal-charge.service.ts:130-225 | the separate check and debits in a row are that sweep |
| RentSweep.OnePassChargesAtMostBill | src/renewal-letters/renewal-charge.service.ts:145-212 | where no second sweep passes its check, no interleaving and no sweep cut short charges a letter more than its bill |
| RentSweep.ChargedAtMostBillIff | src/renewal-letters/renewal-charge.service.ts:145-212 | with every sweep finished, it is charged at most its bill if and only if no second one passed, and otherwise once for each that did |
| RentSweep.SecondPassComesBeforeDebits | src/renewal-letters/renewal-charge.service.ts:145-147 | a second sweep can pass only before the first one's first debit |
| RentSweep.SweptOnceMakesNoDebt | src/renewal-letters/renewal-charge.service.ts:145-212 | a letter swept so never rolls its tenancy forward into debt |
| RentSweep.TwoSweepsRenewInDebt | src/renewal-letters/renewal-charge.service.ts:145-212 | two sweeps that both look before either debits: charged twice, renewed with fifty naira owing |
| RentSweep.CutShortStaysShort | src/renewal-letters/renewal-charge.service.ts:145-147 | once something is charged and no sweep is at work, nothing more ever is |
| RentSweep.CutShortSweepChargesPart | src/renewal-letters/renewal-charge.service.ts:202-222 | a sweep stopped after the first of two fees |
| RentBook.CarvedLetterRenewsInDebt | src/payment-plans/payment-plans.service.ts:3664-3747 | a fee taken into a payment plan after the sweep: the tenancy rolls forward with twenty naira owing |
| RentBook.Book.RenewOneFromWalletCredit | src/renewal-letters/renewal-charge.service.ts:524-749 | only an active row is closed and followed by the next period's row, without a letter from one calendar day after its expiry; the wallet is debited the period's fees unless the letter was charged already |
| RentBook.Book.PostCharges | src/renewal-letters/renewal-charge.service.ts:657-677 | one debit per fee, the sum in all |
| RentBook.Book.CatchUp | src/cron/rent-reminder.service.ts:736-806 | the loop stops at the longest fully covered prefix, with every row and the wallet as after that many renewals |
| RentBook.Book.AutoRenewExpiredRent | src/cron/rent-reminder.service.ts:647-807 | declined ends the tenancy, uncovered or unaccepted floats unchanged, otherwise the catch-up |
| InstallmentReminders.CadenceIsTheCalendar | src/cron/rent-reminder.service.ts:332-367 | with daily ticks the stamped cadence sends exactly on D−7, D−1, D, and every seventh day from the first overdue one |
| InstallmentReminders.AnyScheduleIsSpaced | src/cron/rent-reminder.service.ts:332-367 | with missed or repeated ticks: never twice a day, overdue notices a week apart, upcoming ones only on their windows |
| InstallmentReminders.DispatchedIff | src/cron/rent-reminder.service.ts:270-317 | a tick sends and stamps a row exactly if its plan is active, its status is pending or partial, every smaller sequence of its plan is paid, it can be reached and the cadence names the day |
| InstallmentReminders.OnePerPlan | src/cron/rent-reminder.service.ts:287-296 | no two rows of one plan are sent in a tick |
| InstallmentReminders.RemindersAreSequential | src/cron/rent-reminder.service.ts:263-317 | over any run of ticks, payments and edits, whatever was reminded has every smaller sequence of its plan paid, and a plan's reminders never go back |
| InstallmentReminders.HistoryIsSpaced | src/cron/rent-reminder.service.ts:332-367 | over any run, due days edited at will: a row is reminded at most once a day, and when overdue a week after any reminder past the due day in force |
| InstallmentReminders.TableFollowsCalendar | src/cron/rent-reminder.service.ts:263-367 | a row the job attends to daily is reminded exactly on the calendar, whatever else happens in the table |
| InstallmentInstances.UninterruptedPass | src/cron/rent-reminder.service.ts:369-480 | read, queue and stamp in a row are one tick of the cadence |
| InstallmentInstances.SpacedThroughoutIff | src/cron/rent-reminder.service.ts:263-480 | under every interleaving of job runs and stops, reminders stay spaced if and only if each is still asked for, judged by the last one sent, as it is queued |
| InstallmentInstances.UndisturbedStaySpaced | src/cron/rent-reminder.service.ts:263-480 | runs that read after the last reminder's stamp and queue before the next one keep the spacing |
| InstallmentInstances.TwoRunsRemindTwice | src/cron/rent-reminder.service.ts:405-478 | two runs that both read before either stamps remind twice on one day |
| InstallmentInstances.StoppedRunRemindsTwice | src/cron/rent-reminder.service.ts:405-478 | so does a repeated run after one stopped before its stamp |
| InstallmentReminders.InstallmentTable.EarliestUnpaidByPlan | src/cron/rent-reminder.service.ts:289-296 | the map built in reading order holds exactly the rows of active plans that are pending or partial with every smaller sequence paid |
| InstallmentReminders.InstallmentTable.CheckInstallmentReminders | src/cron/rent-reminder.service.ts:263-317 | the job stamps and sends exactly such rows that can be reached and the cadence names, and changes no other |
| MaintenanceReminders.SoundOverRuns | src/cron/maintenance-reminder.service.ts:155-196 | under any ticks, delivery failures and answers: at most two counting reminders, a week apart, the first after a week |
| MaintenanceReminders.DecidedIff | src/cron/maintenance-reminder.service.ts:99-196 | the job acts exactly on a resolved request with a phone, seven Lagos days on, with every counting reminder seven UTC days old; it closes at two and reminds below |
| MaintenanceReminders.NoPhoneNoAction | src/cron/maintenance-reminder.service.ts:99-149 | over any run a request without a phone is neither reminded about nor closed by the job |
| MaintenanceReminders.CloseFollowsTwoReminders | src/cron/maintenance-reminder.service.ts:172-193 | a close has two counting reminders before it, a week apart and a week back, and 20 Lagos days behind it |
| MaintenanceReminders.ThreeWeeksOnSchedule | src/cron/maintenance-reminder.service.ts:43-45 | 21 Lagos days when ticks run at hours on which both calendars agree |
| MaintenanceReminders.ThreeWeeksIff | src/whatsapp-bot/whatsapp-notification-log.service.ts:293-316 | 21 Lagos days are certain for three acting ticks exactly when the first reminder's UTC day is a week after resolution |
| MaintenanceReminders.ThreeWeeksOverRunsIff | src/whatsapp-bot/whatsapp-notification-log.service.ts:293-339 | the same of the first counting reminder over all runs, with failed deliveries and answers |
| MaintenanceReminders.TwentyDaysCanDo | src/whatsapp-bot/whatsapp-notification-log.service.ts:293-316 | three ticks around midnight that close on the twentieth Lagos day |
| MaintenanceReminders.SilentTenantTimeline | src/cron/maintenance-reminder.service.ts:99-149 | with daily 08:00 ticks: reminded on day 7 and 14, closed on day 21, nothing else |
| MaintenanceReminders.MaintenanceReminderService.RunDailyConfirmationReminderCheck | src/cron/maintenance-reminder.service.ts:99-149 | every request is processed once, and the two counts are right |
| MaintenanceReminders.MaintenanceReminderService.ProcessRequest | src/cron/maintenance-reminder.service.ts:155-196 | skip, remind or close one request, leaving the others |
| MaintenanceInstances.UninterruptedPass | src/cron/maintenance-reminder.service.ts:155-196 | the four separate database steps taken in a row are the sequential decision |
| MaintenanceInstances.AtMostOneInstanceCloses | src/maintenance-requests/maintenance-requests.service.ts:1747-1769 | under every interleaving of instances the request is auto-closed if and only if one pass closed it, and no two do |
| MaintenanceInstances.InstanceStepKeepsUnique | scripts/backfill-maintenance-auto-close.ts:145-157 | the conditional close can be won once only, from any state that respects it |
| MaintenanceInstances.OverlappingPassesCloseEarly | src/cron/maintenance-reminder.service.ts:172-193 | two overlapping passes remind twice on day 7 and the next closes on day 14 |
| MaintenancePasses.ActKeepsSoundIff | src/cron/maintenance-reminder.service.ts:172-196 | a pass that counted fewer than two keeps spacing and cap if and only if the window is still clear and the cap still free as it queues |
| MaintenancePasses.SoundThroughoutIff | src/cron/maintenance-reminder.service.ts:155-196 | under every interleaving spacing and cap hold throughout if and only if every reminder is still due as it is queued |
| MaintenancePasses.SeparatePassesStaySound | src/cron/maintenance-reminder.service.ts:155-196 | they hold in every run in which no pass acts after another has reminded since its own window check |
| MaintenancePasses.SeparatePassesCloseLate | src/cron/maintenance-reminder.service.ts:155-196 | in such a run the close comes at least 20 Lagos days after resolution, and 21 where both calendars agree |
| IpRateLimit.AdmissionBound | src/guards/ip-rate-limit.guard.ts:15-70 | under every interleaving of requests from one IP, a span of L milliseconds admits at most 100 for each minute begun in it, plus 100 |
| IpRateLimit.BoundIsReached | src/guards/ip-rate-limit.guard.ts:15-70 | for every number of windows some run reaches that bound |
| IpRateLimit.FullWindowAdmitsNothing | src/guards/ip-rate-limit.guard.ts:48-66 | once a request exceeds the limit, nothing is admitted until the window ends, set block or not |
| IpRateLimit.BlockHolds | src/guards/ip-rate-limit.guard.ts:32-66 | once the block is set, no block check in the next 300 seconds is passed, under every interleaving |
| IpRateLimit.OnlyInFlightAdmitted | src/guards/ip-rate-limit.guard.ts:32-66 | those 300 seconds admit at most the requests that were past their check when it was set |
| IpRateLimit.QuietOverRuns | src/guards/ip-rate-limit.guard.ts:21-70 | between requests taken one at a time nothing is in flight and no window outlives its length |
| IpRateLimit.BlockIsExact | src/guards/ip-rate-limit.guard.ts:21-70 | after any requests taken one at a time: who trips the limit is refused, refused requests change nothing, and the block ends exactly after 300 seconds |
| IpRateLimit.IpRateLimitGuard.IncrementWithTtlNx | src/lib/cache/cache.service.ts:143-149 | the window's end is set by its first hit and later hits do not move it |
| IpRateLimit.IpRateLimitGuard.CanActivate | src/guards/ip-rate-limit.guard.ts:21-70 | admits exactly when neither blocked nor over the limit; a refusal leaves a block in force |
| CopyPool.NoAssetTakenTwice | scripts/cloudinary-migrate.ts:252-256 | under every interleaving no index is taken by two turns |
| CopyPool.AtMostFiveWorkers | scripts/cloudinary-migrate.ts:275-277 | at most five workers, no more than pending assets, and at least one |
| CopyPool.JoinAddsUp | scripts/cloudinary-migrate.ts:240-284 | at join every pending asset finished once, the counters add up to the number pending, and the migrated set gained exactly the keys that did not fail |
| CopyPool.JoinWithoutFailures | scripts/cloudinary-migrate.ts:240-284 | without failures the migrated set is the old one and everything in scope |
| CopyPool.ProgressStaysInScope | scripts/cloudinary-migrate.ts:220-250 | what a stopped run saved lies between where it started and everything in scope |
| CopyPool.RestartConverges | scripts/cloudinary-migrate.ts:220-284 | stopped anywhere and resumed without failures, the migrated set is that of one undisturbed run |
| CopyPool.LostProgressConvergesIff | scripts/cloudinary-migrate.ts:186-192 | with the progress file lost this holds exactly if everything recorded before was in scope |
| CopyPool.LostProgressForgets | scripts/cloudinary-migrate.ts:186-192 | a run with nothing in scope forgets what was recorded |
| AssetRuns.CopyRunMeans | scripts/cloudinary-migrate.ts:220-284 | a whole copy run from any state at rest: nothing leaves the source, nothing is overwritten, every name newly recorded was in scope and is on the destination; without failures the record is the old one and the whole account, or what of it the scope names |
| AssetRuns.CopySurvivesCrash | scripts/cloudinary-migrate.ts:220-284 | cut short anywhere and run again without failures, the record is that of one undisturbed run |
| AssetRuns.WrittenFileSurvives | scripts/cloudinary-migrate.ts:186-192 | a crash leaves the record as last written, or none if it takes the file |
| AssetRuns.DeleteRunMeans | scripts/cloudinary-delete-source.ts:77-151 | whatever a delete run skips and wherever it stops: what leaves the source was listed, recorded as migrated and is on the destination, and nothing else changes |
| AssetRuns.WholeDelete | scripts/cloudinary-delete-source.ts:108-151 | a delete run without failing calls takes off the source all that was listed, recorded and is on the destination |
| AssetMigration.NothingIsLost | scripts/cloudinary-delete-source.ts:108-151 | over any copy and delete runs, cut short anywhere, every source asset is on one of the accounts and neither account's bytes are overwritten |
| AssetMigration.BytesSurviveIff | scripts/cloudinary-delete-source.ts:62-75 | the bytes survive every run exactly if no source name was taken by other bytes on the destination |
| AssetMigration.CopyOverTakenName | scripts/cloudinary-migrate.ts:159-184 | a copy onto a taken name counts as migrated |
| AssetMigration.TakenNameLosesBytes | scripts/cloudinary-delete-source.ts:62-75 | a run after which the bytes of a source asset are on neither account |
| AssetMigration.OnlyVerifiedLeave | scripts/cloudinary-delete-source.ts:108-151 | what leaves the source is exactly what joins the deleted list, and all of it is on the destination |
| AssetMigration.DeletedIff | scripts/cloudinary-delete-source.ts:108-151 | over distinct targets: deleted exactly if before, or present on the destination with no call failing; deleted, skipped and done before add up |
| AssetMigration.DryRunDeletesNothing | scripts/cloudinary-delete-source.ts:127-132 | without the apply flag both sides stay as they were |
| AssetMigration.DryRunForetells | scripts/cloudinary-delete-source.ts:125-132 | a dry run counts exactly the targets an applied run tries to delete |
| AssetMigration.DeleteSource.DeleteTargets | scripts/cloudinary-delete-source.ts:108-151 | the loop's accounts and counters are those of the sweep the lemmas above are about |
| PhantomRepair.PhantomIdsMean | scripts/repair-phantom-charge-plan-credits.ts:85-118 | the classification finds, once each and in ledger order, exactly the installment payments whose plan is for a charge other than the outstanding balance |
| PhantomRepair.TakenBackIff | scripts/repair-phantom-charge-plan-credits.ts:85-193 | the repaired ledger holds a new row reversing a credit exactly if it is a non-zero installment payment of a plan for a charge other than the outstanding balance, and no tagged charge reversed it before |
| PhantomRepair.AddedRowsMean | scripts/repair-phantom-charge-plan-credits.ts:172-193 | every row a repair adds is such a reversal, column by column |
| PhantomRepair.RunByFields | scripts/repair-phantom-charge-plan-credits.ts:120-143 | which credits a run sets out to reverse and which pairs it refreshes, by the columns of rows and plans |
| PhantomRepair.ToReverseMeans | scripts/repair-phantom-charge-plan-credits.ts:120-134 | what is left after the filter is exactly the phantom credits with no reversal yet |
| PhantomRepair.RepairConverges | scripts/repair-phantom-charge-plan-credits.ts:172-193 | stopped after any number of writes and run again, the ledger is that of one full run, row for row |
| PhantomRepair.RepairSurvivesStops | scripts/repair-phantom-charge-plan-credits.ts:172-193 | the same after any number of stopped runs |
| PhantomRepair.RepairIsIdempotent | scripts/repair-phantom-charge-plan-credits.ts:120-134 | a run over a repaired ledger writes nothing |
| PhantomRepair.RepairIsExact | scripts/repair-phantom-charge-plan-credits.ts:85-193 | each non-zero installment payment of a plan for a charge other than the outstanding balance, not reversed before, gets exactly one reversal; no other row's count changes; each pair's balance drops by exactly its phantom total |
| PhantomRepair.WrittenSkipsZeros | src/tenant-balances/tenant-balances.service.ts:129-131 | zero credits are visited in every run and never write a row |
| PhantomRepair.ResumedRefreshIff | scripts/repair-phantom-charge-plan-credits.ts:136-205 | a resumed run refreshes a pair if and only if one of its phantoms was still to be written or is zero |
| PhantomRepair.RepairScript.ClassifyCredits | scripts/repair-phantom-charge-plan-credits.ts:85-118 | the loop lists exactly the phantoms, and its other two counts are the credits of other plans and those without a plan |
| PhantomRepair.RepairScript.Repair | scripts/repair-phantom-charge-plan-credits.ts:85-205 | an applied run leaves the repaired ledger and refreshes the pairs it set out to reverse; a dry run does neither |
| DataCleanup.KeepsTheNewest | src/kyc-links/tenant-attachment.service.ts:822-862 | every tenant ends with one active rent if there was any, and it is a most recent one, whichever way ties are ordered |
| DataCleanup.OneNewestEach | src/kyc-links/tenant-attachment.service.ts:822-862 | afterwards no two active rents have one tenant, and whoever had an active rent has one at least as recent |
| DataCleanup.CleanupByColumns | src/kyc-links/tenant-attachment.service.ts:806-948 | with distinct dates, every rent, tenancy and property afterwards, column by column |
| DataCleanup.CrowdedMeans | src/kyc-links/tenant-attachment.service.ts:822-830 | the tenants counted are those with two active rents |
| DataCleanup.OccupiedIsRented | src/kyc-links/tenant-attachment.service.ts:904-932 | every property left occupied has an active rent |
| DataCleanup.SecondCleanupIsIdle | src/kyc-links/tenant-attachment.service.ts:822-932 | a second cleanup changes no table and reports zero twice |
| DataCleanup.DroppedIffOutdated | src/kyc-links/tenant-attachment.service.ts:841-862 | with distinct creation dates a rent is ended exactly if its tenant has a more recent one |
| DataCleanup.StaysOccupiedIff | src/kyc-links/tenant-attachment.service.ts:875-879 | a property with an active rent left stays occupied exactly if no outdated rent was on it |
| DataCleanup.RentedPropertyGoesVacant | src/kyc-links/tenant-attachment.service.ts:875-879 | two rents of one tenant on one property: the kept rent's property ends vacant and its tenancy inactive |
| DataCleanup.EndingFollows | src/kyc-links/tenant-attachment.service.ts:857-897 | ending one rent keeps tenancies, properties and history exactly in step with the rents ended |
| DataCleanup.TenantAttachmentService.FindActiveRents | src/kyc-links/tenant-attachment.service.ts:841-847 | a tenant's active rents, each once, most recent first |
| DataCleanup.TenantAttachmentService.FindCrowdedTenants | src/kyc-links/tenant-attachment.service.ts:822-830 | the tenants with more than one active rent, each once |
| DataCleanup.TenantAttachmentService.EndDuplicates | src/kyc-links/tenant-attachment.service.ts:840-902 | the first pass settles every tenant, with both counters right |
| DataCleanup.TenantAttachmentService.VacateUnrented | src/kyc-links/tenant-attachment.service.ts:904-932 | the second pass vacates exactly the occupied properties without an active rent, and counts them |
| DataCleanup.TenantAttachmentService.FixExistingDataInconsistencies | src/kyc-links/tenant-attachment.service.ts:806-948 | every table after the cleanup, row by row, and the two counts returned |
| Otp.RightOverRuns | src/kyc-links/kyc-links.service.ts:412-455 | in every reachable table codes of one key are a minute apart, only the latest can be active, none is active and verified, and each verified row has given exactly one token in time |
| Otp.OneActiveCode | src/landlord-onboarding/landlord-onboarding.service.ts:126-157 | a phone and token have at most one active code |
| Otp.AcceptedIff | src/kyc-links/kyc-links.service.ts:604-637 | after any run a code is accepted if and only if it is the key's latest, active, and not past ten minutes |
| Otp.SentIff | src/kyc-links/kyc-links.service.ts:404-455 | after any run a code is sent exactly if link and phone are good and every code of the key is a minute old; its row is then the only active one and lasts ten minutes |
| Otp.VerifyOutcomes | src/kyc-links/kyc-links.service.ts:604-637 | after any run, what a call with an active or an inactive code answers and does to every row |
| Otp.TokensComeFromTheLatest | src/landlord-onboarding/landlord-onboarding.service.ts:189-208 | a call issues at most one token, for the key's latest row, in time, and never twice for a row |
| Otp.SupersededForGood | src/kyc-links/kyc-links.service.ts:430-439 | once a newer code was sent, an older row is never active or verified again |
| Otp.MostRecentIsLast | src/kyc-links/kyc-links.service.ts:412-420 | the row with the greatest creation time is the key's last, so the resend check looks at the right one |
| Otp.OtpTable.SendOtp | src/landlord-onboarding/landlord-onboarding.service.ts:126-157 | refused within a minute; otherwise every active row of the key is switched off and one active row added |
| Otp.OtpTable.VerifyOtp | src/landlord-onboarding/landlord-onboarding.service.ts:189-208 | unknown, expired (which switches the row off), used, or verified and switched off with one token |
| InvoiceNumbers.ParseInvertsPrint | src/ad-hoc-invoices/ad-hoc-invoices.service.ts:1460-1466 | every zero-padded number parses back to itself |
| InvoiceNumbers.PaddedOrder | src/ad-hoc-invoices/ad-hoc-invoices.service.ts:1454-1458 | up to 9999 the strings sort as the numbers do |
| InvoiceNumbers.TenThousandSortsLow | src/ad-hoc-invoices/ad-hoc-invoices.service.ts:1454-1458 | 10000 sorts before 9999 |
| InvoiceNumbers.YearsApart | src/invoices/invoices.service.ts:55-63 | a number of one year never matches another year's prefix |
| InvoiceNumbers.NumbersOverRuns | src/invoices/invoices.service.ts:55-75 | after any run over any years, each year holds exactly its first numbers in order, at most ten thousand |
| InvoiceNumbers.IssuedIff | src/ad-hoc-invoices/entities/ad-hoc-invoice.entity.ts:30 | a creation succeeds, with the next number, if and only if fewer than ten thousand were tried before in its year |
| InvoiceNumbers.InvoiceTable.CreateNumber | src/ad-hoc-invoices/ad-hoc-invoices.service.ts:1446-1467 | greatest string plus one, refused when already there |
| PaymentSplit.RightOverRuns | src/invoices/invoices.service.ts:602-662 | from `create`, through any updates, cancellations and payments: outstanding and credit are the two sides of total − paid, and paid status means settled by a payment |
| PaymentSplit.OnlyClosingPaymentSpills | src/invoices/invoices.service.ts:629-643 | credit comes from the last payment alone, and is less than it unless the total was zero |
| PaymentSplit.PaidIsFinal | src/invoices/invoices.service.ts:617-619 | once paid, no later call changes the invoice |
| PaymentSplit.CancelledIff | src/invoices/invoices.service.ts:571-597 | after any run with positive payments an invoice is cancelled exactly if it was cancelled once and no payment was ever recorded |
| PaymentSplit.PaymentMeans | src/invoices/invoices.service.ts:602-662 | a payment adds to paid, splits what is left into outstanding and credit, never both, and settles the invoice exactly when the total is reached |
| PaymentSplit.LetterStarts | src/invoices/invoices.service.ts:425-470 | an offer-letter invoice is paid, partly paid or pending as everything, a part or nothing was prepaid |
| PaymentSplit.LetterSplitIff | src/invoices/invoices.service.ts:441-454 | for an offer-letter invoice the sum identity holds exactly if nothing was prepaid, no items were updated, or a payment was recorded |
| PaymentSplit.LetterSplitsIff | src/invoices/invoices.service.ts:441-454 | outstanding and credit are the two sides of total minus paid if and only if a payment was recorded, nothing was prepaid, or the items are the letter's and ask at least the prepaid amount |
| PaymentSplit.OverpaidLetterHasNoCredit | src/invoices/invoices.service.ts:441-454 | a hundred and fifty prepaid on a hundred: outstanding below zero and no credit |
| PaymentSplit.UpdateForgetsPrepaid | src/invoices/invoices.service.ts:536-560 | forty of a hundred prepaid and the items updated: a hundred outstanding |
| PaymentSplit.RepricedLetterStaysOwing | src/invoices/invoices.service.ts:536-560 | a letter paid in full and repriced owes the new total, and every later payment is ignored |
| PaymentSplit.CreateInvoice | src/invoices/invoices.service.ts:293-315 | a total of zero is refused; otherwise everything is outstanding |
| PaymentSplit.InvoiceRow.Update | src/invoices/invoices.service.ts:505-565 | refused after a payment; otherwise total and outstanding are the new sum |
| PaymentSplit.InvoiceRow.Cancel | src/invoices/invoices.service.ts:571-597 | refused after a payment |
| PaymentSplit.InvoiceRow.RecordPayment | src/invoices/invoices.service.ts:602-662 | the new paid, outstanding, credit and status; nothing on a paid invoice |
| EscapeHtml.FivePassesAreOne | src/invoices/invoice-pdf.service.ts:253-260 | the five replacements in a row are one pass with a table, for every string |
| EscapeHtml.CharacterIsSpelled | src/ad-hoc-invoices/ad-hoc-invoice-pdf.service.ts:140-150 | what stands for each character in either form |
| EscapeHtml.FormsAgree | src/ad-hoc-invoices/ad-hoc-invoice-pdf.service.ts:140-150 | the single pass differs from the five only in the spelling of the apostrophe entity |
| EscapeHtml.UnescapeInvertsBoth | src/ad-hoc-invoices/ad-hoc-invoice-pdf.service.ts:140-150 | one reader gives back the text from either form |
| EscapeHtml.NoMarkupLeft | src/invoices/invoice-pdf.service.ts:253-260 | neither form leaves an angle bracket or a quote |

## Left out

- Cancelling or editing an invoice is one atomic operation; each reads first and writes later in the code, so two of them, or one and a payment, can overlap in ways not modelled. Confirmations do interleave with whole edits and cancellations.
- Payment-plan internals beyond one plan covering one invoice, collecting installments and releasing it; an installment below half a naira, which the code holds back until the next one.
- AdHocLedger.CoverAndReleaseKeep: covers an invoice for all it still asks; a plan that covers part of one (the rest being offset by wallet credit) and its release, which books that rest as paid, are not modelled.
- AdHocOutcomes.CoveredIff: the amount split into installments, which must be within a naira of what is outstanding, is not modelled.
- AdHocOutcomes.EditedIff: descriptions are taken as already trimmed and due dates as valid; notes are not modelled.
- Floating-point amounts and rounding: money is integer kobo.
- Notifications, receipts, PDFs, message wording, history rows (except the cleanup's), websockets, request validation and access scope.
- Reopened and re-resolved maintenance requests: the three weeks are stated for one resolution cycle, since reminders are counted per request id.
- A failing cache, which makes the limiter allow a request, and a crash between the increment and setting its expiry.
- Superseding a letter, which reverses its charge, and the renewal of one letter by two runs at once.
- Refreshing a pair's invoice totals beyond which pairs a repair refreshes.
- Two tenancies of one tenant and landlord renewed at the same moment: the wallet is changed by one catch-up at a time.
- Custom rent frequencies take a length in whole months by exact arithmetic instead of the code's rounded floating-point quotient.
- Concurrent calls of one-time-code sending and verifying, invoice numbering, and payment recording on landlord invoices: each call is atomic here.
- Daylight-saving changes: a code's ten minutes are 600000 milliseconds.
- Database collation: strings compare character by character, which on digits every collation agrees with.
- A paid installment going back to unpaid; the order of reminders is stated for installments that stay paid.
- The list of deleted keys across crashes: it only saves repeated calls, and appears in the delete loop itself.
- A stored invoice number without digits after its prefix, which the two services handle differently: no run of creations makes one.
