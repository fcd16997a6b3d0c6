# Wallet backend: a verified model

This project models the parts of a crypto-wallet backend that keep money, leases and counters
straight, and proves what they promise. `dafny verify dfyconfig.toml` checks all of it.

- **AutoStack** (`Calendar`, `AutoStackLedger`, `AutoStackStore`, `AutoStackQuotes`, `ExecutionTx`,
  `ExecutionProtocol`, `ExecutionFence`, `ExecutionCharges`, `ExecutionCancel`, `ExecutionStore`,
  `ChargeJobs`, `InterestDispatch`). Recurring savings.
  `AutoStackLedger` is the ledger of wallets, stacks and company liquidity under whole database
  transactions; `ExecutionProtocol` lets any number of workers race for one execution transaction,
  whose database transactions are those of `ExecutionTx`, and `ExecutionFence` says exactly which
  writes keep its books; `ExecutionCharges` counts what the provider accepts and `ExecutionCancel`
  follows the row after a cancellation; `ChargeJobs` puts charge jobs of one stack side by side;
  `InterestDispatch` is the cursor loop that enqueues due stacks.
- **Bill payment** (`BillQuote`, `BillSaga`, `BillQuotes`, `BillStore`). The quote arithmetic, the saga
  of two reservations, an external order and three continuations, and the sagas that share one quote.
- **Currency converter** (`Numerals`, `Rounding`, `Networks`, `Amounts`, `AmountTexts`, `CurrencyScale`,
  `Converter`). A decimal parser and printer over unbounded integers, scaled by a mutable cache of default networks.
- **Payment addresses** (`PaymentAddress`, `AddressStore`). A unique insert and a compare-and-swap
  that decide which worker may call the provider. Both run inside one long transaction that spans
  every slot of a user and stays open during the provider's calls: a worker's row is its own until
  it commits, other writers of the row wait, and a rollback takes the row along. PostgreSQL ends a
  transaction at a failed statement unless a savepoint stands before it; the model has both cases,
  as `savepoints`.
- **Dashboard** (`Dashboard`, `DashboardStore`), **broadcast** (`Broadcast`) and **resend limits**
  (`ResendLimiter`).

Code that changes rows step by step is a `class` whose methods are proved against functions on
values; the theorems over runs and interleavings are about those functions. A protocol is a state
machine: a step function, a run over any list of events, and an invariant. Short database
transactions are atomic and serialised by their row locks, unique keys are unique, and calls to the
outside succeed or fail arbitrarily. `Decimal` values are exact rationals followed by the rounding
that the code states.

Where the code does less than one would guess, the exact statement is proved:

- A bill quote is read when a confirmation begins and deleted when it ends, so one quote can be paid
  twice: by confirmations that overlap, and by a retry after one that paid and failed to record it
  (`BillQuotes.LetInIff`, `BillQuotes.PaidTwice`). It is paid once at most if each confirmation waits
  until every other one has ended and none of them has paid (`BillQuotes.PaidOnce`). The quote of an
  autostack is never deleted: every repetition in time makes another stack
  (`AutoStackQuotes.EveryRepeatCreates`).
- A swap or a card charge that the provider accepted is given back when its client throws or when
  the record of it does, and the retry charges again (`ExecutionCharges.ReleasedAfterAcceptanceIff`,
  `ExecutionCharges.LostRecordChargesTwice`). No other run within the leases charges twice
  (`ExecutionCharges.ChargedOnce`).
- A worker that looked the row up before a cancellation debits the wallet after it; that the sums of
  the ledger hold all the same (`AutoStackLedger.StaleExecuteKeepsSums`) does not show it
  (`ExecutionCancel.DebitAfterCancel`, `ExecutionCancel.CancelIsFinalIff`).
- `cancelPending` releases the source only, although source + fee was reserved: the fee part stays
  reserved (`ExecutionTx.CancelLeavesFee`).
- A card charge that re-enters after a crash reserves again when its live rate has moved
  (`ExecutionTx.CardReentry`).
- A worker that outlives its 15-minute lease can debit twice, its late reservation rewinds the next
  worker's lease, and its late failure turns COMPLETED into FAILED although the wallet was debited
  (`ExecutionProtocol.OverrunDebitsTwice`, `ExecutionProtocol.OverrunReopensLease`,
  `ExecutionFence.LateFailureHidesDebit`). Exactly which writes do harm: `ExecutionFence.BooksAreExact`.
- The row of a later charge copies the whole metadata of the stack's own transaction. It starts
  balanced exactly if that says no RESERVED (`ExecutionTx.CreatedRowKeepsBooks`), and once the stack's
  own charge is settled, it carries that mark: the swap handler takes the later charge for settled
  and skips it (`ExecutionCancel.SettlementIsCopied`).
- `unlock` reads the stack outside its transaction, so two of them can both pay out, and for a lone
  stack no sum shows it (`AutoStackLedger.DoubleUnlockPaysTwice`, `AutoStackLedger.DoubleUnlockMintsValue`).
- A charge reads the stack outside its transaction as well: one that raced an unlock makes the stack
  ACTIVE again with its old amount, or accrues on an ENDED one (`AutoStackLedger.StaleExecuteKeepsSums`,
  `AutoStackLedger.StaleAccrueKeepsSums`).
- Two charge jobs on one due stack can debit twice without any lease being overrun, the second time
  for a date that is not due; within one millisecond they leave the stack where no job charges it
  again (`ChargeJobs.OverlapChargesEarly`, `ChargeJobs.StuckForever`).
- A provider call for an address is repeated at once after a rollback. Without savepoints a worker
  that finds an existing row ends its transaction, so the takeover after three minutes never happens
  (`PaymentAddress.RolledBackCallRepeats`, `PaymentAddress.ClosedIsAbsorbing`).
- Priming the network cache does not understand the provider's network names that the resolver
  reads (`Converter.PrimingAgainstResolving`).
- An order that the exchange accepted is released if its acceptance is not reported: the call
  throws, the status is not success, or the data is missing (`BillSaga.ReleasedAfterAcceptanceIff`).
- A due monthly charge after an execution in February accrues nothing until day 30
  (`AutoStackLedger.DueChargeAccrues`).
- The dispatch skips a due stack when the stack at its cursor stops being due between two pages
  (`InterestDispatch.NextIsOnPage`). The model takes a cursor as a position in the order of ids and
  `skip: 1` as dropping the first row found there.
- A dashboard job adds `nairaAmountBase` while a rebuild sums `fiatAmountBase`; the two agree exactly
  when those sums do. A job that finds the lock taken drops its transaction, and one that writes a
  stale hash loses updates for good (`Dashboard.CountsAreExact`).
- A broadcast counts a batch twice if its cleanup raises, stops at the first exception, and sends the
  image with the first batch only.

## Model

| member | source | states |
|---|---|---|
| AutoStackLedger.RunKeepsInv | src/modules/autostack/services/autostack.service.ts:936-1032 | Over any run of confirm, USDT execution, accrual, cancellation, unlock, reserve and release transactions, each wallet's `stackedAmount` and `totalStackedInterest` and the company's `totalAmountStacked` and `totalAccruedLockedInterest` are the sums over the ACTIVE stacks, and 0 <= reserved <= base. |
| AutoStackLedger.StepKeepsInv | src/modules/autostack/services/autostack.service.ts:936-1032 | Every single transaction keeps those sums and the availability of every wallet, whether it commits or rolls back. |
| AutoStackLedger.ReservedMovesIff | src/modules/transaction/services/transaction.service.ts:41-115 | A reservation adds its sum to `reserved` if and only if that much is free, a release takes its sum off if and only if that much is reserved; nothing else changes. |
| AutoStackLedger.DebitIff | src/modules/autostack/services/autostack.service.ts:936-1032 | A charge debits if and only if the stack is not ENDED, due or forced, and the wallet has amount and fee free; what then becomes of wallet, stack and company, field by field. |
| AutoStackLedger.AccrualIff | src/modules/scheduler/schedulers/autostack-interest.scheduler.ts:88-160 | A charge accrues the interest of one period if and only if the stack is ACTIVE, due, and past its interest date; what then changes, field by field. |
| AutoStackLedger.UnlockIff | src/modules/autostack/services/autostack.service.ts:1526-1592 | The owner of an ACTIVE stack, with the right PIN, unlocks it: before the interest date for the amount less five percent rounded down, from then on for amount and interest; nobody else changes anything. |
| AutoStackLedger.CancelIff | src/modules/autostack/services/autostack.service.ts:1376-1519 | The owner of a PENDING stack ends it by a cancellation, and nobody else. |
| AutoStackLedger.ClampsNeverBite | src/modules/autostack/services/autostack.service.ts:1550-1592 | What an unlock subtracts is covered by each of the four counters, so no `GREATEST(..., 0)` changes a result. |
| AutoStackLedger.StaleUnlockIsExact | src/modules/autostack/services/autostack.service.ts:1526-1592 | `unlock` reads the stack outside its transaction. For any row it may have read, the commit keeps the sums, moves base + stacked by exactly minus the penalty plus the interest paid and takes exactly the accrued interest it read from the company, if and only if that row has the amount and the accrued interest which the stack contributes now (nothing once it is not ACTIVE). |
| AutoStackLedger.DoubleUnlockPaysTwice | src/modules/autostack/services/autostack.service.ts:1526-1592 | Two unlocks that read one ACTIVE row both succeed and both pay out, in any ledger; the second settles nothing unless the stack is empty. |
| AutoStackLedger.DoubleUnlockMintsValue | src/modules/autostack/services/autostack.service.ts:1526-1592 | Reached by a run from one wallet, for every amount, fee, frequency and instant: after both unlocks of a lone stack every sum still holds, and the user has been paid twice. |
| AutoStackLedger.ConfirmKeepsInv | src/modules/autostack/services/autostack.service.ts:490-561 | A confirmation adds a PENDING stack and disturbs no sum. |
| AutoStackLedger.StaleExecuteKeepsSums | src/modules/autostack/services/autostack.service.ts:632-669 | `initiateAutoStack` reads the stack outside its transaction: the debit keeps the sums if and only if the row is still ACTIVE when it was read ACTIVE, not ACTIVE yet when it was read PENDING (a row without amount aside), and an ENDED row brings no accrued interest back. |
| AutoStackLedger.InterestConserved | src/modules/scheduler/schedulers/autostack-interest.scheduler.ts:112-157 | Outstanding accrued interest + interest paid + interest forfeited by early unlocks grows by exactly the interest accrued, over any run. |
| AutoStackLedger.ValueConserved | src/modules/autostack/services/autostack.service.ts:1543-1567 | base + stacked of a user changes over any run by minus fees, minus early penalties, plus interest paid, and by nothing else. |
| AutoStackLedger.FlowsByKind | src/modules/autostack/services/autostack.service.ts:1543-1567 | Fees go with debits, penalties and lost interest with unlocks before the interest date, paid interest with unlocks from then on, and interest comes with accruals. |
| AutoStackLedger.StaleAccrueKeepsSums | src/modules/scheduler/schedulers/autostack-interest.scheduler.ts:88-160 | `executeCharge` reads the status before its lock: the accrual keeps the sums if and only if the row is ACTIVE still or the interest is 0. |
| AutoStackLedger.StaleCancelKeepsSums | src/modules/autostack/services/autostack.service.ts:1376-1519 | `cancelPending` reads the status before its transaction: the sums survive if and only if the row contributes nothing now. |
| AutoStackLedger.StepMovesInterestDate | src/modules/scheduler/schedulers/autostack-interest.scheduler.ts:122-141 | One step leaves the interest date of a stack or moves it to one period past its own time, and an accrual always does the latter. |
| AutoStackLedger.AccrualsSpaced | src/modules/scheduler/schedulers/autostack-interest.scheduler.ts:95-157 | Over any run with a clock that does not go back, accruals on one stack are at least its period (1, 7 or 30 days) apart, failed and retried charges included. |
| AutoStackLedger.AccrualTimesAreAll | src/modules/scheduler/schedulers/autostack-interest.scheduler.ts:95-157 | The list of accruals names every charge of a run that finds the stack ACTIVE, due, and past its interest date. |
| AutoStackLedger.AccrualsBounded | src/modules/scheduler/schedulers/autostack-interest.scheduler.ts:95-157 | Hence the number of accruals on one stack, less one, times its period fits between the first and the last of them. |
| AutoStackLedger.DueChargeAccrues | src/modules/scheduler/schedulers/autostack-interest.scheduler.ts:95-134 | A due charge after an execution always accrues interest, except for a monthly stack executed in February before day 30. |
| AutoStackLedger.RoundHalfUp | src/modules/scheduler/schedulers/autostack-interest.scheduler.ts:124-132 | `ROUND_HALF_UP`: the result is within one half, the upper half excluded. |
| AutoStackLedger.Interest | src/modules/scheduler/schedulers/autostack-interest.scheduler.ts:124-132 | principal x rate / 100 x days, off by at most half a base unit. |
| AutoStackLedger.Penalty | src/modules/autostack/services/autostack.service.ts:1543-1549 | The largest integer not above a twentieth of the principal. |
| AutoStackStore.Store.constructor | src/modules/autostack/services/autostack.service.ts:490-561 | The empty ledger satisfies the sums. |
| AutoStackStore.Store.ExecuteUsdt | src/modules/autostack/services/autostack.service.ts:936-1032 | The USDT execution from a stack that was read earlier: its refusals touch no row, its commit is that of the ledger, and on an up-to-date read it is the ledger step. |
| AutoStackStore.Store.DebitUsdt | src/modules/autostack/services/autostack.service.ts:952-1010 | The in-place updates of wallet, liquidity and stack, with the status that was read. |
| AutoStackStore.Store.ExecuteCharge | src/modules/scheduler/schedulers/autostack-interest.scheduler.ts:88-160 | Status and execution date as read before the lock, amount and interest date as found under it: when the accrual happens, and when `initiateAutoStack` follows, forced or not. |
| AutoStackStore.Store.EndPending | src/modules/autostack/services/autostack.service.ts:1376-1519 | The stack row of a cancellation: decided on the row that was read, done to the row there is. |
| AutoStackStore.Store.UnlockStack | src/modules/autostack/services/autostack.service.ts:1526-1592 | Payout, penalty and clamped counters from the stack that was read; the ledger step when it is up to date. |
| AutoStackStore.Store.Reserve | src/modules/transaction/services/transaction.service.ts:41-77 | `reserveBalance`: refuses without change when base - reserved is too small. |
| AutoStackStore.Store.Release | src/modules/transaction/services/transaction.service.ts:79-115 | `releaseBalance`: refuses without change when less is reserved. |
| Calendar.DateOf | src/modules/autostack/services/autostack.service.ts:593-607 | The UTC date of a day number is a valid date of that day (section 21.4.1 of ECMA-262). |
| Calendar.DatesFollow | src/modules/autostack/services/autostack.service.ts:593-607 | Day 0 is 1 January 1970, and the date of day n + 1 is the successor of that of day n, for every n, by month lengths and Gregorian leap years written out. |
| Calendar.DateAtIsItsDay | src/modules/autostack/services/autostack.service.ts:593-607 | A time value falls on the date of the day whose 86,400,000 ms it lies in. |
| Calendar.DateOfInvertsMakeDay | src/modules/autostack/services/autostack.service.ts:593-607 | Dates and day numbers are in bijection. |
| Calendar.AddDaysIsElapsedTime | src/modules/autostack/services/autostack.service.ts:601-607 | `setUTCDate(getUTCDate() + n)` is n times 86,400,000 ms, across months and years. |
| Calendar.AddMonthIsMonthLength | src/modules/autostack/services/autostack.service.ts:593-599 | `setUTCMonth(getUTCMonth() + 1)` advances by exactly the length of the starting month, for every day of the month. |
| Calendar.ExecutionAgainstInterest | src/modules/autostack/services/autostack.service.ts:593-607 | Next execution precedes next interest exactly for a monthly stack executed in February, follows it exactly from a 31-day month, and coincides with it otherwise. |
| Calendar.DueWithoutInterest | src/modules/scheduler/schedulers/autostack-interest.scheduler.ts:95-134 | Exactly when a due execution finds no interest due. |
| Calendar.SameDateIsSameDay | src/modules/autostack/services/autostack.service.ts:609-626 | `isSameUtcDate` holds exactly for instants of the same UTC day, less than 24 hours apart. |
| Calendar.ExecutionDueIff | src/modules/autostack/services/autostack.service.ts:609-626 | An execution is due from its time on and, if asked for, on its whole UTC date. |
| ExecutionTx.SourceFeeIsLeast | src/modules/autostack/services/autostack.service.ts:857-873 | The fee in source units is the least integer whose value is not below the USDT fee, and the USDT fee itself when the source is USDT. |
| ExecutionTx.ReservesIff | src/modules/autostack/services/autostack.service.ts:876-934 | A claim that has not recorded the amount reserves if and only if the user has source + fee free (for a swap) and the company the amount; then exactly these are reserved and recorded, otherwise the missing side is named. |
| ExecutionTx.CompensatesIff | src/modules/autostack/services/autostack.service.ts:1179-1232 | A failure ends the row FAILED and RELEASED; each balance loses what the row has RESERVED of it exactly if that much is reserved. |
| ExecutionTx.CancelTxIff | src/modules/autostack/services/autostack.service.ts:1456-1519 | A cancellation takes the company's amount and the source off, or fails when either is not reserved; the row is CANCELLED, from the metadata that was read. |
| ExecutionTx.ReserveKeepsLease | src/modules/autostack/services/autostack.service.ts:876-934 | A reservation leaves status and claim time alone if and only if the worker's claim is still the row's. |
| ExecutionTx.CardReentry | src/modules/autostack/services/autostack.service.ts:1084-1178 | Re-entering a card charge keeps the books if and only if the live rate gives the same amount; otherwise both amounts are held and the compensation leaves the first. |
| ExecutionTx.CompensateUndoesReserve | src/modules/autostack/services/autostack.service.ts:1179-1232 | The failure path restores both balances exactly. |
| ExecutionTx.CompensateReleasesAll | src/modules/autostack/services/autostack.service.ts:1179-1232 | On balanced books the compensation releases exactly what the row holds and nothing else. |
| ExecutionTx.CancelLeavesFee | src/modules/autostack/services/autostack.service.ts:1456-1484 | A cancellation releases the company's part and the source, and leaves exactly the fee part of the user's reservation: balanced if and only if the fee is 0. |
| ExecutionTx.ReserveKeepsBooks | src/modules/autostack/services/autostack.service.ts:876-934 | Whoever reserves, the books (covered, as the metadata says, COMPLETED exactly after one debit) go on if and only if the row is not COMPLETED and has the hold that the claim takes for granted: that of its own amount when the claim read it, none otherwise. |
| ExecutionTx.DebitKeepsBooks | src/modules/autostack/services/autostack.service.ts:982-1032 | Whoever debits, the books go on if and only if the row is not COMPLETED yet and has the hold that the claim read. |
| ExecutionTx.CompensateKeepsBooks | src/modules/autostack/services/autostack.service.ts:1179-1232 | Whoever compensates, a debit is not forgotten if and only if the row is not COMPLETED. |
| ExecutionTx.SubmitKeepsBooks | src/modules/autostack/services/autostack.service.ts:1051-1178 | Whoever submits, the books go on if and only if the row is not COMPLETED and, for a card, has the hold that is written; they go on with the submitted charge backed if and only if the row has its reservation now. |
| ExecutionTx.CancelKeepsBooks | src/modules/autostack/services/autostack.service.ts:1389-1519 | `cancelPending` works from metadata read before its transaction: when it goes through, the books go on if and only if the row is not COMPLETED and holds exactly what that metadata lets it release, without the fee. |
| ExecutionTx.CreatedRowKeepsBooks | src/modules/autostack/services/autostack.service.ts:755-770 | A new row copies the metadata of the stack's own transaction: its books go on if and only if the copied reservation stands for what the row holds. |
| ExecutionFence.StepIsExact | src/modules/autostack/services/autostack.service.ts:782-1232 | One step of any worker or cancellation keeps the books if and only if its write fits the row: not COMPLETED, and with the hold that the write takes for granted. |
| ExecutionFence.BooksAreExact | src/modules/autostack/services/autostack.service.ts:782-1232 | The books are right at every point of a run if and only if every write of it fits the row it meets, with no assumption on clocks, leases, crashes, prices or the number of workers. |
| ExecutionFence.OwnedBooks | src/modules/autostack/services/autostack.service.ts:782-1232 | However late workers are and whatever is paid with: if every write comes from a worker whose claim is still the row's, claims have stamps of their own, there is one card rate, no new row copies a reservation and nothing is cancelled, the books are right throughout and a SUBMITTED row is backed by its reservation. |
| ExecutionFence.OwnedDebitsOnce | src/modules/autostack/services/autostack.service.ts:936-1032 | With cancellations that find the row they read as well, a USDT execution is debited at most once, and once exactly when COMPLETED, in every run whose writes come from workers that own the lease still. |
| ExecutionFence.OwnedSettledIsTerminal | src/modules/autostack/services/autostack.service.ts:782-1232 | In every such run without a cancellation SUBMITTED and COMPLETED never change, for every way of paying. |
| ExecutionFence.LateFailureHidesDebit | src/modules/autostack/services/autostack.service.ts:1179-1232 | The late failure of an overtaken worker turns COMPLETED into FAILED with the debit made, and the next claim is let in. |
| ExecutionCharges.AcceptedOnce | src/modules/autostack/services/autostack.service.ts:1034-1232 | From any state of the protocol, under kept leases and without a cancellation: the provider has accepted at most one charge more than there are acceptances whose record was lost; every other one is on the row or known to the one worker in flight. |
| ExecutionCharges.ChargedOnce | src/modules/autostack/services/autostack.service.ts:1034-1232 | So from the start a swap or a card is charged twice only if the record of an accepted charge was lost. |
| ExecutionCharges.ReleasedAfterAcceptanceIff | src/modules/autostack/services/autostack.service.ts:1179-1232 | Over such runs, the reservation of the last charge is given back although the provider accepted it, if and only if the catch block went through after the client threw or the record of the charge did; the swap handler then skips its settlement. |
| ExecutionCharges.LostRecordChargesTwice | src/modules/autostack/services/autostack.service.ts:1034-1232 | One lost record is enough: for every swap and card charge, in a run that keeps every lease and cancels nothing, two charges are accepted and one is on no row. |
| ExecutionCancel.CancelsIff | src/modules/autostack/services/autostack.service.ts:1376-1455 | A cancellation goes ahead if and only if the row is there and not COMPLETED, its stack has not ended, and no card charge of it is PROCESSING or SUBMITTED. |
| ExecutionCancel.CancelEnds | src/modules/autostack/services/autostack.service.ts:1456-1519 | A cancellation that commits ends the stack unless a reservation is missing; it is over either way. |
| ExecutionCancel.CancelIsFinalIff | src/modules/autostack/services/autostack.service.ts:788-837 | A row whose stack was cancelled never changes in any further run, if and only if no worker had looked it up or claimed it by then: CANCELLED keeps no claim out. |
| ExecutionCancel.DebitAfterCancel | src/modules/autostack/services/autostack.service.ts:1376-1519 | A worker that looked the row up before the cancellation claims it and debits the wallet after it; the stack is ended and the row COMPLETED. |
| ExecutionCancel.SettlementIsCopied | src/modules/webhook/quidax/handlers/swap-transaction.handler.ts:728-739 | A row copied from the stack's own transaction (autostack.service.ts:755-770) keeps that one's mark of settlement through every run; its reserved charge is skipped by the swap handler if and only if the original was settled. |
| ExecutionProtocol.ClaimFindsNobody | src/modules/autostack/services/autostack.service.ts:788-837 | While leases are kept, a claim that proceeds finds no worker in flight. |
| ExecutionProtocol.RunKeepsInv | src/modules/autostack/services/autostack.service.ts:782-1232 | The protocol invariant over every interleaving of any number of workers that act inside their leases, crash, fail, re-enter and race to create the row. |
| ExecutionProtocol.NeverOverdrawn | src/modules/transaction/services/transaction.service.ts:41-115 | In every run, however late its workers, neither balance has more reserved than it holds, or less than nothing, as long as other activity keeps to that. |
| ExecutionProtocol.LooksUpOrCreates | src/modules/autostack/services/autostack.service.ts:682-780 | A worker finds the row that is there; where there is none it makes one, PENDING, from the metadata of the stack's own transaction, unless another worker was faster; an ended stack is not looked at. |
| ExecutionProtocol.ClaimsIff | src/modules/autostack/services/autostack.service.ts:788-837 | A worker that has found the row claims it unless it is SUBMITTED, COMPLETED or claimed less than fifteen minutes ago, and changes nothing otherwise. |
| ExecutionProtocol.SwapReservesItsSource | src/modules/autostack/services/autostack.service.ts:876-934 | A swap reserves its source of the company, whatever a card would be charged. |
| ExecutionProtocol.AtMostOneInFlight | src/modules/autostack/services/autostack.service.ts:782-837 | Then at most one worker is in flight. |
| ExecutionProtocol.HoldsWhatItSays | src/modules/autostack/services/autostack.service.ts:876-934 | Then the row holds source + fee of the user and source of the company exactly while its metadata says RESERVED, and nothing otherwise; after a cancellation at most the fee remains. Runs with late workers: `ExecutionFence.BooksAreExact`. |
| ExecutionProtocol.AtMostOnce | src/modules/autostack/services/autostack.service.ts:671-834 | Then one scheduled instant has at most one execution transaction, debited at most once, and exactly once when COMPLETED. |
| ExecutionProtocol.SettledIsTerminal | src/modules/autostack/services/autostack.service.ts:782-837 | Then SUBMITTED and COMPLETED never change again without a cancellation. |
| ExecutionProtocol.ClaimsSpaced | src/modules/autostack/services/autostack.service.ts:788-837 | Whatever the workers do, claims that proceed are at least 15 minutes apart while no failure or cancellation is recorded and no overtaken worker rewrites the row. |
| ExecutionProtocol.OverrunDebitsTwice | src/modules/autostack/services/autostack.service.ts:936-1032 | A worker that outlives its lease can debit a second time; `ExecutionTx.DebitKeepsBooks` says exactly when. |
| ExecutionProtocol.OverrunReopensLease | src/modules/autostack/services/autostack.service.ts:906-934 | The late reservation of an overtaken worker winds the lease of the next one back. |
| ExecutionStore.Store.Claim | src/modules/autostack/services/autostack.service.ts:788-837 | The claim proceeds exactly unless the row is settled or leased, and writes status and time only then. |
| ExecutionStore.Store.ReserveSource | src/modules/autostack/services/autostack.service.ts:876-934 | The reservation transaction, all or nothing. |
| ExecutionStore.Store.Compensate | src/modules/autostack/services/autostack.service.ts:1179-1232 | The compensation with its swallowed releases. |
| ExecutionStore.Store.CancelPending | src/modules/autostack/services/autostack.service.ts:1456-1519 | The cancellation transaction from metadata read before, all or nothing. |
| ExecutionStore.ReentryHolds | src/modules/autostack/services/autostack.service.ts:876-934 | A reservation on a row that may hold one already, and its compensation: all comes back but what a moved card rate strands. |
| ExecutionStore.Store.InitiatePending | src/modules/autostack/services/autostack.service.ts:782-1232 | One undisturbed initiation: skipped exactly when blocked, done exactly when the reservation, the provider's client and the record of the charge (or the debit) succeed, thrown otherwise; the provider's acceptance is counted and changes no ending, so an accepted charge without a record is given back; a re-entered row included, also at another card rate, with what each ending holds and gives back. |
| ChargeJobs.KeysDistinct | src/modules/autostack/services/autostack.service.ts:671-680 | However charge jobs of one stack overlap, no scheduled instant is debited twice. |
| ChargeJobs.ActsIff | src/modules/scheduler/schedulers/autostack-interest.scheduler.ts:88-160 | A job goes on if and only if the stack is ACTIVE and due at its check and not ENDED when read again; it debits if and only if the row of the date then read is not COMPLETED and the wallet has amount and fee free. |
| ChargeJobs.KeysRightIff | src/modules/scheduler/schedulers/autostack-interest.scheduler.ts:88-160 | Over any run, however its jobs overlap, every job about to debit carries the date that it found due throughout, if and only if each second reading of a stack that is not ENDED met no debit since its job's check. |
| ChargeJobs.OneDueDateOnce | src/modules/scheduler/schedulers/autostack-interest.scheduler.ts:88-160 | Over the runs of which that holds, every debit is for a date that its job found due, and no due date is debited twice. |
| ChargeJobs.ReadsItsDateIff | src/modules/autostack/services/autostack.service.ts:632-676 | After such a run, a job's next reading gives the date it found due if and only if no debit was made since its check. |
| ChargeJobs.OverlapChargesEarly | src/modules/scheduler/schedulers/autostack-interest.scheduler.ts:88-160 | Otherwise, for every ledger, amount and instant: two jobs that find one date due debit twice, the second for a date not due yet, with no lease overrun. |
| ChargeJobs.StuckForever | src/modules/autostack/services/autostack.service.ts:671-680 | A stack whose next date has a COMPLETED row, as two debits at one instant leave it, is never charged again. |
| InterestDispatch.PageIsAfter | src/modules/scheduler/schedulers/autostack-interest.scheduler.ts:54-68 | Whatever charges change between pages, a page is due, in order and behind the cursor. |
| InterestDispatch.PageIsComplete | src/modules/scheduler/schedulers/autostack-interest.scheduler.ts:54-68 | A page leaves out no due stack before its end if the cursor's stack is still due. |
| InterestDispatch.NextIsOnPage | src/modules/scheduler/schedulers/autostack-interest.scheduler.ts:54-68 | The next due stack is on the page if and only if the cursor's stack is still due: `skip: 1` otherwise drops another one. |
| InterestDispatch.Scheduler.DispatchDueInterestShards | src/modules/scheduler/schedulers/autostack-interest.scheduler.ts:49-80 | The loop ends; it enqueues in id order, no stack twice; every stack due at the start if none stops being due meanwhile; exactly the due stacks, each once, if nothing changes; nothing at all while the day's lock lives. |
| Numerals.ValueOfDigits | src/shared/utils/currency-precision.util.ts:197-315 | Reading the decimal digits of a natural gives it back, with no leading zero. |
| Numerals.DigitsOfValue | src/shared/utils/currency-precision.util.ts:197-315 | Printing a digit string's value only drops leading zeros. |
| Networks.TablesAreConsistent | src/shared/constants/currency-precision.constant.ts:35-72 | Exactly the crypto currencies have a table, of known networks; 18 decimals on BEP20 and for ETH, 9 for SOL on its own network, 8 on those of BTC and DOGE, 6 elsewhere. |
| Networks.NetworksAreListed | src/shared/constants/currency-precision.constant.ts:35-72 | Which networks each currency has. |
| Amounts.ToBaseOfFromBase | src/shared/utils/currency-precision.util.ts:197-315 | `toBase(fromBase(n)) = n` for every integer and any number of decimals. |
| AmountTexts.ToBaseIff | src/shared/utils/currency-precision.util.ts:197-258 | `toBase` accepts a text if and only if it is, between spaces, an optional minus sign and digits, and perhaps a point and at most as many digits as there are decimals, and gives the number that these denote; which of the three refusals meets every other text. |
| AmountTexts.SpacesDoNotMatter | src/shared/utils/currency-precision.util.ts:197-258 | Spaces around an amount change nothing. |
| AmountTexts.FromBaseOfToBase | src/shared/utils/currency-precision.util.ts:197-315 | `fromBase(toBase(s))` is the canonical form of s for every accepted s. |
| AmountTexts.FromBaseIsShortest | src/shared/utils/currency-precision.util.ts:260-315 | `fromBase` prints the number itself, without a digit that could be left out and with a sign exactly below zero. |
| AmountTexts.ToFixedHasPlaces | src/shared/utils/currency-precision.util.ts:260-315 | `toFixed(k)`, and the fiat printer at two decimals, print the number itself with exactly k places. |
| AmountTexts.FiatHasTwoPlaces | src/shared/utils/currency-precision.util.ts:260-315 | At any number of decimals the fiat printer shows two places: the hundredths of the amount, with what is below them cut off. |
| Amounts.ToBaseOfFromFiatBase | src/shared/utils/currency-precision.util.ts:260-315 | The same round trip for the fiat printer at two decimals. |
| Amounts.QuoteFormat | src/shared/utils/currency-precision.util.ts:317-379 | `formatCryptoForQuote` prints like `fromBase`, except that 0 reads 0.00. |
| Amounts.ToBaseScales | src/shared/utils/currency-precision.util.ts:197-258 | Reading one text at a decimals instead of b multiplies the result by exactly 10^(a-b). |
| Amounts.FromBaseScales | src/shared/utils/currency-precision.util.ts:260-315 | An amount shown at b decimals is the text of 10^(a-b) times it at a. |
| Amounts.ToFixedAdds | src/modules/bills/bills.service.ts:121-126 | The parser adds: fixed-point texts of a sum read as the sum of the readings. |
| CurrencyScale.SetKeepsCache | src/shared/utils/currency-precision.util.ts:77-97 | No write can put an unsupported network into the cache. |
| CurrencyScale.DecimalsExist | src/shared/utils/currency-precision.util.ts:20-68 | With such a cache every allowed currency has decimals: 2 for fiat, those of one of its networks for crypto. |
| CurrencyScale.DecimalsInEveryCase | src/shared/utils/currency-precision.util.ts:20-68 | The decimals for every currency and argument, and every way to fail. |
| CurrencyScale.DefaultWithoutCache | src/shared/utils/currency-precision.util.ts:98-108 | Without a cached network each crypto currency has the first one of its table, with these decimals. |
| CurrencyScale.StoresIff | src/shared/utils/currency-precision.util.ts:77-97 | A network is stored exactly if one is given and the table of the currency, if it has one, lists it; never for fiat by the resolver. |
| CurrencyScale.PrintedByKind | src/shared/utils/currency-precision.util.ts:260-315 | Fiat amounts are printed with two places, crypto amounts by the shortest printer. |
| CurrencyScale.AdoptedNetwork | src/shared/utils/currency-precision.util.ts:119-137 | A resolver's answer becomes the default exactly when the currency supports it. |
| CurrencyScale.DefaultRoundTrip | src/shared/utils/currency-precision.util.ts:197-315 | Every allowed currency round-trips under every such cache. |
| CurrencyScale.ReadUnderOtherNetwork | src/shared/utils/currency-precision.util.ts:20-68 | An amount written under network A and read under B is off by exactly 10^(dA-dB). |
| Converter.ConvertCurrency.SetCachedDefaultNetwork | src/shared/utils/currency-precision.util.ts:77-97 | The in-place update of the static cache. |
| Converter.ConvertCurrency.GetDefaultNetwork | src/shared/utils/currency-precision.util.ts:119-137 | The resolver's answer is adopted and the cached default returned. |
| Converter.ConvertCurrency.ToBase | src/shared/utils/currency-precision.util.ts:197-258 | The step-by-step parser is the specified one, with its five errors. |
| Converter.ConvertCurrency.FromBase | src/shared/utils/currency-precision.util.ts:260-315 | The step-by-step printer is the specified one. |
| Converter.CompanyWalletNetworkCache.GetDefaultNetwork | src/infrastructure/databases/redis/company-wallet-network-cache.service.ts:37-57 | Liquidity record, then wallet record, then table; each answer is offered to the cache. |
| Converter.ResolvesInOrder | src/infrastructure/databases/redis/company-wallet-network-cache.service.ts:37-57 | The resolver answers with the liquidity record if it parses and names a known network, else with the first wallet record that names one, if it is known, else with the default; never for fiat. |
| Converter.NamesAreRead | src/infrastructure/databases/redis/company-wallet-network-cache.service.ts:37-57 | It reads a name without regard to spaces around it and to the case of its Latin letters, as an id or as the provider's name. |
| Converter.PrimedByWallet | src/infrastructure/databases/redis/company-wallet-network-cache.service.ts:59-69 | Priming from the wallets leaves the network of the last record that gives one of the currency, by id, and the previous default if none does. |
| Converter.CompanyWalletNetworkCache.PrimeDefaultNetworkCache | src/infrastructure/databases/redis/company-wallet-network-cache.service.ts:59-84 | The two loops fold every wallet and liquidity record into the cache, in order. |
| Converter.CacheStaysSupported | src/infrastructure/databases/redis/company-wallet-network-cache.service.ts:37-137 | After any sequence of set, lookup and prime calls, whatever Redis holds, cached crypto networks are supported and every allowed currency has decimals. |
| Converter.ResolverMayBeIgnored | src/infrastructure/databases/redis/company-wallet-network-cache.service.ts:37-57 | After any operations, a lookup whose answer the currency does not support keeps the default that they left. |
| Converter.PrimedByField | src/infrastructure/databases/redis/company-wallet-network-cache.service.ts:70-84 | After priming, a currency's default is the network of its liquidity record if that is one of its networks by id, and what the wallet records left otherwise. |
| Converter.PrimingAgainstResolving | src/infrastructure/databases/redis/company-wallet-network-cache.service.ts:37-137 | A record that names a network of the currency by id or by the provider's name resolves to it; priming sets the same default exactly for a bare id, and for any other name leaves the default of the wallet records. |
| BillQuote.Ceiling | src/modules/bills/bills.service.ts:83-101 | The least integer not below a real. |
| BillQuote.CryptoCoversBill | src/modules/bills/bills.service.ts:83-101 | crypto x rate covers the bill with an overshoot below rate x 10^-6. |
| BillQuote.FeeIsLeast | src/modules/bills/bills.service.ts:83-101 | The fee is the least six-place amount at or above 0.5% of the crypto amount. |
| BillQuote.TotalIsSum | src/modules/bills/bills.service.ts:83-101 | Rounding the total up changes nothing: it is the sum of its parts. |
| BillQuote.QuoteTotalAgrees | src/modules/bills/bills.service.ts:83-126 | On every USDT network the reserved `totalMinor` of a quote is `toBase(totalToPay)` and available, no conversion fails, and a missing rate is what refuses a quote exactly without a positive rate. |
| BillQuote.QuoteIsMadeIff | src/modules/bills/bills.service.ts:83-126 | With a positive rate a quote is made if and only if the balance holds its total in base units, which is that of the fewest millionths of a USDT that cover the bill and the fewest that are 0.005 of them; otherwise the balance is what refuses it. |
| BillQuote.QuoteShowsWhatItReserves | src/modules/bills/bills.service.ts:83-126 | The texts of a quote, read back, are a crypto amount that covers the bill, the least fee for it and their sum; the reserved minor amounts are those texts in base units. |
| BillSaga.ReservationsStandTogether | src/modules/bills/bills.service.ts:178-429 | In every state of every run, failures and crashes included, both reservations are held when the row says RESERVED and both are gone otherwise; an acknowledged order is never released. |
| BillSaga.ReservesIff | src/modules/bills/bills.service.ts:178-279 | The first transaction goes through if and only if both balances have their amounts free; then exactly these are reserved, otherwise nothing changes. |
| BillSaga.NeverOverdrawn | src/modules/bills/bills.service.ts:178-429 | In every run neither balance has more reserved than it holds, as long as other activity keeps to that. |
| BillSaga.ReleasedIff | src/modules/bills/bills.service.ts:285-428 | Over every run, the reservations are released if and only if the catch block went through after an order whose call threw, whose status was not success or whose data was missing. |
| BillSaga.ReleasedAfterAcceptanceIff | src/modules/bills/bills.service.ts:285-428 | They are released although the exchange accepted if and only if, besides, that was the reply to an accepted order. |
| BillSaga.NoReleaseAfterAcceptance | src/modules/bills/bills.service.ts:285-429 | If every accepted order is answered with status success and data, no path releases after the exchange accepted. |
| BillSaga.CatchIsExact | src/modules/bills/bills.service.ts:335-428 | The catch block's transaction gives both reservations back exactly, or keeps both. |
| BillStore.Store.ReserveBoth | src/modules/bills/bills.service.ts:178-279 | Both reservations and the row, or nothing. |
| BillStore.Store.ReleaseBoth | src/modules/bills/bills.service.ts:335-428 | Both releases, each swallowed when it fails, and the RELEASED row. |
| BillStore.Store.Confirm | src/modules/bills/bills.service.ts:152-429 | One undisturbed confirmation ends in balances, row and quote as the saga does on the same outcomes; exactly which refusals there are (a missing wallet and a changed wallet network among them) and that they touch nothing, which ending keeps or gives back both balances, and when the quote is deleted. |
| BillStore.SagaEnds | src/modules/bills/bills.service.ts:178-429 | How the saga ends when nothing but one confirmation happens: balances, row and quote for every outcome of its six steps. |
| BillQuotes.LetInIff | src/modules/bills/bills.service.ts:160-168 | After any run of confirmations of one quote, another one is let in before the quote expires if and only if none has returned. |
| BillQuotes.PaidOnce | src/modules/bills/bills.service.ts:152-429 | If each confirmation begins only when every other one has ended without an acknowledged order, the quote is paid at most once, over any run. |
| BillQuotes.NeverOverdrawn | src/modules/bills/bills.service.ts:152-429 | The same over any number of confirmations that share a quote and the balances. |
| BillQuotes.PaysIff | src/modules/bills/bills.service.ts:152-334 | After any run, a further confirmation that meets no obstacle is acknowledged if and only if none has returned, the quote has not expired, both balances have their amounts free, and the reply has status success and data. |
| BillQuotes.PaidTwice | src/modules/bills/bills.service.ts:152-429 | For every quote that the balances afford twice: two confirmations of it are both acknowledged with the quote still stored, when they overlap and when the second follows the unresolved end of the first. |
| AutoStackQuotes.ConfirmIff | src/modules/autostack/services/autostack.service.ts:432-561 | After any run, with any number of confirmations of the quote in it, one more appends its PENDING stack if and only if the quote lives, the PIN is right and the source is there, and changes nothing otherwise. |
| AutoStackQuotes.EveryRepeatCreates | src/modules/autostack/services/autostack.service.ts:432-561 | Over any run, whatever becomes of the stacks in between, one quote makes exactly one more stack for each confirmation in time. |
| PaymentAddress.CallsSpaced | src/infrastructure/bullMQ/workers/quidax-account.worker.ts:70-276 | Under any interleaving of workers, each inside one long transaction, with waits, rollbacks, timeouts and crashes: a provider call starts at least three minutes after the claim of every earlier call whose transaction committed, and a committed ACTIVE row has an id. |
| PaymentAddress.NoCallWhileHeld | src/infrastructure/bullMQ/workers/quidax-account.worker.ts:149-243 | No call starts while an open transaction holds the row; the caller holds it from then on. |
| PaymentAddress.AtMostOneLiveCall | src/infrastructure/bullMQ/workers/quidax-account.worker.ts:149-276 | At most one call is made by a transaction that can still commit, without any bound on time. |
| PaymentAddress.AttemptCalls | src/infrastructure/bullMQ/workers/quidax-account.worker.ts:149-243 | A worker that need not wait calls the provider if and only if nothing is committed, or a claim that is three minutes old and a failed insert spares the transaction. |
| PaymentAddress.CallAgainIff | src/infrastructure/bullMQ/workers/quidax-account.worker.ts:70-276 | Within three minutes of the last claim, once its transaction has ended, a worker calls again if and only if that transaction did not commit. |
| PaymentAddress.RolledBackCallRepeats | src/infrastructure/bullMQ/workers/quidax-account.worker.ts:70-146 | After a rollback the second call starts at any time, at once if need be, with the first still in flight. |
| PaymentAddress.ClosedIsAbsorbing | src/infrastructure/bullMQ/workers/quidax-account.worker.ts:187-235 | A committed row that is not a bare claim, ACTIVE or FAILED above all, never changes again, nor do the calls; if a failed insert ends its transaction, this holds of every committed row, and the takeover is never reached. |
| AddressStore.Connection.Create | src/infrastructure/bullMQ/workers/quidax-account.worker.ts:169-200 | The insert fails exactly on an existing row, and without savepoints takes the transaction with it. |
| AddressStore.Connection.ClaimStale | src/infrastructure/bullMQ/workers/quidax-account.worker.ts:224-234 | The compare-and-swap writes exactly the row that was read, still PROCESSING and without id. |
| AddressStore.Connection.EnsurePaymentAddress | src/infrastructure/bullMQ/workers/quidax-account.worker.ts:149-276 | One worker's statements end as the same events do in a run of the protocol: when it calls the provider, what its transaction has then written, and when it is lost. |
| AddressStore.SoloEnds | src/infrastructure/bullMQ/workers/quidax-account.worker.ts:149-276 | How the protocol's run of one worker ends, for every committed row, instant and outcome of the call. |
| AddressStore.Connection.EndTransaction | src/infrastructure/bullMQ/workers/quidax-account.worker.ts:70-146 | Only a commit of a transaction that is not aborted makes the row visible, as the protocol's Commit and Abort do in every state that agrees with the connection. |
| Dashboard.UpdatedAdds | src/modules/dashboard/service/dashboard-stats.service.ts:76-138 | One write-back adds exactly the naira amount and one transaction, to the daily counters if it is of today, though every counter goes through print and parse; the amounts are stored with two places. |
| Dashboard.LockMoves | src/modules/dashboard/service/dashboard-stats.service.ts:42-58 | A call gets in if and only if no lock lives, for five seconds; leaving, it takes away its own lock if that lives, and nobody else's. |
| Dashboard.ReadsAsStored | src/modules/dashboard/service/dashboard-stats.service.ts:76-114 | What is missing or unreadable counts as 0 in value, and a count that is no number stays none. |
| Dashboard.OneInside | src/modules/dashboard/service/dashboard-stats.service.ts:42-58 | Two calls are never inside an unexpired lock. |
| Dashboard.WriteAddsIff | src/modules/dashboard/service/dashboard-stats.service.ts:76-138 | A write-back adds exactly its transaction if and only if the hash reads as it did when the call loaded it. |
| Dashboard.CountsAreExact | src/modules/dashboard/service/dashboard-stats.service.ts:42-138 | Over any run, however late its writes, the counters end where the transactions written back put them if and only if every write was fresh in that sense; the volume alone shows a lost update. |
| Dashboard.InTimeIsFresh | src/modules/dashboard/service/dashboard-stats.service.ts:42-138 | Calls that write before their lock expires write fresh values, under any interleaving. |
| Dashboard.RunCounts | src/modules/dashboard/service/dashboard-stats.service.ts:42-138 | So their counters move by exactly the transactions written back. |
| Dashboard.RebuiltTotals | src/modules/dashboard/service/dashboard-stats.service.ts:213-283 | The rebuilt hash reads as the database sums and counts. |
| Dashboard.RebuiltAdds | src/modules/dashboard/service/dashboard-stats.service.ts:213-283 | A rebuild over no rows reads as zeros; a further row, wherever it stands, adds its fiat amount and one transaction if it is COMPLETED, to the daily counters if of today as well, and nothing otherwise. |
| Dashboard.CountersAgreeWithRebuild | src/modules/dashboard/service/dashboard-stats.service.ts:63-283 | After a run on a rebuilt hash, the cached volume equals that of a rebuild over all transactions if and only if every write was fresh; the cached values then agree if and only if the naira amounts and the fiat amounts have the same sum. |
| Dashboard.LateWriteForgets | src/modules/dashboard/service/dashboard-stats.service.ts:42-138 | Late writes do lose updates: for all amounts, a call that stalls past its lock erases what another one wrote. |
| DashboardStore.LastFive | src/modules/dashboard/service/dashboard-stats.service.ts:146-147 | Trimming after each push shows the last five rows pushed, the latest first. |
| DashboardStore.Store.HandleTransactionUpdate | src/modules/dashboard/service/dashboard-stats.service.ts:63-153 | A call counts its transaction exactly if it gets the lock, changes nothing otherwise, and gives the lock back. |
| DashboardStore.Store.ComputeAndCacheStats | src/modules/dashboard/service/dashboard-stats.service.ts:213-315 | A rebuild replaces hash and list exactly if it gets the lock. |
| Broadcast.MessagesCover | src/infrastructure/providers/firebase/firebase-cloud-messaging.service.ts:347-349 | The batches together are the token list, in order. |
| Broadcast.SubmittedOnce | src/infrastructure/providers/firebase/firebase-cloud-messaging.service.ts:333-426 | What is submitted is a prefix of the tokens in whole batches, each token at most once, and all of them if and only if no earlier batch was interrupted. |
| Broadcast.CountsAddUp | src/infrastructure/providers/firebase/firebase-cloud-messaging.service.ts:379-425 | success + failed is the number of tokens if and only if no cleanup raised after a send, and never more than one batch above it. |
| Broadcast.DeliveredAreCounted | src/infrastructure/providers/firebase/firebase-cloud-messaging.service.ts:379-397 | The success count of a batch is the number of its delivered tokens. |
| Broadcast.IsInvalidIff | src/infrastructure/providers/firebase/firebase-cloud-messaging.service.ts:428-447 | A token is taken for invalid exactly on one of two codes or when the message contains the words. |
| Broadcast.TalliesAreSums | src/infrastructure/providers/firebase/firebase-cloud-messaging.service.ts:333-456 | A broadcast delivers what its answered calls deliver and removes what their cleanups remove, of the calls that interrupt nothing. |
| Broadcast.FirebaseMessaging.HandleSendResponse | src/infrastructure/providers/firebase/firebase-cloud-messaging.service.ts:428-456 | The loop removes exactly the tokens reported invalid, and raises exactly when there are some and the table refuses. |
| Broadcast.FirebaseMessaging.Send | src/infrastructure/providers/firebase/firebase-cloud-messaging.service.ts:379-397 | One batch: the call as it happened and the tokens its cleanup removed. |
| Broadcast.FirebaseMessaging.SendBatchToTokens | src/infrastructure/providers/firebase/firebase-cloud-messaging.service.ts:333-426 | The recursion ends; its calls follow the messages until one is interrupted; success counts the delivered tokens of those calls, and the two counts add up to the tokens plus the batch whose cleanup raised. |
| Broadcast.FirebaseMessaging.BroadcastNotification | src/infrastructure/providers/firebase/firebase-cloud-messaging.service.ts:247-260 | The same for the distinct tokens found; none found, none sent. |
| Broadcast.Messages | src/infrastructure/providers/firebase/firebase-cloud-messaging.service.ts:347-378 | Messages hold at most 500 tokens, and only the first carries the image. |
| Broadcast.Distinct | src/infrastructure/providers/firebase/firebase-cloud-messaging.service.ts:257-259 | The same tokens, each once. |
| ResendLimiter.SendsSpaced | src/modules/auth/users/users.service.ts:724-755 | Over any sequence of calls of both endpoints, one at a time, whatever fails in them, sends are at least 60 s apart, by their stamps and by the writes of their counts. |
| ResendLimiter.SendsIff | src/modules/auth/users/users.service.ts:700-771 | Exactly which call sends a code after any run: it is admitted and nothing raises; fewer than five were counted, or an hour lies between two of the last five, or since the last; and nothing was sent, or the last code is a minute old. |
| ResendLimiter.SomeLongPause | src/modules/auth/users/users.service.ts:714-750 | Among any six consecutive sends, one was asked for at least an hour after the previous count was written. |
| ResendLimiter.SixTakeAnHour | src/modules/auth/users/users.service.ts:714-755 | From the write of one count to that of the sixth, six consecutive sends take an hour and four minutes. |
| ResendLimiter.AtMostFiveInAnHour | src/modules/auth/users/users.service.ts:714-755 | Any 3600 s contain at most five sends, each taken at the write of its count. |
| ResendLimiter.RetryAfterIsLeast | src/modules/auth/users/users.service.ts:727-739 | `retryAfter` is the least number of whole seconds after which the cooldown lets a call pass. |
| ResendLimiter.TempStore.ResendOtp | src/modules/auth/users/users.service.ts:700-771 | The endpoint moves the keys as specified, sends exactly when the checks pass and nothing raises, and names the wait. |
| ResendLimiter.TempStore.ResendOnboardingOtp | src/modules/auth/users/users.service.ts:157-230 | The same on the same keys, behind the captcha. |
| ResendLimiter.TempStore.Resend | src/modules/auth/users/users.service.ts:714-770 | The body that both endpoints share. |

## Left out

- Amounts.ToBase: an amount with an exponent is an error here, while the source expands it as decimal.js reads it; what that library accepts and how it rounds is not part of this model.
- Converter.ConvertCurrency.ToBase: the same for amounts with an exponent.
- AutoStackLedger.Step: models USDT-funded stacks; the `originalBalance` and display columns that mirror the base amounts are not kept.
- AutoStackLedger.StaleExecuteKeepsSums: the dates and the source amount that the debit writes come from its caller.
- AutoStackLedger.StaleUnlockIsExact: the row may have been read at any time, but the two transactions are still whole steps.
- ExecutionTx.SubmitTx: stops at SUBMITTED; swaps and card charges are settled in webhook handlers, of which only the test that skips a settled charge is modelled.
- ExecutionCharges.ChargedOnce: without cancellations, and within the leases; the provider's own protection against repeated requests is not part of this model.
- ExecutionFence.OwnedBooks: without cancellations; with them the books are decided step by step by `ExecutionFence.BooksAreExact`.
- ExecutionProtocol.HoldsWhatItSays: for workers that act inside their leases; all other runs are decided by `ExecutionFence.BooksAreExact`.
- ChargeJobs.OneDueDateOnce: the races for one execution row are those of `ExecutionProtocol`; here a COMPLETED row is simply not debited again.
- PaymentAddress.Step: the webhook that fills in an address is not part of this model, and neither are other slots of the same transaction except that any of them may abort it.
- ExecutionProtocol.ClaimsSpaced: assumes that no overtaken worker reserves; `OverrunReopensLease` shows why.
- BillStore.Store.Confirm: one confirmation alone, on the rows of one payment; those that share a quote are in `BillQuotes`.
- BillQuotes.PaidOnce: the waiting is a condition on the callers; the source has nothing that enforces it.
- AutoStackQuotes.Step: a refused confirmation leaves no trace, and its wallet and card checks are one flag.
- Networks.Lower: lower case is that of the Latin letters; currency codes are read once into a datatype.
- Converter.Resolve: a liquidity record is found under its currency whatever the case of the key, while the source looks under the upper-case key.
- CurrencyScale.GetCurrencyDecimals: fiat currencies other than NGN and USD are not allowed currencies and fail as in the source; their own decimals are not listed.
- Dashboard.Next: the check and the delete that give back the lock are one step; the source reads the key and deletes it in two commands.
- Dashboard.CountersAgreeWithRebuild: whether a transaction is of today is part of the transaction; the daily counters are not reset at midnight by the source, and user counters are left out.
- Dashboard.ReadCount: a count that is not a digit string reads as NaN, where JavaScript also reads signs, fractions, hexadecimal and exponents.
- Broadcast.FirebaseMessaging.Send: the provider answers once for every token; log lines are left out.
- ResendLimiter.AtMostFiveInAnHour: calls that overlap are left out; two of them can both pass the checks.
- InterestDispatch.Scheduler.DispatchDueInterestShards: the ids of the table are fixed during a run, which stacks are due is not; a queue that refuses a job is left out.
- Retries, queues, HTTP clients, Redis and Prisma internals: each is an atomic step or an arbitrary outcome.
- Circuit breaker, webhooks, controllers, guards, templates, audit and logging interceptors: they hold no state of these protocols.
- Weekly balance snapshots: floating point, and the operation that they would invert is not part of this model.
- Settings and role caches, pagination, KYC and bank-name matching: they would only add easy members.
