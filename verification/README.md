# Booking, payment and wallet protocol of ArenaHub

This project models the booking, payment and wallet services of the ArenaHub back end, and the small state machines
they stand on: the in-memory store with its locks, idempotency keys, refresh-token rotation and the advertisement
cache. `dafny verify dfyconfig.toml` checks all of it.

## How it is put together

Amounts are whole hundredths of an EGP, and every `toFixed(2)` is exact rounding of a fraction. Time is one integer
clock in milliseconds, and dates are day numbers. Each repository call is one atomic step. Identifiers are drawn from
counters. A query's order is an input that must list exactly what the query asks for. Which calls fail is an input
too (`Faults`, `CallbackFaults`, flags such as `ledgerOk`).

- `Money`, `Coupon`, `Pricing`, `GroupPrice`, `BookingRequest`: the arithmetic and the request.
- `Slots`: createBooking call by call, interleaved with everything else that touches a booking's slot.
- `SlotLock`: the same with the lock's five seconds, requests that outlive it, and what they release.
- `Wallet`: deposits and deductions call by call, and the wallet service as a class.
- `Database`, `BookingOperations`: the documents, and what each whole operation does to them as a function.
  `BookingService` holds the class whose methods do it with the service's own loops and early returns; each method's
  `ensures` equates the whole new state and the reply with that function.
- `RequestAnswers`, `BookingAnswers`, `CallbackAnswers`: what each operation answers and does, in terms of requests and
  documents alone.
- `SessionPayments`: the wallet payment inside a MongoDB session, as a function and as a method.
- `BookingTheorems`, `BookingMoney`, `PaySafety`, `FailedPay`: failure atomicity, the operations as runs of `Slots`, a
  group's money over its life, when payBooking double-books, and what it leaves when it fails.
- `Payments`, `PaymentService`, `PaymentTheorems`, `PaymentRaces`, `MoneyBack`, `GroupMoney`: card callbacks whole and
  interleaved call by call, all that gives money back, and what a group records against what its payments took.
- `Idempotency`, `KeyLoss`, `LostPayment`: createBooking behind its idempotency key, how one key creates two groups, and
  how a request takes away the group that an earlier card payment is for.
- `ServiceRuns`: runs of all these operations over one database.
- `RedisStore`, `Refresh`, `Ads`: the store, token rotation, and the cached advertisement list.

## What turned out not to hold

Each of these is proved, with its input and, where the code does meet the property sometimes, its exact condition.

- payBooking confirms every member of a group, cancelled ones too. The unique index refuses a member whose hour was sold
  again under the same start, and nothing refuses one whose hour was sold under another (`PayDoubleBooksIff`,
  `PayingGroupDoubleBooks`); so it is for a hold that lapsed after it was checked (`ConfirmingAfterLapse`).
- A request that outlives the 5 s of its booking lock can double-book, and so can two others that do not, because its
  release frees whatever lock it finds (`OverrunDoubleBooks`, `LateReleaseDoubleBooks`, `ReleaseFreesAnotherIff`).
- Paying the rest of a deposit in cash forgets the deposit (`LaterPaymentSettles`). Paid by card, a member whose deposit
  share rounded to nothing can stay short (`RemainderByCard`).
- In a session, a confirmation that the index refuses rolls the debit back and credits it as well
  (`SessionMoneyIff`, `RefusedMemberPaysOut`), and a payment row marked paid can outlive the abort (`FailedSessionLeaves`).
- payBooking does not undo its confirmations when it fails after some of them, and refunds the debit all the same; a member
  confirmed that way can be cancelled for money (`FailedPayLeavesIff`, `FailedPayThenCancelled`, `RefusedPaymentPaysOut`).
- A success callback that finds no booking left changes nothing, and a second request for the same hour takes the first
  one's bookings away: the first card payment is then neither credited nor fulfilled (`SuccessSettlesIff`,
  `PaymentLostIff`, `SecondThoughtsLosePayment`).
- The late branch of a callback has no compare-and-set, and the one in the other branch lets a refunded payment through:
  racing callbacks can credit twice, credit a payment that is then fulfilled, or debit twice and credit (`RaceComesTo`,
  `SettledOnceIff`, `CreditedAndFulfilledIff`).
- A callback whose k-th booking update fails leaves a payment that counts as paid and a group that is not held, for good
  (`CutShortLeavesRest`, `PaidIsFinal`). If it paid a deposit and the member's hold lapses, the same callback repeated
  credits the card amount on top of the debit (`CutShortDepositComesBack`, `MovedAtMostOnceIff`); so does one after a
  member was cancelled (`PartialPaymentCallback`).
- A card transaction that fulfilled a payment in part can fulfil another one (`CardPaidInPartPaysAgain`, `CardPaysOnce`).
- Two card payments of one group can both be fulfilled, and the second is recorded on no booking (`TakenIsRecordedIff`,
  `SecondPaymentUnrecorded`).
- A cancellation whose row update fails can be repeated, and refunds again (`CutShortCancellationRefundsTwice`).
- Cancelling members and then refunding their payment returns the members' money twice (`CancelledAndRefunded`).
- A deposit share that rounds to nothing makes a cancellation return the member's whole price (`RefundsMatchPayments`).
- A group uses its coupon once, and each of its members gives a use back when it is cancelled (`CouponComesBackIff`).
- Undoing a deposit that has been spent leaves a negative balance (`UndoneCreditGoesNegative`, `UndoingStaysNonNegative`).
- From three slots on the last slot's discount can be negative, so that a free slot costs a cent; from four on it can
  exceed the slot's price (`LastSlotOutOfBoundsIff`, `OutOfBoundsOnlyFrom`).
- A TTL above 2147483 s overflows a Node.js timer, so the in-memory store drops the value at once; this includes the
  30-day revocation of a customer's refresh token (`TtlOverflow`, `RevocationInMemory`).
- A lock held past its TTL lets two clients in (`ExclusionIff`, `OverrunLetsTwoIn`).
- delKey counts entries that had expired (`DeletionCount`).
- A refund whose payment cannot be saved has credited the wallet already (`RefundRecordedIffSaved`).
- One idempotency key can create two groups: replacing one's own holds deletes the rows the key is remembered by, and a
  call does not look again once it has the key's lock (`OtherRequestKeepsKey`, `OneKeyCreatesTwoGroups`,
  `LockedTooLateIff`).
- No code makes a scheduled advertisement active when its start date comes (`ScheduledIsNeverListed`).

The repository's README (line 477) says the booking lock covers venue, date, start and end. The code locks the venue's
whole day (`src/modules/booking/booking.service.ts:631`), and so does the model.

## Model

| member | source | states |
|---|---|---|
| ServiceRuns.ServicesAreSafe | src/modules/booking/booking.service.ts:424-1476 | After any run of whole operations (create, pay, cancel, cron, suspension sweep, card callback, refund, clock), failing at any insert, wallet, payment, booking-update or coupon call, no two live bookings of a venue and day overlap and every wallet balance is the sum of its ledger; a group is paid for only while each member occupies its hours or nothing that does, or is confirmed with it, overlaps it |
| ServiceRuns.OperationKeepsApart | src/modules/booking/booking.service.ts:1487-1610 | Each single operation, also when an update of it fails halfway, keeps the slot invariant, payBooking under the same condition |
| ServiceRuns.OperationKeepsAudit | src/modules/wallet/wallet.service.ts:118-248 | Each single operation leaves a ledger in which every row states the balance before and after it as the rows up to it add up |
| ServiceRuns.EmptyDatabaseGood | src/modules/booking/booking.service.ts:424-429 | An empty database meets the conditions those runs start from |
| SlotLock.NoDoubleBookingWithLapsingLocks | src/modules/booking/booking.service.ts:629-704 | With locks that lapse after 5 s, are taken over, and are released by requests that outlived them: no two live bookings overlap in any reachable state, provided a request has inserted its rows by the time its lock is taken over and what it, payBooking or a callback confirms later still occupies its slot |
| SlotLock.PunctualRunIsProtocolRun | src/modules/booking/booking.service.ts:631-640 | If no request outlives its lock, the system with lapsing locks goes through exactly the states of the protocol in which locks are held to the end |
| SlotLock.LateInsertSafeIff | src/modules/booking/booking.service.ts:912-971 | An insert made without the lock keeps bookings apart if and only if the index refuses it, its hold has lapsed already, or no live row covers its slot |
| SlotLock.LockLastsFiveSeconds | src/modules/booking/booking.service.ts:634-640 | A lock that was taken keeps everybody else out for five seconds |
| SlotLock.OverrunDoubleBooks | src/modules/booking/booking.service.ts:631-640 | A request that outlives its lock before it inserts and one that takes the lock over can both book an hour, under different starts, which the index does not see |
| SlotLock.LateReleaseDoubleBooks | src/modules/booking/booking.service.ts:1050-1054 | The release of a request that outlived its lock frees its successor's: two requests that both stay within their 5 s then book one hour |
| Slots.NoDoubleBookingOnRuns | src/modules/booking/booking.service.ts:631-704 | Requests that hold their locks to the end, interleaved call by call with payments, callbacks (whole or one write at a time), cron, cancellations, refunds, sweeps and the clock: no two live bookings overlap in any reachable state, holds that lapsed and were not cleaned up included |
| Slots.NoDoubleBookingFromEmpty | src/modules/booking/booking.service.ts:631-704 | So in every state reachable from an empty table |
| Slots.NextKeepsInv | src/modules/booking/booking.service.ts:1518-1532 | Every allowed step keeps the inductive invariant: rows that occupy an hour are apart, the unique index never collides, and nothing stands in the way of a request that holds its lock |
| Slots.BeginKeepsInv | src/modules/booking/booking.service.ts:645-704 | The overlap stage under the lock, with the requester's own holds replaced, establishes that every slot of the request is free |
| Slots.InsertKeepsInv | src/modules/booking/booking.service.ts:912-971 | Inserting the next hold keeps the invariant, and an insert the index refuses takes the request's earlier rows away |
| Slots.ConfirmKeepsInv | src/modules/booking/booking.service.ts:1416-1435 | Confirming a row of a request that still holds its lock keeps the invariant |
| Slots.ShrinkKeepsInv | src/modules/booking/booking.service.ts:171-245 | Any step that only frees hours keeps the invariant; expiry, no-show, cancellation, refund and the sweep are such steps |
| Slots.ConfirmationSafeIff | src/modules/booking/entities/booking.entity.ts:119-133 | One confirming write keeps bookings apart if and only if the unique index refuses it or no other live booking overlaps it under another start |
| Slots.CreatedRowNeverBlocked | src/modules/booking/entities/booking.entity.ts:119-133 | A row whose request still holds its lock is never refused its confirmation by the index |
| Slots.PayingGroupWithCancelledMember | src/modules/booking/booking.service.ts:1534-1538 | The single write of it: confirming a cancelled member whose hour was sold again under another start is a double booking that leaves the index satisfied |
| Slots.ConfirmingAfterLapse | src/modules/booking/booking.service.ts:1518-1532 | A hold checked in time and confirmed after it lapsed can be a double booking |
| Slots.LoneRequestGetsItsSlot | src/modules/booking/booking.service.ts:645-971 | A request for one slot that no live row covers gets it, unless the index refuses its row; then it leaves nothing behind |
| Slots.GetAvailability | src/modules/booking/booking.service.ts:86-140 | The listing holds exactly one line for each live booking of the venue in the range |
| Slots.ListedMeaning | src/modules/booking/booking.service.ts:86-126 | A line is for a booking of the venue and range that is confirmed, completed, or pending with time left |
| Slots.AvailabilityAgrees | src/modules/booking/booking.service.ts:645-692 | At one instant the overlap stage rejects a request if and only if a slot of it overlaps a line of the availability listing that is not the requester's own pending hold |
| Slots.IndexRefusesOnlyLapsed | src/modules/booking/entities/booking.entity.ts:119-133 | A request past the overlap stage is refused by the unique index if and only if a lapsed hold with the same start has not been cleaned up |
| Slots.AfterCronEveryInsertSucceeds | src/modules/booking/booking.service.ts:171-192 | Right after a cron run the index refuses no request that the overlap stage accepts |
| Slots.WholeRequestGives | src/modules/booking/booking.service.ts:631-1050 | A request run alone adds exactly its rows, all confirmed or none, and gives its lock back |
| BookingRequest.ValidateSlots | src/modules/booking/booking.service.ts:446-473 | The nested loops return the first complaint about the slots |
| BookingRequest.SlotErrorMeaning | src/modules/booking/booking.service.ts:446-473 | There is no complaint if and only if there is a slot, every slot is in range and no two overlap |
| BookingRequest.FirstComplaint | src/modules/booking/booking.service.ts:446-473 | The complaint is about the first faulty slot and names the first of its faults |
| BookingRequest.CodesCompared | src/modules/booking/booking.service.ts:142-169 | A coupon code is compared without surrounding spaces and in capitals, and an empty one is none |
| BookingRequest.FingerprintMeaning | src/modules/booking/booking.service.ts:142-169 | Before hashing, two valid requests have one fingerprint if and only if venue, day, slot set in any order, normalized coupon and payment method agree |
| Pricing.FirstMatchingDateRule | src/modules/booking/booking.service.ts:724-744 | The date price is that of the first matching rule, and none if that rule's price is unusable |
| Pricing.FindDatePrice | src/modules/booking/booking.service.ts:724-744 | The search loop finds that price |
| Pricing.FirstMatchingHourRule | src/modules/booking/booking.service.ts:746-762 | The recurring price is that of the first rule of the hour, and none if that rule's price is unusable |
| Pricing.FindHourPrice | src/modules/booking/booking.service.ts:746-762 | The search loop finds that price |
| Pricing.HourCosts | src/modules/booking/booking.service.ts:721-767 | An hour costs what the first date rule for it says, if that is a price; if not, what the first recurring rule for it says, if that is one; if not, the default; and there is one such price |
| Pricing.PriceHour | src/modules/booking/booking.service.ts:721-767 | The lookup of one hour returns that price |
| Pricing.PriceSlot | src/modules/booking/booking.service.ts:718-770 | The slot loop adds up the price of each hour |
| Pricing.PriceSlots | src/modules/booking/booking.service.ts:706-778 | totalRawPrice is the sum of the slot prices |
| Pricing.TotalIsHourByHour | src/modules/booking/booking.service.ts:706-778 | The total is, hour by hour, the hour's price times the number of slots that cover it |
| Pricing.PriceAdditivity | src/modules/booking/booking.service.ts:706-778 | Splitting, merging or reordering slots that cover the same hours never changes the total |
| Money.ToFixed | src/modules/coupon/utils/coupon-calculator.utils.ts:25-26 | The nearest whole cent of an exact fraction, the larger neighbour on a tie |
| Money.ToFixedUnique | src/modules/coupon/utils/coupon-calculator.utils.ts:25-26 | No other whole number satisfies those bounds |
| Money.SharesDrift | src/modules/booking/booking.service.ts:840-848 | Shares rounded one by one add up to the exact amount to half a cent a share |
| Coupon.CalculateCouponDiscount | src/modules/coupon/utils/coupon-calculator.utils.ts:8-28 | Discount and final price lie between zero and the amount |
| Coupon.CouponTakesOff | src/modules/coupon/utils/coupon-calculator.utils.ts:8-28 | A percentage takes its part of the amount to half a cent and all of it from a hundred percent on, a fixed coupon its number or the whole amount |
| Coupon.CouponRounding | src/modules/coupon/utils/coupon-calculator.utils.ts:21-27 | Discount plus final price is the amount, or one cent more exactly when the unrounded discount is positive and ends in half a cent |
| GroupPrice.AllocateDiscount | src/modules/booking/booking.service.ts:825-862 | The allocation loop with its running remainder computes the slot discounts and clamped final prices |
| GroupPrice.DiscountSplit | src/modules/booking/booking.service.ts:833-852 | Slot discounts add up to the group discount; every one but the last is its exact share to half a cent and within its price; the last is within (n-1)/2 cents |
| GroupPrice.SmallGroupDiscounts | src/modules/booking/booking.service.ts:833-852 | For one or two slots every discount lies between zero and its slot's price |
| GroupPrice.LastSlotOutOfBoundsIff | src/modules/booking/booking.service.ts:833-852 | Only the last discount can leave its bounds: it is negative if and only if the other slots gained more by rounding than its exact share, and above its price if and only if they lost more than its exact share leaves of the price |
| GroupPrice.OutOfBoundsOnlyFrom | src/modules/booking/booking.service.ts:833-852 | A negative discount takes at least three slots, one above its slot's price at least four |
| GroupPrice.NegativeFromThree | src/modules/booking/booking.service.ts:838-862 | Both bounds are sharp: for every number of slots from three on, a free last slot can cost a cent |
| GroupPrice.AbovePriceFromFour | src/modules/booking/booking.service.ts:838-862 | From four on, the last discount can exceed its price and the members then add up to a cent more than the group |
| GroupPrice.FinalsAddUp | src/modules/booking/booking.service.ts:853-862 | The members' final prices add up to the discounted total plus what the clamp on the last slot takes back, at most (n-1)/2 cents |
| GroupPrice.GroupTotal | src/modules/booking/booking.service.ts:813-862 | Members' prices minus group price is the clamp's surplus minus the coupon's rounding cent, between -1 and (n-1)/2 cents |
| GroupPrice.MemberWithinGroup | src/modules/booking/booking.service.ts:813-862 | No member is priced above its group |
| GroupPrice.ChargeNow | src/modules/booking/booking.service.ts:864-899 | An amount is refused exactly when it is given, positive and outside deposit..total; what is charged lies in that range and is a deposit exactly when below the total |
| GroupPrice.WhatIsCharged | src/modules/booking/booking.service.ts:864-899 | A chosen amount is refused below the price if it is below the deposit, or no deposit is asked for, and above the price; without one the deposit is charged if it is less than the price, or else the price |
| GroupPrice.DepositSplit | src/modules/booking/booking.service.ts:1420-1424 | Each deposit share lies between zero and its member's price, paid and remaining add up to the price, and the status says whether anything remains |
| GroupPrice.DepositDrift | src/modules/booking/booking.service.ts:1420-1424 | Deposit shares add up to the deposit within n/2 cents |
| GroupPrice.DepositThenRemainder | src/modules/booking/booking.service.ts:1541-1558 | After a deposit and the remainder every member is fully paid, and the two charges are the group price within n/2 cents |
| GroupPrice.CancellationReturnsShare | src/modules/booking/booking.service.ts:1804-1830 | A confirmed member's cancellation returns its share if and only if the share of a positive price did not round to nothing |
| GroupPrice.SuspensionTiers | src/modules/booking/booking.service.ts:2125-2145 | The refund is a whole number of EGP: nothing within three hours of the start, half within a day and all before that, to half an EGP |
| GroupPrice.SuspensionRefund | src/modules/booking/booking.service.ts:2125-2145 | The refund is within half an EGP of the percentage for the time left |
| Wallet.NextConserves | src/modules/wallet/wallet.service.ts:132-178 | Every repository call of every in-flight operation keeps: balance = ledger sum + applied but unlogged amounts |
| Wallet.WalletConservation | src/modules/wallet/wallet.service.ts:132-245 | So under every interleaving, failed ledger writes included; when nothing is in flight each balance is its ledger sum |
| Wallet.BalancesNeverNegative | src/modules/wallet/wallet.service.ts:197-245 | No balance goes below zero in a run in which no credit has to be undone |
| Wallet.UndoneCreditGoesNegative | src/modules/wallet/wallet.service.ts:170-179 | The hypothesis is needed: an undone deposit that was already spent leaves a negative balance |
| Wallet.UndoingStaysNonNegative | src/modules/wallet/wallet.service.ts:170-179 | Undoing an operation keeps balances at zero or above if and only if its user still holds what it credited |
| Wallet.OperationIsRun | src/modules/wallet/wallet.service.ts:118-248 | The calls of one operation, not interleaved, give exactly the states deposit and processDeduction are specified by |
| Wallet.OperationKeepsAudit | src/modules/wallet/wallet.service.ts:147-169 | While operations do not interleave, every ledger row's before and after agree with the rows up to it |
| Wallet.WalletService.GetOrCreateWallet | src/modules/wallet/wallet.service.ts:27-82 | An upsert with zero balance; an existing wallet is left alone |
| Wallet.WalletService.Deposit | src/modules/wallet/wallet.service.ts:118-181 | Increment, ledger row, and the compensating update when the row cannot be written |
| Wallet.WalletService.ProcessDeduction | src/modules/wallet/wallet.service.ts:183-248 | Conditional decrement, ledger row, and the compensating update |
| Wallet.WalletService.PayForBooking | src/modules/wallet/wallet.service.ts:280-295 | A deduction recorded as a booking payment |
| Wallet.WalletService.RefundBooking | src/modules/wallet/wallet.service.ts:297-316 | A deposit recorded as a booking refund |
| Wallet.DepositAnswered | src/modules/wallet/wallet.service.ts:118-181 | When a deposit is refused, what it adds, and the row it writes |
| Wallet.DeductionAnswered | src/modules/wallet/wallet.service.ts:183-248 | When a deduction is refused, what it takes, and the row it writes |
| BookingServices.BookingService.CreateBooking | src/modules/booking/booking.service.ts:424-1050 | Checks, overlap stage, price, wallet check, inserts and payment, loop by loop, leave the database and reply that Create specifies, for every failure point |
| RequestAnswers.RequestAnswered | src/modules/booking/booking.service.ts:446-692 | createBooking refuses a request, changing nothing, for the first of these that applies: faulty slots, a blocked account, no venue, an inactive one, hours outside its own, a slot in the past, a busy lock, an hour that is booked or held by somebody else |
| RequestAnswers.GetsThroughIff | src/modules/booking/booking.service.ts:446-692 | It gets past the overlap stage if and only if none of these applies |
| RequestAnswers.PriceAnswered | src/modules/booking/booking.service.ts:780-899 | Past that it refuses for its coupon (unknown, inactive, used up, out of its dates) or for its amount, in this order |
| RequestAnswers.ChargeAnswered | src/modules/booking/booking.service.ts:864-899 | What an accepted request is charged, in terms of price, deposit, number of slots and chosen amount |
| RequestAnswers.RowsAnswered | src/modules/booking/booking.service.ts:912-1050 | A success has one row a slot under new identifiers and a new group: a hold of 15 minutes that owes its price, paid by wallet, confirmed for cash, or still that hold while the card is waited for |
| RequestAnswers.InsertAnswered | src/modules/booking/booking.service.ts:912-971 | It stops at the first slot whose insert fails or whose start an active row has, lapsed or not, answers accordingly, and leaves no row |
| RequestAnswers.RequestSucceedsIff | src/modules/booking/booking.service.ts:912-1022 | A priced request succeeds if and only if every row can be inserted and the inserted group can be paid for |
| RequestAnswers.CouponAnswered | src/modules/booking/booking.service.ts:1168-1176 | The coupon is counted once when the group is confirmed, and not while a card is waited for |
| RequestAnswers.WalletTooSmall | src/modules/booking/booking.service.ts:901-910 | A request by wallet inserts nothing if the wallet does not hold the charge |
| RequestAnswers.HoldsReplaced | src/modules/booking/booking.service.ts:694-704 | The rows a request replaces are the requester's own pending holds, with time left, on one of its hours |
| BookingServices.BookingService.CheckRequest | src/modules/booking/booking.service.ts:446-629 | The checks before the lock, in order |
| BookingServices.BookingService.ReplaceOwnHolds | src/modules/booking/booking.service.ts:645-704 | Rejects exactly on a conflict; otherwise deletes exactly the requester's live holds on the slots |
| BookingServices.BookingService.PriceRequest | src/modules/booking/booking.service.ts:706-899 | Price, coupon, split and charge of a request, or the first reason to refuse it |
| BookingServices.BookingService.InsertAll | src/modules/booking/booking.service.ts:912-971 | Either every row is inserted or, at the first insert that fails, none is left; the request's own rows never make the index refuse a later one |
| BookingServices.BookingService.PayNewGroup | src/modules/booking/booking.service.ts:998-1022 | A payment that fails takes every row of the new group with it |
| BookingServices.BookingService.ConfirmMembers | src/modules/booking/booking.service.ts:1416-1437 | Confirms the members in order from the documents as found, up to an update that fails or that the unique index refuses |
| BookingServices.BookingService.ProcessGroupPaymentCompensating | src/modules/booking/booking.service.ts:1390-1485 | Debit, confirmations, payment row, coupon; the refund when any of them fails, and a duplicate key reported as a slot just booked |
| BookingServices.BookingService.PayInCash | src/modules/booking/booking.service.ts:1250-1289 | Confirms with everything left to pay at the venue, up to an update that fails or that the index refuses |
| BookingServices.BookingService.PayByCard | src/modules/booking/booking.service.ts:1291-1385 | Wallet part first; a payment row waiting for the card, or the wallet path when nothing is left for it |
| BookingServices.BookingService.ProcessGroupPayment | src/modules/booking/booking.service.ts:1063-1388 | Dispatch on the payment method, on a server without sessions |
| SessionPayments.SessionPayment.PayWithSession | src/modules/booking/booking.service.ts:1117-1248 | The wallet payment inside a session: debit, confirmations, payment row, coupon, commit; on a failure the abort, the refund and the fallback, as the catch block has them |
| SessionPayments.CommittedIsCompensating | src/modules/booking/booking.service.ts:1117-1195 | A session that commits leaves exactly what the payment without one leaves when nothing fails |
| SessionPayments.SessionMoneyIff | src/modules/booking/booking.service.ts:1192-1236 | If the wallet holds the charge and takes refunds: it is debited on success and untouched on failure if and only if the session commits, fails at the debit, or fails other than by a conflict or as unsupported; otherwise the debit it rolled back is credited once more |
| SessionPayments.RefusedMemberPaysOut | src/modules/booking/booking.service.ts:1192-1211 | When nothing else fails, the payment succeeds if and only if the index refuses no member, and if it refuses one the wallet ends higher by the charge with bookings and payments as before |
| SessionPayments.FailedSessionLeaves | src/modules/booking/booking.service.ts:1152-1166 | A session that fails without a fallback leaves bookings and coupons as they were, and a payment row marked paid if and only if it failed after inserting it |
| BookingServices.BookingService.PayBooking | src/modules/booking/booking.service.ts:1487-1610 | Every refusal in order, the lapsed hold marked expired, the remainder or a first charge, then the group payment |
| BookingAnswers.PayAnswered | src/modules/booking/booking.service.ts:1500-1532 | payBooking refuses for the first of these: no booking, not its owner, cancelled or expired, already paid, a hold that has run out, which alone leaves a trace and expires |
| BookingAnswers.PayCharges | src/modules/booking/booking.service.ts:1541-1585 | It charges what the group owes if the booking is confirmed and some member owes anything, otherwise a first payment on the group's price |
| BookingAnswers.AmountAnswered | src/modules/booking/booking.service.ts:1560-1585 | An amount that is refused changes nothing |
| BookingAnswers.WalletPayTakes | src/modules/booking/booking.service.ts:1409-1455 | A payment by wallet takes the charge from the payer alone, confirms every member with its share or up to its price, records a payment and counts the request's coupon or else the booking's |
| BookingAnswers.CardPayAnswered | src/modules/booking/booking.service.ts:1305-1338 | By card: the wallet's part is the largest amount within the charge, the balance and what the customer allows; it pays alone exactly if it is the charge, and otherwise nothing is taken and the waiting payment records it |
| BookingAnswers.CashPayAnswered | src/modules/booking/booking.service.ts:1250-1282 | A payment in cash confirms every member with its whole price left to pay at the venue |
| BookingAnswers.GroupPaymentSucceedsIff | src/modules/booking/booking.service.ts:1063-1485 | A group's payment succeeds if and only if the wallet holds what it is to pay, no call of its method fails and the index refuses no member |
| BookingAnswers.FailedDebitReturned | src/modules/booking/booking.service.ts:1466-1476 | A wallet payment that fails after its debit credits it back; if the refund fails as well the payer is left without it |
| BookingServices.BookingService.CancelBooking | src/modules/booking/booking.service.ts:1759-1872 | Every refusal in order, then refund, cancelled row and coupon use given back; if the row's update fails, the refund alone |
| BookingAnswers.CancelAnswered | src/modules/booking/booking.service.ts:1759-1872 | cancelBooking refuses, changing nothing, for the first of these: no booking, neither owner nor staff, cancelled, completed, less than 24 hours before the start; otherwise the owner gets back what was paid, the row is cancelled, and a confirmed one gives its coupon use back |
| BookingAnswers.CancelAcceptedIff | src/modules/booking/booking.service.ts:1773-1796 | It is accepted if and only if the booking exists, the actor is its owner or staff, it is neither cancelled nor completed, and it is pending, or the actor is staff, or its start is 24 hours away |
| BookingServices.BookingService.CleanExpiredAndNoShowBookings | src/modules/booking/booking.service.ts:171-245 | Two passes: lapsed holds expire, then what is past its end is a no-show; no other row changes, and an update that fails ends the run where it is |
| BookingAnswers.CronAnswered | src/modules/booking/booking.service.ts:171-245 | What a cron run makes of each row |
| BookingServices.BookingService.CancelUpcomingBookingsForSuspendedUser | src/modules/booking/booking.service.ts:2068-2186 | The loop over the upcoming bookings, its count and its total; an update that fails ends it after that row's refund |
| BookingServices.OwnRowsDoNotRefuse | src/modules/booking/entities/booking.entity.ts:119-133 | Rows of the same request never collide under the unique index |
| BookingTheorems.FailureAtomicity | src/modules/booking/booking.service.ts:912-971 | If createBooking fails at any call and its refund goes through, every balance is as before, no row of the group is left and no other row has changed; only the requester's own replaced holds may be gone |
| FailedPay.FailedPayLeavesIff | src/modules/booking/booking.service.ts:1487-1610 | A payBooking that fails, and whose refund works, leaves every balance as it was, and every booking standing as it was if and only if each member it had confirmed by then was confirmed with that very share before |
| FailedPay.FailedFirstPayLeavesIff | src/modules/booking/booking.service.ts:1409-1476 | For a group none of whose members is confirmed yet: if and only if it stopped before it confirmed any |
| FailedPay.FailedPayThenCancelled | src/modules/booking/booking.service.ts:1466-1476 | A member that a failed payment had confirmed can be cancelled, and the wallet then ends higher than before the payment by that member's refund, which is something exactly if the member has a price |
| FailedPay.RefusedPaymentPaysOut | src/modules/booking/booking.service.ts:1466-1476 | With nothing failing but the index: a wallet of 200 ends at 300 after a refused payment and a cancellation |
| BookingTheorems.CreateIsRun | src/modules/booking/booking.service.ts:424-1050 | createBooking is a run of the slot protocol for every outcome |
| BookingTheorems.CreateNeverDoubleBooks | src/modules/booking/booking.service.ts:631-1022 | Whatever happens to a request, bookings that were apart stay apart |
| BookingTheorems.CreateKeepsIds | src/modules/booking/booking.service.ts:912-971 | Identifiers stay fresh from one request to the next |
| PaySafety.PayDoubleBooksIff | src/modules/booking/booking.service.ts:1487-1610 | payBooking keeps bookings apart if and only if none of the members it confirms that is not live has had its hours sold, under another start, to a row that is live or confirmed with it |
| PaySafety.PayNeverDoubleBooks | src/modules/booking/booking.service.ts:1487-1610 | payBooking keeps the slot invariant, failed payments included, if each member occupies its hours or nothing that does, or is confirmed with it, overlaps it |
| PaySafety.PayingGroupDoubleBooks | src/modules/booking/booking.service.ts:1534-1538 | payBooking on a concrete database: a group with a cancelled member whose hour was sold again is paid, and double-books |
| PaySafety.SuccessConfirmsGroup | src/modules/booking/booking.service.ts:1416-1437 | A payment by wallet or cash that succeeds has confirmed every member it found, cancelled ones too |
| BookingTheorems.CancelIsStep | src/modules/booking/booking.service.ts:1832-1841 | cancelBooking is the protocol's cancellation, or nothing |
| BookingTheorems.CronIsStep | src/modules/booking/booking.service.ts:171-245 | The cron is the protocol's sweep |
| BookingMoney.SuccessfulWalletRequest | src/modules/booking/booking.service.ts:424-1050 | A successful wallet request debits the quoted charge once, from the requester alone, adds one confirmed row a slot with its price and share, and touches nothing but the requester's replaced holds |
| BookingMoney.PayThenCancelAll | src/modules/booking/booking.service.ts:1779-1841 | Pay by wallet, then cancel every member in any order with refused and repeated attempts: each is refunded once, and the wallet is back exactly after full payment, within n/2 cents after a deposit, if no share rounded to nothing |
| BookingMoney.RefundsMatchPayments | src/modules/booking/booking.service.ts:1797-1830 | Cancelling all members returns exactly what they had paid if and only if no share of a positive price rounded to nothing |
| BookingMoney.CouponComesBackIff | src/modules/booking/booking.service.ts:1843-1857 | Paying a group with a coupon and cancelling all of it, in any order with refused and repeated attempts, leaves the coupon's uses as they were if and only if the group has one member or the coupon had no use to lose |
| BookingMoney.LaterPaymentSettles | src/modules/booking/booking.service.ts:1487-1610 | payBooking by any method on a member that still owes after a deposit: every member ends fully paid, the two charges being the group price within n/2 cents, if and only if the wallet pays; the card is waited for; cash forgets the deposit, every member owing its whole price and worth no refund |
| BookingMoney.CashAcceptedIff | src/modules/booking/booking.service.ts:1250-1289 | Cash after a deposit is accepted unless an update is refused or the coupon cannot be saved |
| BookingMoney.SuspendAllGives | src/modules/booking/booking.service.ts:2099-2186 | The sweep cancels exactly the rows found and the wallet rises by exactly the reported total, whatever refunds fail |
| BookingMoney.RefundDrift | src/modules/booking/booking.service.ts:2125-2145 | When no refund fails the total is the tiered sum within half an EGP a paid booking |
| BookingMoney.SuspensionSweepLeavesNothing | src/modules/booking/booking.service.ts:2099-2186 | Afterwards no upcoming confirmed or pending booking of the user is left, the count is the number there was, the wallet rises by the reported total, which is one refund a row by the tiers of 3 and 24 hours, and within half an EGP a paid booking of the tiered sum |
| BookingMoney.SweepFinds | src/modules/booking/booking.service.ts:2099-2113 | The sweep finds the user's confirmed and pending bookings of later days, and of today those that have not ended by this hour |
| BookingMoney.SweepRows | src/modules/booking/booking.service.ts:2160-2180 | It cancels these rows, clears their amounts, and marks them refunded exactly if the tier gives something, paid if not, unpaid if nothing was paid; no other row changes |
| PaymentServices.PaymentService.HandlePaymobWebhook | src/modules/payment/payment.service.ts:572-910 | Every branch of the callback in order, with any call in it failing |
| CallbackAnswers.CallbackAnswered | src/modules/payment/payment.service.ts:572-910 | The whole answer of a callback in order: no payment, no booking, card transaction used, already processed, pending, failed, late with its credit, already fulfilled, on time with status, debit, members and coupon |
| CallbackAnswers.CardPaysOnce | src/modules/payment/payment.service.ts:651-666 | After a success with a card transaction has paid in full, and whatever callbacks arrive for that payment and whatever else happens, its transaction is on record and every callback with it for another payment with bookings is a duplicate that changes nothing |
| CallbackAnswers.CardPaidInPartPaysAgain | src/modules/payment/payment.service.ts:651-666 | A payment fulfilled in part does not stand in the way of its card transaction being used again |
| PaymentServices.PaymentService.ConfirmOnTime | src/modules/payment/payment.service.ts:778-894 | Compare-and-set, wallet part, confirmations, coupon |
| PaymentServices.PaymentService.CreditLate | src/modules/payment/payment.service.ts:742-776 | Payment saved as refunded, wallet credited, members expired unless cancelled |
| PaymentServices.PaymentService.AnyMemberTooLate | src/modules/payment/payment.service.ts:732-740 | The scan finds a member that is expired, cancelled or lapsed exactly if there is one |
| PaymentServices.PaymentService.RefundPayment | src/modules/payment/payment.service.ts:484-570 | Every refusal in order, credit, payment row, whole group cancelled, or its members up to an update that fails |
| CallbackAnswers.RefundAnswered | src/modules/payment/payment.service.ts:484-560 | A refund is refused unless the payment is fulfilled and the amount, or all that is left, is positive and not above what is left; otherwise credited, recorded, and the whole group cancelled |
| PaymentTheorems.WebhookExactlyOnce | src/modules/payment/payment.service.ts:650-815 | Any sequence of successful, failed, pending, repeated callbacks with clock, cron and anything that leaves the payment and its group alone: the payment is settled if and only if a success has got through; unpaid, no ledger row; fulfilled, exactly the debit of the wallet part, if there is one; refunded, exactly the credit of what it records as refunded, preceded by the debit only if a success came back to a payment fulfilled in part; a row is missing only if its wallet call failed |
| PaymentTheorems.MovedAtMostOnceIff | src/modules/payment/payment.service.ts:732-799 | When no wallet call fails the wallet is moved at most once for the payment if and only if no success came back to it, fulfilled in part, with a member gone, or there is no wallet part |
| PaymentTheorems.SuccessSettlesIff | src/modules/payment/payment.service.ts:613-683 | A success settles an unpaid payment if and only if its group has a booking left and the card transaction paid for no other payment; otherwise it changes nothing |
| PaymentTheorems.WholeCallbacksHold | src/modules/payment/payment.service.ts:816-840 | As long as no callback is cut short, a fulfilled payment's group is held and no success ever comes back to it |
| PaymentTheorems.CutShortDepositComesBack | src/modules/payment/payment.service.ts:732-840 | A deposit cut short at a member's update, the member's hold lapsed, the callback repeated: debit and credit both, with nothing cancelled in between |
| LostPayment.GroupGoneIff | src/modules/booking/booking.service.ts:694-704 | A request leaves nothing of an earlier group if and only if it gets past the overlap stage and replaces every booking of it |
| LostPayment.PaymentLostIff | src/modules/payment/payment.service.ts:637-647 | After a request no success changes anything for an earlier group's unpaid payment if and only if the request has replaced the whole group, or the card transaction paid for another payment |
| LostPayment.SecondThoughtsLosePayment | src/modules/payment/payment.service.ts:637-647 | Two requests for one hour by card: the callback for the first finds no booking, and its money is neither credited nor fulfilled |
| PaymentTheorems.SettledStays | src/modules/payment/payment.service.ts:668-683 | A settled payment stays as it is, and no callback moves money for it, if and only if no success comes back to it, fulfilled in part, with a member gone |
| PaymentTheorems.EventExact | src/modules/payment/payment.service.ts:743-799 | What one event does: a success settles an unpaid payment, on time with the debit or late with the credit; a late one refunds a payment fulfilled in part; anything else leaves the payment and the ledger alone |
| PaymentTheorems.PartialPaymentCallback | src/modules/payment/payment.service.ts:732-776 | A repeated success on a partly paid payment changes the database if and only if a member of its group is gone, and then credits the wallet with the card amount |
| PaymentTheorems.CutShortLeavesRest | src/modules/payment/payment.service.ts:800-850 | A callback whose k-th booking update fails has fulfilled the payment and left the members from the k-th on as they were; the group is held if and only if those were |
| PaymentTheorems.PaidIsFinal | src/modules/payment/payment.service.ts:668-683 | No later callback makes that good: on a payment paid in full each is answered as already processed and changes nothing |
| PaymentTheorems.OnTimeNeverBlocked | src/modules/payment/payment.service.ts:800-850 | The unique index never refuses a confirmation of a callback that found no member too late |
| PaymentTheorems.SuccessSplitsPayment | src/modules/payment/payment.service.ts:800-850 | A success splits card and wallet parts over the members, whatever they had paid before: nothing remains if they cover the group; after no earlier payment the members' payments add up to them within n/2 cents |
| PaymentTheorems.SuccessTakesWalletPart | src/modules/payment/payment.service.ts:786-815 | It pays in part exactly if the parts do not cover the group, and debits the wallet part exactly if the wallet holds it |
| PaymentTheorems.RemainderByCard | src/modules/booking/booking.service.ts:1541-1558 | Deposit, then the remainder by card and its callback: every member ends fully paid if and only if no member whose deposit share rounded to nothing falls short on the remainder |
| PaymentTheorems.RoundedAwayFallsShort | src/modules/payment/payment.service.ts:816-840 | Four members at 7, 7, 7 and 2 cents and a deposit of 5: the last ends one cent short when the card pays the rest |
| PaymentTheorems.CardRemainderSettlesIff | src/modules/payment/payment.service.ts:800-850 | A callback that brings what the group owes settles it under the same condition |
| PaymentTheorems.WebhookNeverDoubleBooks | src/modules/payment/payment.service.ts:732-776 | No callback double-books, whatever part of it fails |
| PaymentRaces.CompareAndSetWinsOnce | src/modules/payment/payment.service.ts:778-799 | However many success callbacks interleave call by call, if none finds the group gone then at most one wins and the wallet part is debited at most once |
| PaymentRaces.AloneIsWebhook | src/modules/payment/payment.service.ts:743-815 | A callback that nothing interleaves with does what the whole-callback specification says |
| PaymentRaces.RaceComesTo | src/modules/payment/payment.service.ts:668-815 | Every completed race of success callbacks from an unpaid payment, under every schedule: one credit for each callback past the status check that was late, fulfilled if and only if one was on time, a ledger row for each credit and, with a wallet part, each fulfilment |
| PaymentRaces.SettledOnceIff | src/modules/payment/payment.service.ts:668-815 | It is fulfilled or credited once at most in all if and only if none past the status check was late, or one was and no other got past |
| PaymentRaces.CreditedAndFulfilledIff | src/modules/payment/payment.service.ts:779-785 | It is both credited and fulfilled if and only if a late callback and one on time both got past the status check |
| PaymentRaces.MovedOnceIff | src/modules/payment/payment.service.ts:668-815 | The ledger gains at most one row under the same condition, or if exactly one was late and there is no wallet part to debit |
| PaymentRaces.TwoLateCallbacksBothCredit | src/modules/payment/payment.service.ts:743-757 | From an unpaid payment, two callbacks that both find the group gone before either saves both credit the wallet |
| PaymentRaces.TwoDebitsAndACredit | src/modules/payment/payment.service.ts:779-785 | From an unpaid payment, two callbacks on time and one late can debit the wallet part twice and credit the card amount |
| PaymentRaces.CreditedThenConfirmed | src/modules/payment/payment.service.ts:779-785 | The compare-and-set lets refunded through: one schedule from an unpaid payment that credits the card amount and still fulfils it |
| PaymentTheorems.RefundIsStep | src/modules/payment/payment.service.ts:537-560 | A refund is the protocol's cancellation of the whole group, or leaves every slot alone |
| MoneyBack.TotalReturned | src/modules/payment/payment.service.ts:484-535 | Over any sequence of cancellations, suspensions and refund requests each wallet rises by what cancelled bookings gave it plus, the payer's, what the payment records as refunded, never more than was paid, the status being refunded once all of it is |
| MoneyBack.CancelledAndRefunded | src/modules/payment/payment.service.ts:497-535 | Cancel some members, then refund any amount the payment has left: the refund is not reduced; more than the payment comes back if and only if the members gave more than the refund leaves, and after a full refund if and only if a member is marked refunded |
| MoneyBack.RefundedFirst | src/modules/booking/booking.service.ts:1779-1796 | In the other order nothing more comes back |
| MoneyBack.CutShortCancellationRefundsTwice | src/modules/booking/booking.service.ts:1813-1841 | A cancellation whose row update fails has credited its refund, and a second one credits it again |
| GroupMoney.TakenIsRecordedIff | src/modules/payment/payment.service.ts:786-840 | What a success that covers the group takes is what its members come to record if and only if card amount, wallet part if held, and what they had recorded add up to the group's price |
| GroupMoney.SecondPaymentUnrecorded | src/modules/payment/payment.service.ts:816-840 | Two card payments of one group can both be fulfilled: the members record the price once, and what the second takes nowhere |
| MoneyBack.RefundRecordedIffSaved | src/modules/payment/payment.service.ts:508-535 | The credit comes before the save: what the wallet gained is what the payment records if and only if the save works |
| Idempotency.IdempotentReplay | src/modules/booking/booking.service.ts:475-546 | Any calls with one key, cache entries evicted at will: one group at most is created; every later call leaves the database as it is and gets that group for the same fingerprint, a conflict for another |
| Idempotency.KnownAfter | src/modules/booking/booking.service.ts:494-546 | Only a call that creates its group changes what a key stands for, and only while it stands for nothing |
| Idempotency.FirstUse | src/modules/booking/booking.service.ts:1037-1048 | The first success ties the key to its group and fingerprint, a failure leaves it unused |
| Idempotency.LaterUse | src/modules/booking/booking.service.ts:485-546 | From then on the reply follows from slots, fingerprint and cache alone |
| Idempotency.OtherRequestKeepsKey | src/modules/booking/booking.service.ts:694-704 | Another request leaves a key as it was unless it gets past the overlap stage and one of the holds it replaces carries the key; then it does not |
| KeyLoss.OneKeyCreatesTwoGroups | src/modules/booking/booking.service.ts:494-546 | A keyed card request, an unkeyed one on the same slot, an evicted cache entry and the keyed retry: one key, two groups |
| KeyLoss.LockedTooLateIff | src/modules/booking/booking.service.ts:548-575 | A call that looked before it took the key's lock does what one that looks afterwards does if and only if the key is still unused |
| KeyLoss.ConcurrentRetryCreatesTwoGroups | src/modules/booking/booking.service.ts:548-575 | A retry that looks before the first call books and locks after it has finished creates a second group |
| Idempotency.FirstKeyed | src/modules/booking/booking.service.ts:501-507 | A row with the user's key is found if and only if there is one |
| Idempotency.KeysCompared | src/modules/booking/booking.service.ts:474-484 | A key is compared without the spaces around it, and none is no key |
| Idempotency.EarliestKeyed | src/modules/booking/booking.service.ts:501-507 | Of the rows with the key the earliest is found |
| Idempotency.RowsAnswer | src/modules/booking/booking.service.ts:501-546 | A key that only rows remember is replayed, and put back into the cache, or answered as a mismatch by its earliest row |
| Idempotency.BusyKey | src/modules/booking/booking.service.ts:548-575 | While the key's lock is held elsewhere an unused key is answered as busy and nothing happens |
| Idempotency.IdempotentBookings.CreateBooking | src/modules/booking/booking.service.ts:475-1060 | Cache, rows, key lock, booking, cache write, in order |
| Idempotency.IdempotentBookings.FindKeyed | src/modules/booking/booking.service.ts:501-507 | The search returns the first such row |
| RedisStore.StoreRefinesMap | src/common/services/redis/redis.service.ts:87-146 | After any operations, ticks and late timers the in-memory store answers what a map of values with deadlines answers, if every TTL fits a timer; a deletion may count more |
| RedisStore.TtlOverflow | src/common/services/redis/redis.service.ts:101-110 | In any store that agrees with its map, a written value outlives its first millisecond if and only if its TTL fits a Node.js timer |
| RedisStore.DeletionCount | src/common/services/redis/redis.service.ts:228-238 | delKey's count is that of the map if and only if no key given to it has expired without being collected |
| RedisStore.StepRefines | src/common/services/redis/redis.service.ts:173-206 | One operation keeps the refinement and agrees on its answer |
| RedisStore.ValueLasts | src/common/services/redis/redis.service.ts:96-133 | A value with a TTL is there until that many seconds have passed and no longer; without one, or with zero, it stays |
| RedisStore.SecondsLeft | src/common/services/redis/redis.service.ts:173-180 | The TTL left is told in seconds rounded up, -1 without one, -2 when gone |
| RedisStore.LongestTtl | src/common/services/redis/redis.service.ts:101-110 | A TTL fits a timer up to 2147483 seconds |
| RedisStore.LockLasts | src/common/services/redis/redis.service.ts:46-73 | A free lock is taken, and then refused until its TTL has passed |
| RedisStore.MutualExclusion | src/common/services/redis/redis.service.ts:46-85 | If every holder releases within its TTL, at most one client is between acquire and release, for any order of clients, ticks and timers |
| RedisStore.ExclusionIff | src/common/services/redis/redis.service.ts:46-85 | Exclusion holds throughout a run if and only if no acquire in it finds the lock of a section that has outlived its TTL |
| RedisStore.StepBreaksExclusionIff | src/common/services/redis/redis.service.ts:46-85 | One step breaks exclusion if and only if it is such an acquire |
| RedisStore.ReleaseFreesAnotherIff | src/common/services/redis/redis.service.ts:75-85 | A release takes a client's lock from under it if and only if another client still in a section of that key releases |
| RedisStore.StaleTimerFreesNothing | src/common/services/redis/redis.service.ts:60-65 | No timer, however stale, frees a lock that has not expired |
| RedisStore.OverrunLetsTwoIn | src/common/services/redis/redis.service.ts:75-85 | One overrun breaks exclusion for clients that are on time: release deletes whoever's lock it finds |
| RedisStore.RedisService.AcquireLock | src/common/services/redis/redis.service.ts:46-73 | Refuses a live lock, replaces an expired one with its timer |
| RedisStore.RedisService.ReleaseLock | src/common/services/redis/redis.service.ts:75-85 | Deletes the lock and its timer |
| RedisStore.RedisService.SetValue | src/common/services/redis/redis.service.ts:96-111 | The old timer is cleared, one timer is set for an entry with a TTL |
| RedisStore.RedisService.GetValue | src/common/services/redis/redis.service.ts:124-133 | Expired entries are collected on read |
| RedisStore.RedisService.ExistKey | src/common/services/redis/redis.service.ts:189-198 | As a read, answering one or zero |
| RedisStore.RedisService.TtlOf | src/common/services/redis/redis.service.ts:173-180 | Remaining seconds rounded up, -1 without expiry, -2 if gone |
| RedisStore.RedisService.DelKey | src/common/services/redis/redis.service.ts:228-239 | Removes the keys with their timers and counts what was in memory |
| RedisStore.RedisService.FireTimer | src/common/services/redis/redis.service.ts:60-65 | What a due timer's callback does |
| Refresh.RefreshRotation | src/modules/auth/auth.service.ts:398-490 | An exchanged refresh token is answered with the same pair for 25 s and refused for the rest of its life, and the access token with its jti stops authenticating, whatever else happens |
| Refresh.RefreshAnswered | src/modules/auth/auth.service.ts:381-493 | refreshToken in order: not a good token, the pair of the last 25 s, revoked, no user, and otherwise a new pair with its lifetimes, grace entry and revocation |
| Refresh.AuthenticationAnswered | src/common/services/token/tokenService.ts:67-116 | A token authenticates if and only if it was handed out, is in time, its user exists and it is not revoked, with the first reason that fails |
| Refresh.LogoutAnswered | src/modules/auth/auth.service.ts:507-523 | After a logout the refresh token and the access token with its identifier are refused for 30 days |
| Refresh.OnePairPerToken | src/modules/auth/auth.service.ts:398-490 | In every run all successes of one token return one and the same pair |
| Refresh.NothingIssued | src/modules/auth/auth.service.ts:436-490 | A state in which no token has been issued meets the conditions those runs start from |
| Refresh.ExchangedStays | src/modules/auth/auth.service.ts:473-488 | No event shortens the grace window or the revocation of an exchanged token; the revocation outlives it |
| Refresh.RevocationInMemory | src/modules/auth/auth.service.ts:482-488 | In any in-memory store the revocation outlives its first millisecond if and only if the user is an admin: a customer's 30 days overflow the timer |
| Refresh.AuthService.RefreshToken | src/modules/auth/auth.service.ts:381-493 | Verification, grace, revocation, user, new pair, grace entry, revocation entry, in order |
| Refresh.AuthService.LogOut | src/modules/auth/auth.service.ts:507-523 | Revokes a refresh token that verifies |
| Refresh.AuthService.AuthenticateTokenFetchUser | src/common/services/token/tokenService.ts:67-116 | Verification, user, revocation lookup, in order |
| Ads.ReadsAgree | src/modules/advertisement/advertisement.service.ts:525-590 | In every run a dashboard read returns what a query of the current advertisements, counters aside, would have returned at some instant of the last 300 s |
| Ads.ListedInOrder | src/modules/advertisement/advertisement.service.ts:537-575 | A query finds what is active, within its dates and in its place, by descending priority and the newer first among equals |
| Ads.StatusOfDates | src/modules/advertisement/advertisement.service.ts:81-105 | Which status dates and an explicit status give, and when they are refused |
| Ads.ListLasts | src/modules/advertisement/advertisement.service.ts:525-590 | A list that was read is given again for 300 s, and then read anew |
| Ads.CreationAnswered | src/modules/advertisement/advertisement.service.ts:110-190 | When a new advertisement is refused, and what is stored otherwise |
| Ads.ChangeAnswered | src/modules/advertisement/advertisement.service.ts:195-292 | A change leaves every field it does not give, and works the status out anew only for new dates or a new status |
| Ads.OtherChangesAnswered | src/modules/advertisement/advertisement.service.ts:406-468 | What setting a status, priority or schedule, counting and deleting change |
| Ads.LastMentionWins | src/modules/advertisement/advertisement.service.ts:498-520 | A new order gives each advertisement the priority it mentions last |
| Ads.ChangesInvalidate | src/modules/advertisement/advertisement.service.ts:56-76 | Every operation that changes anything a reader sees leaves nothing in the cache |
| Ads.ComputedStatusShows | src/modules/advertisement/advertisement.service.ts:81-105 | An advertisement saved with its computed status is shown at once exactly when its dates include now |
| Ads.ScheduledIsNeverListed | src/modules/advertisement/advertisement.service.ts:537-560 | A scheduled advertisement is on no list, past its start date too, until an admin changes it |
| Ads.AdvertisementService.Create | src/modules/advertisement/advertisement.service.ts:110-190 | Refusals in order, then the row and the invalidation |
| Ads.AdvertisementService.Update | src/modules/advertisement/advertisement.service.ts:195-292 | Merged dates, status recomputed only when dates or status are given, invalidation |
| Ads.AdvertisementService.Schedule | src/modules/advertisement/advertisement.service.ts:431-468 | Status computed from the new dates, invalidation |
| Ads.AdvertisementService.UpdateStatus | src/modules/advertisement/advertisement.service.ts:406-426 | The status as given, invalidation |
| Ads.AdvertisementService.UpdatePriority | src/modules/advertisement/advertisement.service.ts:473-493 | The priority as given, invalidation |
| Ads.AdvertisementService.BulkReorder | src/modules/advertisement/advertisement.service.ts:498-520 | Every existing item's priority, the last mention winning, invalidation |
| Ads.AdvertisementService.Delete | src/modules/advertisement/advertisement.service.ts:297-319 | The row goes, invalidation |
| Ads.AdvertisementService.GetDashboardAdvertisements | src/modules/advertisement/advertisement.service.ts:525-590 | A live cached list if there is one, otherwise the query's result, cached for 300 s |
| Ads.AdvertisementService.RecordImpression | src/modules/advertisement/advertisement.service.ts:595-612 | One more impression, cache untouched |
| Ads.AdvertisementService.RecordClick | src/modules/advertisement/advertisement.service.ts:617-635 | One more click, cache untouched |
| Ads.AdvertisementService.InvalidateDashboardCache | src/modules/advertisement/advertisement.service.ts:56-68 | Every key a read can use is cleared |

## Left out

- Slots.NoDoubleBookingOnRuns: locks are held to the end; `SlotLock` drops that. The overlap query and the deletion of the requester's own holds are one step. A confirmation that payBooking or a callback writes on its own is allowed only on a row that still occupies its hours; the counterexamples show what happens otherwise.
- SlotLock.NoDoubleBookingWithLapsingLocks: what it asks of the timing is a hypothesis, because the code does not enforce it.
- ServiceRuns.ServicesAreSafe: operations run one after the other; `Slots`, `Wallet` and `PaymentRaces` interleave their calls. Wallet payments are those without a session. The calls that do not fail are deletions of replaced holds and the coupon update of a cancellation, whose failures the services swallow.
- BookingServices.BookingService.CreateBooking: its wallet payment is the one without a session. A deletion whose failure the service swallows is taken to succeed.
- BookingServices.BookingService.ReplaceOwnHolds: a deletion that fails, which the service swallows, is not modelled.
- BookingServices.BookingService.ProcessGroupPayment: the session branch is modelled beside it, in `SessionPayments`; the theorems about whole operations are about servers without sessions.
- SessionPayments.SessionPayment.PayWithSession: nothing else runs between the session's start and its end, except that a write conflict may be reported at any call.
- PaymentRaces.RaceComesTo: the interleaving is of the payment row and the wallet; member confirmations are left to the whole-callback model and to the single writes of `Slots`. Wallet calls work.
- Idempotency.IdempotentReplay: calls with one key do not interleave, and the 10 s key lock is an input that is free or not; `LockedTooLateIff` says when that matters.
- Idempotency.IdempotentBookings.CreateBooking: one attempt at the key's lock stands for up to 25 with repeated cache look-ups.
- BookingRequest.FingerprintMeaning: the SHA-256 hash is not modelled; fingerprints are the serialized object itself.
- RedisStore.StoreRefinesMap: `inc`, `update`, `expire` and `Keys`, and switching between a Redis server and memory, are not modelled.
- Refresh.RefreshRotation: token signing is a set of tokens handed out.
- Refresh.AuthService.RefreshToken: a token without a user type, which is looked up in both collections, is not modelled; none is handed out by this service.
- Refresh.AuthService.AuthenticateTokenFetchUser: likewise.
- Refresh.AuthService.LogOut: the branch with an `id` and a `jti` on the request's user never runs for the user documents passed to it.
- Ads.ReadsAgree: invalidation is reliable and reads and writes do not interleave; presigned image links are part of an advertisement's content.
- MoneyBack.TotalReturned: the refund requests are those whose payment can be saved; `RefundRecordedIffSaved` is about the others.
- The reconciliation cron of the payment service, which depends on the remote gateway.
- updateStatus, createPayment and markCashPaid, which set a status without an overlap or expiry check.
- HMAC, Paymob requests, JWT and bcrypt, QR codes, S3, mail, push messages and sockets.
- Coupons looked up by id rather than code. A coupon's usesCount is kept but not shown to stay within maxUses, because check and increment are separate.
- Local time against UTC: one clock stands for both.
- The customer and venue look-ups of createBooking are inputs (`Env`); a booking always has a group.
- Rounding by binary floating point: sums and quotients are exact before they are rounded to cents.
- No-show counters, match reminders, notifications, controllers, reports and the other modules, which are plumbing.
