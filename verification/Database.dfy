/** The documents the services share, as a value and as the object their methods update. */
module Database {
  import opened Prelude
  import opened BookingRequest
  import opened Slots
  import opened Coupon
  import Wallet

  /** The money part of a booking document. */
  datatype Bill = Bill(totalPrice: nat, discountAmount: int, finalPrice: nat, paidAmount: int, remainingAmount: int,
                       paymentStatus: PaymentStatus, paymentMethod: PaymentMethod, couponCode: Option<string>,
                       idempotencyKey: Option<string>, requestHash: Canonical)

  datatype Booking = Booking(claim: Claim, bill: Bill)

  type Bookings = map<BookingId, Booking>

  type TransactionId = nat

  datatype Payment = Payment(groupId: nat, user: nat, amount: int, walletDeduction: int, paymentMethod: PaymentMethod,
                             status: PaymentStatus, paymobTransactionId: Option<nat>, refundedAmount: int)

  datatype CouponDoc = CouponDoc(kind: CouponKind, discount: nat, startDate: int, endDate: int, maxUses: int,
                                 usesCount: int, isActive: bool)

  /** Identifiers are drawn from counters; they only have to be fresh. */
  datatype Db = Db(now: int, bookings: Bookings, payments: map<TransactionId, Payment>, coupons: map<string, CouponDoc>,
                   wallets: Wallet.State, nextId: BookingId, nextGroup: nat, nextTransaction: TransactionId)

  function Claims(bookings: Bookings): Table {
    map i | i in bookings :: bookings[i].claim
  }

  /** The slot protocol's view of the database between two requests. */
  function SlotState(db: Db): Sys {
    Sys(db.now, Claims(db.bookings), map[], db.nextId)
  }

  predicate IdsUsed(db: Db) {
    forall i :: i in db.bookings ==> i < db.nextId
  }

  function Group(bookings: Bookings, groupId: nat): set<BookingId> {
    set i | i in bookings && bookings[i].claim.groupId == groupId
  }

  class Store {
    var now: int
    var bookings: Bookings
    var payments: map<TransactionId, Payment>
    var coupons: map<string, CouponDoc>
    var nextId: BookingId
    var nextGroup: nat
    var nextTransaction: TransactionId

    constructor (now: int)
      ensures this.now == now && bookings == map[] && payments == map[] && coupons == map[]
      ensures nextId == nextGroup == nextTransaction == 0
    {
      this.now := now;
      bookings, payments, coupons := map[], map[], map[];
      nextId, nextGroup, nextTransaction := 0, 0, 0;
    }

    function View(wallet: Wallet.WalletService): Db
      reads this, wallet
    {
      Db(now, bookings, payments, coupons, wallet.View(), nextId, nextGroup, nextTransaction)
    }
  }
}
