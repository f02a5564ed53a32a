/** When payBooking keeps bookings apart: it confirms every member of its group, whatever became of it since. */
module PaySafety {
  import opened Prelude
  import opened BookingRequest
  import opened Slots
  import opened GroupPrice
  import opened Database
  import opened BookingOperations
  import opened BookingTheorems
  import Wallet

  // ----- which members a call confirms -----

  function ByWallet(db: Db, user: nat, ids: seq<BookingId>, charge: AmountDue, faults: Faults): seq<BookingId> {
    if Wallet.Deducted(db.wallets, user, charge.amount, Wallet.BookingPayment, faults.debitLedgerOk).1.Err? then []
    else Reached(ids, StopsAt(db.bookings, ids, faults.updateFails, 0))
  }

  /** The members payBooking confirms, read off the database before the call; they stay confirmed if a later call fails. */
  function Confirmations(db: Db, id: BookingId, user: nat, body: PayRequest, found: seq<BookingId>, minimumDeposit: nat,
                         faults: Faults): seq<BookingId> {
    if id !in db.bookings || PayError(db.bookings[id], user, db.now).Some? then []
    else
      match PayCharge(db.bookings, db.bookings[id], found, minimumDeposit, body.customAmount)
      case Err(_) => []
      case Ok(charge) =>
        match body.paymentMethod
        case WalletMethod => ByWallet(db, user, found, charge, faults)
        case Cash => Reached(found, StopsAt(db.bookings, found, faults.updateFails, 0))
        case Paymob =>
          if WalletPart(Wallet.Balance(db.wallets, user), body.walletAmountToUse, charge.amount) >= charge.amount
          then ByWallet(db.(wallets := Wallet.Upserted(db.wallets, user)), user, found, charge, faults) else []
  }

  /** Exactly these rows are confirmed; slot parts change in no other way. */
  predicate ConfirmsJust(before: Bookings, after: Bookings, ids: seq<BookingId>) {
    && after.Keys == before.Keys
    && forall i :: i in after ==> after[i].claim == if i in ids then ConfirmedClaim(before[i].claim) else before[i].claim
  }

  predicate NoneBlocked(bookings: Bookings, ids: seq<BookingId>) {
    forall k :: 0 <= k < |ids| ==> !Blocked(bookings, ids, k)
  }

  lemma ReachedNotBlocked(bookings: Bookings, ids: seq<BookingId>, fails: Option<nat>)
    ensures NoneBlocked(bookings, Reached(ids, StopsAt(bookings, ids, fails, 0)))
  {
    var stop := StopsAt(bookings, ids, fails, 0);
    var reached := Reached(ids, stop);
    forall k | 0 <= k < |reached| ensures !Blocked(bookings, reached, k) {
      assert reached[..k] == ids[..k];
      assert !Blocked(bookings, ids, k);
    }
  }

  /** What a payment does to the slot parts: it confirms these members, none of them where the index would refuse it. */
  predicate Confirms(db: Db, after: Db, ids: seq<BookingId>) {
    && after.now == db.now && after.nextId == db.nextId
    && ConfirmsJust(db.bookings, after.bookings, ids) && NoneBlocked(db.bookings, ids)
  }

  lemma CompensatingConfirms(db: Db, user: nat, ids: seq<BookingId>, groupId: nat, charge: AmountDue, groupFinal: nat,
                             coupon: Option<string>, faults: Faults)
    ensures Confirms(db, PayCompensating(db, user, ids, groupId, charge, groupFinal, coupon, faults).0,
                     ByWallet(db, user, ids, charge, faults))
  {
    ReachedNotBlocked(db.bookings, ids, faults.updateFails);
  }

  lemma CashConfirms(db: Db, ids: seq<BookingId>, coupon: Option<string>, faults: Faults)
    ensures Confirms(db, PayCash(db, ids, coupon, faults).0, Reached(ids, StopsAt(db.bookings, ids, faults.updateFails, 0)))
  {
    ReachedNotBlocked(db.bookings, ids, faults.updateFails);
  }

  lemma PaymobConfirms(db: Db, user: nat, ids: seq<BookingId>, groupId: nat, charge: AmountDue, groupFinal: nat,
                       walletAmountToUse: Option<int>, coupon: Option<string>, faults: Faults)
    ensures Confirms(db, PayPaymob(db, user, ids, groupId, charge, groupFinal, walletAmountToUse, coupon, faults).0,
                     if WalletPart(Wallet.Balance(db.wallets, user), walletAmountToUse, charge.amount) >= charge.amount
                     then ByWallet(db.(wallets := Wallet.Upserted(db.wallets, user)), user, ids, charge, faults) else [])
  {
    CompensatingConfirms(db.(wallets := Wallet.Upserted(db.wallets, user)), user, ids, groupId, charge, groupFinal, coupon, faults);
  }

  lemma PayConfirms(db: Db, id: BookingId, user: nat, body: PayRequest, found: seq<BookingId>, minimumDeposit: nat, faults: Faults)
    requires id in db.bookings && PayError(db.bookings[id], user, db.now).None?
    ensures Confirms(db, Pay(db, id, user, body, found, minimumDeposit, faults).0,
                     Confirmations(db, id, user, body, found, minimumDeposit, faults))
  {
    var b := db.bookings[id];
    var charge := PayCharge(db.bookings, b, found, minimumDeposit, body.customAmount);
    if charge.Ok? {
      var groupFinal, coupon := GroupTotalPrice(db.bookings, found), PayCoupon(b, body);
      match body.paymentMethod
      case WalletMethod => CompensatingConfirms(db, user, found, b.claim.groupId, charge.value, groupFinal, coupon, faults);
      case Cash => CashConfirms(db, found, coupon, faults);
      case Paymob =>
        PaymobConfirms(db, user, found, b.claim.groupId, charge.value, groupFinal, body.walletAmountToUse, coupon, faults);
    }
  }

  // ----- exactly when that double-books -----

  /** The member's hours went, under another start, to a row that is live or that the same call confirms. */
  predicate SoldAgain(db: Db, ids: seq<BookingId>, i: BookingId)
    requires i in db.bookings
  {
    exists j :: j in db.bookings && j != i && (Live(db.bookings[j].claim, db.now) || j in ids)
                && ClaimsOverlap(db.bookings[i].claim, db.bookings[j].claim)
                && db.bookings[j].claim.start != db.bookings[i].claim.start
  }

  /** Every member the call confirms is live, or its hours are still free. */
  predicate StillFree(db: Db, ids: seq<BookingId>) {
    forall i :: i in ids && i in db.bookings ==> Live(db.bookings[i].claim, db.now) || !SoldAgain(db, ids, i)
  }

  lemma SameStartBlocked(db: Db, ids: seq<BookingId>, i: BookingId, j: BookingId)
    requires NoneBlocked(db.bookings, ids) && i in ids && i in db.bookings && j in db.bookings && i != j
    requires Active(db.bookings[j].claim) || j in ids
    requires SameDay(db.bookings[i].claim, db.bookings[j].claim)
    ensures db.bookings[i].claim.start != db.bookings[j].claim.start
  {
    var k :| 0 <= k < |ids| && ids[k] == i;
    assert !Blocked(db.bookings, ids, k);
    if j in ids {
      var l :| 0 <= l < |ids| && ids[l] == j;
      assert !Blocked(db.bookings, ids, l);
      if k < l {
        assert ids[..l][k] == i;
      } else {
        assert ids[..k][l] == j;
      }
    }
  }

  lemma ConfirmingIff(db: Db, after: Db, ids: seq<BookingId>)
    requires NoDoubleBooking(Claims(db.bookings), db.now) && Confirms(db, after, ids)
    ensures NoDoubleBooking(Claims(after.bookings), after.now) <==> StillFree(db, ids)
  {
    var before, t := Claims(db.bookings), Claims(after.bookings);
    if StillFree(db, ids) {
      forall i, j | i in t && j in t && i != j && Live(t[i], after.now) && Live(t[j], after.now) ensures !ClaimsOverlap(t[i], t[j]) {
        if ClaimsOverlap(t[i], t[j]) {
          assert ClaimsOverlap(before[i], before[j]) && ClaimsOverlap(before[j], before[i]);
          if i in ids && !Live(before[i], db.now) {
            SameStartBlocked(db, ids, i, j);
            assert SoldAgain(db, ids, i);
          } else if j in ids && !Live(before[j], db.now) {
            SameStartBlocked(db, ids, j, i);
            assert SoldAgain(db, ids, j);
          }
        }
      }
    } else {
      var i :| i in ids && i in db.bookings && !Live(db.bookings[i].claim, db.now) && SoldAgain(db, ids, i);
      var j :| j in db.bookings && j != i && (Live(db.bookings[j].claim, db.now) || j in ids)
               && ClaimsOverlap(db.bookings[i].claim, db.bookings[j].claim);
      assert Live(t[i], after.now) && Live(t[j], after.now) && ClaimsOverlap(t[i], t[j]);
    }
  }

  /**
   payBooking, whatever is paid with and whatever fails, leaves bookings apart that were apart if and only if
   every member it confirms is live or still has its hours to itself; the index sees equal starts and no more.
   */
  lemma PayDoubleBooksIff(db: Db, id: BookingId, user: nat, body: PayRequest, found: seq<BookingId>, minimumDeposit: nat,
                          faults: Faults)
    requires NoDoubleBooking(Claims(db.bookings), db.now)
    ensures var after := Pay(db, id, user, body, found, minimumDeposit, faults).0;
            NoDoubleBooking(Claims(after.bookings), after.now)
            <==> StillFree(db, Confirmations(db, id, user, body, found, minimumDeposit, faults))
  {
    var after := Pay(db, id, user, body, found, minimumDeposit, faults).0;
    if id in db.bookings && PayError(db.bookings[id], user, db.now).None? {
      PayConfirms(db, id, user, body, found, minimumDeposit, faults);
      ConfirmingIff(db, after, Confirmations(db, id, user, body, found, minimumDeposit, faults));
    } else {
      RefusalKeepsApart(db, id, user, body, found, minimumDeposit, faults);
    }
  }

  /** A payment that is refused changes no slot part, unless it finds its booking's hold lapsed and lets it expire. */
  lemma RefusalGives(db: Db, id: BookingId, user: nat, body: PayRequest, found: seq<BookingId>, minimumDeposit: nat, faults: Faults)
    requires id in db.bookings ==> PayError(db.bookings[id], user, db.now).Some?
    ensures SlotState(Pay(db, id, user, body, found, minimumDeposit, faults).0)
            == if id in db.bookings && PayError(db.bookings[id], user, db.now) == Some(HoldExpired)
               then Next(SlotState(db), PayCheck(id)) else SlotState(db)
  {
    if id in db.bookings && PayError(db.bookings[id], user, db.now) == Some(HoldExpired) {
      assert Claims(Pay(db, id, user, body, found, minimumDeposit, faults).0.bookings) == Next(SlotState(db), PayCheck(id)).table;
    }
  }

  lemma RefusalKeepsApart(db: Db, id: BookingId, user: nat, body: PayRequest, found: seq<BookingId>, minimumDeposit: nat,
                          faults: Faults)
    requires NoDoubleBooking(Claims(db.bookings), db.now)
    requires id in db.bookings ==> PayError(db.bookings[id], user, db.now).Some?
    ensures var after := Pay(db, id, user, body, found, minimumDeposit, faults).0;
            NoDoubleBooking(Claims(after.bookings), after.now)
  {
    RefusalGives(db, id, user, body, found, minimumDeposit, faults);
    var s := SlotState(db);
    assert NoDoubleBooking(Next(s, PayCheck(id)).table, s.now);
  }

  /** A payment by wallet or cash that succeeds has confirmed the whole group. */
  lemma SuccessConfirmsGroup(db: Db, id: BookingId, user: nat, body: PayRequest, found: seq<BookingId>, minimumDeposit: nat,
                             faults: Faults)
    requires Pay(db, id, user, body, found, minimumDeposit, faults).1.Ok? && !body.paymentMethod.Paymob?
    ensures Confirmations(db, id, user, body, found, minimumDeposit, faults) == found
  {
  }

  // ----- and what a run needs -----

  /** Every member still occupies its hours, or nothing that occupies them, or is confirmed with it, is in its way. */
  predicate GroupPayable(db: Db, found: seq<BookingId>) {
    forall i :: i in found && i in db.bookings ==>
      Occupies(db.bookings[i].claim, db.now) ||
      forall j :: j in db.bookings && j != i && (Occupies(db.bookings[j].claim, db.now) || j in found) ==>
        !ClaimsOverlap(db.bookings[i].claim, db.bookings[j].claim)
  }

  lemma ConfirmingKeepsApart(db: Db, after: Db, ids: seq<BookingId>)
    requires Inv(SlotState(db)) && GroupPayable(db, ids) && Confirms(db, after, ids)
    ensures Inv(SlotState(after))
  {
    var before, t := Claims(db.bookings), Claims(after.bookings);
    assert RowsGood(SlotState(after));
    forall i, j | i in t && j in t && i != j && Occupies(t[i], db.now) && Occupies(t[j], db.now)
      ensures !ClaimsOverlap(t[i], t[j])
    {
      assert ClaimsOverlap(before[i], before[j]) == ClaimsOverlap(before[j], before[i]);
    }
    forall i, j | i in t && j in t && i != j && Indexed(t[i]) && Indexed(t[j]) && SameDay(t[i], t[j]) ensures t[i].start != t[j].start {
      ConfirmedStartsDiffer(db, ids, i, j);
    }
  }

  lemma ConfirmedStartsDiffer(db: Db, ids: seq<BookingId>, i: BookingId, j: BookingId)
    requires Inv(SlotState(db)) && GroupPayable(db, ids) && NoneBlocked(db.bookings, ids)
    requires i in db.bookings && j in db.bookings && i != j && SameDay(db.bookings[i].claim, db.bookings[j].claim)
    requires (Indexed(db.bookings[i].claim) || i in ids) && (Indexed(db.bookings[j].claim) || j in ids)
    ensures db.bookings[i].claim.start != db.bookings[j].claim.start
  {
    var c, d := Claims(db.bookings)[i], Claims(db.bookings)[j];
    if i in ids && (Active(d) || j in ids) {
      SameStartBlocked(db, ids, i, j);
    } else if j in ids && (Active(c) || i in ids) {
      SameStartBlocked(db, ids, j, i);
    } else if c.start == d.start {
      assert ClaimsOverlap(c, d) && ClaimsOverlap(d, c);
    }
  }

  lemma ConfirmedAreMembers(db: Db, id: BookingId, user: nat, body: PayRequest, found: seq<BookingId>, minimumDeposit: nat,
                            faults: Faults)
    ensures forall i :: i in Confirmations(db, id, user, body, found, minimumDeposit, faults) ==> i in found
  {
  }

  lemma FewerPayable(db: Db, ids: seq<BookingId>, found: seq<BookingId>)
    requires GroupPayable(db, found) && forall i :: i in ids ==> i in found
    ensures GroupPayable(db, ids)
  {
  }

  /** payBooking on such a group keeps the slot invariant, failed payments included. */
  lemma PayNeverDoubleBooks(db: Db, id: BookingId, user: nat, body: PayRequest, found: seq<BookingId>, minimumDeposit: nat,
                            faults: Faults)
    requires Inv(SlotState(db)) && GroupPayable(db, found)
    ensures Inv(SlotState(Pay(db, id, user, body, found, minimumDeposit, faults).0))
  {
    if id in db.bookings && PayError(db.bookings[id], user, db.now).None? {
      var ids := Confirmations(db, id, user, body, found, minimumDeposit, faults);
      PayConfirms(db, id, user, body, found, minimumDeposit, faults);
      ConfirmedAreMembers(db, id, user, body, found, minimumDeposit, faults);
      FewerPayable(db, ids, found);
      ConfirmingKeepsApart(db, Pay(db, id, user, body, found, minimumDeposit, faults).0, ids);
    } else {
      RefusalGives(db, id, user, body, found, minimumDeposit, faults);
      NextKeepsInv(SlotState(db), PayCheck(id));
    }
  }

  // ----- a group with a cancelled member -----

  const NO_FAULTS := Faults(None, true, None, true, true, true, true)

  function ResoldBooking(c: Claim): Booking {
    var request := Canonical(1, 1, [], None, Cash);
    Booking(c, Bill(100, 0, 100, 0, 100, Unpaid, Cash, None, None, request))
  }

  /** User 7 has cancelled one booking of the group, its second hour was sold to user 8, and the other is still held. */
  function ResoldDb(): Db {
    var rows := ResoldRows(Claim(7, 1, 1, 18, 20, 5, Cancelled, None));
    Db(0, map i | i in rows :: ResoldBooking(rows[i]), map[], map[], Wallet.State(map[], []), 4, 7, 0)
  }

  lemma ResoldDbGood(db: Db)
    requires db == ResoldDb()
    ensures Claims(db.bookings) == ResoldRows(Claim(7, 1, 1, 18, 20, 5, Cancelled, None))
    ensures Inv(SlotState(db)) && NoDoubleBooking(Claims(db.bookings), db.now)
    ensures forall i :: i in db.bookings <==> i == 1 || i == 2 || i == 3
  {
    assert Claims(db.bookings) == ResoldRows(Claim(7, 1, 1, 18, 20, 5, Cancelled, None));
    ResoldRowsGood(Claim(7, 1, 1, 18, 20, 5, Cancelled, None));
    InvMeansNoDoubleBooking(SlotState(db));
  }

  lemma ResoldGroup(db: Db)
    requires db == ResoldDb()
    ensures Listing([1, 2], Group(db.bookings, 5))
  {
  }

  lemma ResoldGoesThrough(db: Db)
    requires db == ResoldDb()
    ensures StopsAt(db.bookings, [1, 2], None, 0).None?
  {
    ResoldDbGood(db);
    var rows := Claims(db.bookings);
    assert rows[1].start == 18 && rows[2].start == 20 && rows[3].start == 19;
    assert !Blocked(db.bookings, [1, 2], 0) && !Blocked(db.bookings, [1, 2], 1);
    assert StopsAt(db.bookings, [1, 2], None, 1) == StopsAt(db.bookings, [1, 2], None, 2) == None;
  }

  lemma ResoldPays(db: Db)
    requires db == ResoldDb()
    ensures Pay(db, 2, 7, PayRequest(Cash, None, None, None), [1, 2], 0, NO_FAULTS).1.Ok?
  {
    ResoldGoesThrough(db);
    assert PayError(db.bookings[2], 7, 0).None?;
  }

  /**
   So payBooking double-books: user 7 pays in cash for the booking still held, the call succeeds, and both users
   have the hour from 19.
   */
  lemma PayingGroupDoubleBooks()
    ensures var db := ResoldDb();
            var (after, r) := Pay(db, 2, 7, PayRequest(Cash, None, None, None), [1, 2], 0, NO_FAULTS);
            && Inv(SlotState(db)) && Listing([1, 2], Group(db.bookings, 5)) && r.Ok?
            && !NoDoubleBooking(Claims(after.bookings), after.now)
  {
    var db, body := ResoldDb(), PayRequest(Cash, None, None, None);
    ResoldDbGood(db);
    ResoldGroup(db);
    ResoldPays(db);
    SuccessConfirmsGroup(db, 2, 7, body, [1, 2], 0, NO_FAULTS);
    PayDoubleBooksIff(db, 2, 7, body, [1, 2], 0, NO_FAULTS);
    ResoldNotFree(db);
  }

  lemma ResoldNotFree(db: Db)
    requires db == ResoldDb()
    ensures !StillFree(db, [1, 2])
  {
    ResoldDbGood(db);
    var rows := Claims(db.bookings);
    assert Live(rows[3], 0) && ClaimsOverlap(rows[1], rows[3]) && rows[3].start != rows[1].start;
    assert SoldAgain(db, [1, 2], 1) && 1 in [1, 2];
  }
}
