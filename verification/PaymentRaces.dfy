/** Success callbacks that interleave: one repository call of one callback at a time, over one payment and the wallets. */
module PaymentRaces {
  import opened Prelude
  import opened Money
  import opened BookingRequest
  import opened Slots
  import opened Database
  import opened BookingOperations
  import opened Payments
  import opened PaymentTheorems
  import Wallet

  /** Where a success callback stands between two of its repository calls. */
  datatype Phase = Confirming(status: PaymentStatus) | Won | Late(amount: int) | Saved(amount: int) | Over

  datatype Race = Race(payment: Payment, wallets: Wallet.State, flights: seq<Phase>)

  datatype Move =
    /** A callback reads the payment and its group, and decides whether it is late and whether it pays a deposit. */
    | Look(late: bool, deposit: bool, amountCents: int)
    | CompareAndSet(i: nat)
    | Debit(i: nat, ledgerOk: bool)
    | SaveRefund(i: nat)
    | Credit(i: nat, ledgerOk: bool)

  function Debited(s: Race, ledgerOk: bool): Wallet.State {
    PartTaken(s.wallets, s.payment.user, s.payment.walletDeduction, ledgerOk)
  }

  /** The callback gets past the status check that answers for a payment already paid or refunded. */
  predicate Passes(s: Race, m: Move) {
    m.Look? && !s.payment.status.Paid? && !s.payment.status.Refunded?
  }

  predicate Wins(s: Race, m: Move) {
    m.CompareAndSet? && m.i < |s.flights| && s.flights[m.i].Confirming? && !Fulfilled(s.payment.status)
  }

  /** One repository call of one callback; a move its callback is not ready for changes nothing. */
  function Raced(s: Race, m: Move): Race {
    match m
    case Look(late, deposit, cents) =>
      var amount := if cents > 0 then cents else s.payment.amount;
      var phase :=
        if !Passes(s, m) then Over
        else if late then Late(amount) else Confirming(if deposit then PartiallyPaid else Paid);
      s.(flights := s.flights + [phase])
    case CompareAndSet(i) =>
      if i >= |s.flights| || !s.flights[i].Confirming? then s
      else if !Wins(s, m) then s.(flights := s.flights[i := Over])
      else s.(payment := s.payment.(status := s.flights[i].status), flights := s.flights[i := Won])
    case Debit(i, ledgerOk) =>
      if i >= |s.flights| || !s.flights[i].Won? then s
      else s.(wallets := Debited(s, ledgerOk), flights := s.flights[i := Over])
    case SaveRefund(i) =>
      if i >= |s.flights| || !s.flights[i].Late? then s
      else
        var amount := s.flights[i].amount;
        s.(payment := s.payment.(amount := amount, status := Refunded, refundedAmount := amount), flights := s.flights[i := Saved(amount)])
    case Credit(i, ledgerOk) =>
      if i >= |s.flights| || !s.flights[i].Saved? then s
      else
        s.(wallets := Wallet.Deposited(s.wallets, s.payment.user, s.flights[i].amount, Wallet.BookingRefund, ledgerOk).0,
           flights := s.flights[i := Over])
  }

  function RaceAfter(s: Race, moves: seq<Move>): Race {
    if |moves| == 0 then s else Raced(RaceAfter(s, moves[..|moves| - 1]), moves[|moves| - 1])
  }

  /** A payment nobody has called back about yet. */
  predicate Starts(s: Race) {
    s.payment.status.Unpaid? && s.payment.amount > 0 && s.flights == []
  }

  predicate Finished(s: Race) {
    forall i :: 0 <= i < |s.flights| ==> s.flights[i].Over?
  }

  // ----- nobody late -----

  predicate OnTime(m: Move) {
    m.Look? ==> !m.late
  }

  /** At most one callback has won; until one has, and while it has not debited yet, the ledger is as it was. */
  predicate OneWinner(start: Race, s: Race) {
    && s.payment == start.payment.(status := s.payment.status)
    && (Fulfilled(s.payment.status) || s.payment.status.Unpaid?)
    && (forall i :: 0 <= i < |s.flights| ==> !s.flights[i].Late? && !s.flights[i].Saved?)
    && (forall i :: 0 <= i < |s.flights| && s.flights[i].Confirming? ==> Fulfilled(s.flights[i].status))
    && (forall i, j :: 0 <= i < j < |s.flights| ==> !(s.flights[i].Won? && s.flights[j].Won?))
    && (forall i :: 0 <= i < |s.flights| && s.flights[i].Won? ==> Fulfilled(s.payment.status) && s.wallets == start.wallets)
    && (!Fulfilled(s.payment.status) ==> s.wallets == start.wallets)
    && (s.wallets == start.wallets || s.wallets == Debited(start, true) || s.wallets == Debited(start, false))
  }

  lemma RacedKeepsOneWinner(start: Race, s: Race, m: Move)
    requires OneWinner(start, s) && OnTime(m)
    ensures OneWinner(start, Raced(s, m))
  {
  }

  /**
   The compare-and-set: however many success callbacks interleave, as long as none of them finds the group gone,
   one at most wins, and the wallet is debited at most once, by the wallet part, whatever wallet call fails.
   */
  lemma {:induction false} CompareAndSetWinsOnce(start: Race, moves: seq<Move>)
    requires start.payment.status.Unpaid? && start.flights == []
    requires forall k :: 0 <= k < |moves| ==> OnTime(moves[k])
    ensures OneWinner(start, RaceAfter(start, moves))
  {
    if |moves| > 0 {
      var n := |moves| - 1;
      CompareAndSetWinsOnce(start, moves[..n]);
      RacedKeepsOneWinner(start, RaceAfter(start, moves[..n]), moves[n]);
    }
  }

  lemma AloneOnTime(db: Db, cb: Callback, found: seq<BookingId>, faults: CallbackFaults)
    requires cb.reference in db.payments && |found| > 0
    requires !db.payments[cb.reference].status.Paid? && !db.payments[cb.reference].status.Refunded?
    ensures var s := Race(db.payments[cb.reference], db.wallets, []);
            var deposit := IsDeposit(s.payment, cb, GroupTotalPrice(db.bookings, found));
            var end := Raced(Raced(Raced(s, Look(false, deposit, cb.amountCents)), CompareAndSet(0)), Debit(0, faults.debitLedgerOk));
            && end.wallets == OnTimeSuccess(db, cb, found, faults).0.wallets
            && end.payment.status == OnTimeSuccess(db, cb, found, faults).0.payments[cb.reference].status
  {
    var s := Race(db.payments[cb.reference], db.wallets, []);
    var deposit := IsDeposit(s.payment, cb, GroupTotalPrice(db.bookings, found));
    assert Raced(s, Look(false, deposit, cb.amountCents)).flights
           == [Confirming(SettledStatus(s.payment, cb, GroupTotalPrice(db.bookings, found)))];
  }

  lemma AloneLate(db: Db, cb: Callback, found: seq<BookingId>, faults: CallbackFaults, deposit: bool)
    requires cb.reference in db.payments
    requires !db.payments[cb.reference].status.Paid? && !db.payments[cb.reference].status.Refunded?
    ensures var s := Race(db.payments[cb.reference], db.wallets, []);
            var end := Raced(Raced(Raced(s, Look(true, deposit, cb.amountCents)), SaveRefund(0)), Credit(0, faults.creditLedgerOk));
            && end.wallets == LateSuccess(db, cb, found, faults).0.wallets
            && end.payment == LateSuccess(db, cb, found, faults).0.payments[cb.reference]
  {
    var s := Race(db.payments[cb.reference], db.wallets, []);
    assert Raced(s, Look(true, deposit, cb.amountCents)).flights == [Late(EffectiveCardPaid(s.payment, cb))];
  }

  /** A callback whose calls nothing interleaves with does to the payment and the wallet what Webhook says. */
  lemma AloneIsWebhook(db: Db, cb: Callback, found: seq<BookingId>, faults: CallbackFaults)
    requires cb.reference in db.payments && |found| > 0
    requires !db.payments[cb.reference].status.Paid? && !db.payments[cb.reference].status.Refunded?
    ensures var s := Race(db.payments[cb.reference], db.wallets, []);
            var deposit := IsDeposit(s.payment, cb, GroupTotalPrice(db.bookings, found));
            var onTime := Raced(Raced(Raced(s, Look(false, deposit, cb.amountCents)), CompareAndSet(0)), Debit(0, faults.debitLedgerOk));
            var late := Raced(Raced(Raced(s, Look(true, deposit, cb.amountCents)), SaveRefund(0)), Credit(0, faults.creditLedgerOk));
            && onTime.wallets == OnTimeSuccess(db, cb, found, faults).0.wallets
            && onTime.payment.status == OnTimeSuccess(db, cb, found, faults).0.payments[cb.reference].status
            && late.wallets == LateSuccess(db, cb, found, faults).0.wallets
            && late.payment == LateSuccess(db, cb, found, faults).0.payments[cb.reference]
  {
    AloneOnTime(db, cb, found, faults);
    AloneLate(db, cb, found, faults, IsDeposit(db.payments[cb.reference], cb, GroupTotalPrice(db.bookings, found)));
  }

  // ----- exactly when the money moves once -----

  /** How many callbacks got past the status check and found the group gone, and how many did and found it there. */
  function LatePassed(start: Race, moves: seq<Move>): nat {
    if |moves| == 0 then 0
    else
      var n := |moves| - 1;
      LatePassed(start, moves[..n]) + if Passes(RaceAfter(start, moves[..n]), moves[n]) && moves[n].late then 1 else 0
  }

  function OnTimePassed(start: Race, moves: seq<Move>): nat {
    if |moves| == 0 then 0
    else
      var n := |moves| - 1;
      OnTimePassed(start, moves[..n]) + if Passes(RaceAfter(start, moves[..n]), moves[n]) && !moves[n].late then 1 else 0
  }

  function WinCount(start: Race, moves: seq<Move>): nat {
    if |moves| == 0 then 0
    else
      var n := |moves| - 1;
      WinCount(start, moves[..n]) + if Wins(RaceAfter(start, moves[..n]), moves[n]) then 1 else 0
  }

  /** No wallet call fails: rows can be written, and a debit finds its amount. */
  predicate Works(s: Race, m: Move) {
    && (m.Debit? && m.i < |s.flights| && s.flights[m.i].Won? ==>
          m.ledgerOk && Wallet.Balance(s.wallets, s.payment.user) >= s.payment.walletDeduction)
    && (m.Credit? ==> m.ledgerOk)
  }

  predicate AllWork(start: Race, moves: seq<Move>) {
    forall k :: 0 <= k < |moves| ==> Works(RaceAfter(start, moves[..k]), moves[k])
  }

  /** What a callback in flight has still to do: a credit, a debit, its compare-and-set. */
  datatype Task = OwesCredit | OwesDebit | OwesSet

  function Weight(p: Phase, task: Task): nat {
    match task
    case OwesCredit => if p.Late? || p.Saved? then 1 else 0
    case OwesDebit => if p.Won? then 1 else 0
    case OwesSet => if p.Confirming? then 1 else 0
  }

  function Weights(flights: seq<Phase>, task: Task): (w: seq<int>)
    ensures |w| == |flights| && forall i :: 0 <= i < |w| ==> w[i] >= 0
  {
    seq(|flights|, i requires 0 <= i < |flights| => Weight(flights[i], task))
  }

  function Tally(flights: seq<Phase>, task: Task): int {
    Sum(Weights(flights, task))
  }

  lemma TallyUpdate(flights: seq<Phase>, i: nat, p: Phase, task: Task)
    requires i < |flights|
    ensures Tally(flights[i := p], task) == Tally(flights, task) - Weight(flights[i], task) + Weight(p, task)
  {
    assert Weights(flights[i := p], task) == Weights(flights, task)[i := Weight(p, task)];
    SumUpdate(Weights(flights, task), i, Weight(p, task));
  }

  lemma TallyAppend(flights: seq<Phase>, p: Phase, task: Task)
    ensures Tally(flights + [p], task) == Tally(flights, task) + Weight(p, task)
  {
    assert Weights(flights + [p], task) == Weights(flights, task) + [Weight(p, task) as int];
    SumSnoc(Weights(flights, task), Weight(p, task));
  }

  lemma TallyMember(flights: seq<Phase>, i: nat, task: Task)
    requires i < |flights|
    ensures Weight(flights[i], task) <= Tally(flights, task)
  {
    SumMember(Weights(flights, task), i);
  }

  lemma {:induction false} NothingOwed(flights: seq<Phase>, task: Task)
    requires forall i :: 0 <= i < |flights| ==> flights[i].Over?
    ensures Tally(flights, task) == 0
  {
    if |flights| > 0 {
      var n := |flights| - 1;
      NothingOwed(flights[..n], task);
      TallyAppend(flights[..n], flights[n], task);
      assert flights == flights[..n] + [flights[n]];
    }
  }

  /** Where a race stands: what has been written is what was to be written less what is still owed. */
  predicate Accounted(start: Race, s: Race, late: nat, onTime: nat, wins: nat) {
    var deducts := start.payment.walletDeduction > 0;
    && s.payment.walletDeduction == start.payment.walletDeduction && s.payment.user == start.payment.user && s.payment.amount > 0
    && (forall i :: 0 <= i < |s.flights| && (s.flights[i].Late? || s.flights[i].Saved?) ==> s.flights[i].amount > 0)
    && (forall i :: 0 <= i < |s.flights| && s.flights[i].Confirming? ==> Fulfilled(s.flights[i].status))
    && |s.wallets.ledger| == |start.wallets.ledger| + late - Tally(s.flights, OwesCredit)
                             + (if deducts then wins - Tally(s.flights, OwesDebit) else 0)
    && wins <= onTime - Tally(s.flights, OwesSet)
    && (wins == 0 ==> onTime == Tally(s.flights, OwesSet) && !Fulfilled(s.payment.status))
    && (late == 0 ==> wins <= 1 && (wins == 1 ==> Fulfilled(s.payment.status)) && Tally(s.flights, OwesCredit) == 0)
  }

  lemma TalliesUpdate(flights: seq<Phase>, i: nat, p: Phase)
    requires i < |flights|
    ensures forall task :: Tally(flights[i := p], task) == Tally(flights, task) - Weight(flights[i], task) + Weight(p, task)
  {
    forall task ensures Tally(flights[i := p], task) == Tally(flights, task) - Weight(flights[i], task) + Weight(p, task) {
      TallyUpdate(flights, i, p, task);
    }
  }

  lemma LookAccounted(start: Race, s: Race, m: Move, late: nat, onTime: nat, wins: nat)
    requires Accounted(start, s, late, onTime, wins) && m.Look?
    ensures Accounted(start, Raced(s, m), late + if Passes(s, m) && m.late then 1 else 0,
                      onTime + if Passes(s, m) && !m.late then 1 else 0, wins)
  {
    var p := Raced(s, m).flights[|s.flights|];
    TallyAppend(s.flights, p, OwesCredit);
    TallyAppend(s.flights, p, OwesDebit);
    TallyAppend(s.flights, p, OwesSet);
  }

  lemma SetAccounted(start: Race, s: Race, i: nat, late: nat, onTime: nat, wins: nat)
    requires Accounted(start, s, late, onTime, wins) && i < |s.flights| && s.flights[i].Confirming?
    ensures Accounted(start, Raced(s, CompareAndSet(i)), late, onTime, wins + if Wins(s, CompareAndSet(i)) then 1 else 0)
  {
    TalliesUpdate(s.flights, i, Raced(s, CompareAndSet(i)).flights[i]);
    TallyMember(s.flights, i, OwesSet);
  }

  lemma DebitAccounted(start: Race, s: Race, i: nat, late: nat, onTime: nat, wins: nat)
    requires Accounted(start, s, late, onTime, wins) && i < |s.flights| && s.flights[i].Won?
    requires Wallet.Balance(s.wallets, s.payment.user) >= s.payment.walletDeduction
    ensures Accounted(start, Raced(s, Debit(i, true)), late, onTime, wins)
  {
    TalliesUpdate(s.flights, i, Over);
  }

  lemma SaveAccounted(start: Race, s: Race, i: nat, late: nat, onTime: nat, wins: nat)
    requires Accounted(start, s, late, onTime, wins) && i < |s.flights| && s.flights[i].Late?
    ensures Accounted(start, Raced(s, SaveRefund(i)), late, onTime, wins)
  {
    TalliesUpdate(s.flights, i, Saved(s.flights[i].amount));
    TallyMember(s.flights, i, OwesCredit);
  }

  lemma CreditAccounted(start: Race, s: Race, i: nat, late: nat, onTime: nat, wins: nat)
    requires Accounted(start, s, late, onTime, wins) && i < |s.flights| && s.flights[i].Saved?
    ensures Accounted(start, Raced(s, Credit(i, true)), late, onTime, wins)
  {
    TalliesUpdate(s.flights, i, Over);
    TallyMember(s.flights, i, OwesCredit);
  }

  lemma CallAccounted(start: Race, s: Race, m: Move, late: nat, onTime: nat, wins: nat)
    requires Accounted(start, s, late, onTime, wins) && Works(s, m) && !m.Look?
    ensures Accounted(start, Raced(s, m), late, onTime, wins + if Wins(s, m) then 1 else 0)
  {
    if m.i < |s.flights| {
      match s.flights[m.i]
      case Confirming(_) => if m.CompareAndSet? { SetAccounted(start, s, m.i, late, onTime, wins); }
      case Won => if m.Debit? { DebitAccounted(start, s, m.i, late, onTime, wins); }
      case Late(_) => if m.SaveRefund? { SaveAccounted(start, s, m.i, late, onTime, wins); }
      case Saved(_) => if m.Credit? { CreditAccounted(start, s, m.i, late, onTime, wins); }
      case Over =>
    }
  }

  lemma StepAccounted(start: Race, s: Race, m: Move, late: nat, onTime: nat, wins: nat)
    requires Accounted(start, s, late, onTime, wins) && Works(s, m)
    ensures Accounted(start, Raced(s, m), late + if Passes(s, m) && m.late then 1 else 0,
                      onTime + if Passes(s, m) && !m.late then 1 else 0, wins + if Wins(s, m) then 1 else 0)
  {
    if m.Look? {
      LookAccounted(start, s, m, late, onTime, wins);
    } else {
      CallAccounted(start, s, m, late, onTime, wins);
    }
  }

  lemma {:induction false} RaceAccounted(start: Race, moves: seq<Move>)
    requires Starts(start) && AllWork(start, moves)
    ensures Accounted(start, RaceAfter(start, moves), LatePassed(start, moves), OnTimePassed(start, moves), WinCount(start, moves))
  {
    if |moves| > 0 {
      var n := |moves| - 1;
      forall k | 0 <= k < n ensures Works(RaceAfter(start, moves[..n][..k]), moves[..n][k]) {
        assert moves[..n][..k] == moves[..k];
      }
      RaceAccounted(start, moves[..n]);
      StepAccounted(start, RaceAfter(start, moves[..n]), moves[n], LatePassed(start, moves[..n]), OnTimePassed(start, moves[..n]),
                    WinCount(start, moves[..n]));
    }
  }

  /** The callback credits the card amount. */
  predicate Credits(s: Race, m: Move) {
    m.Credit? && m.i < |s.flights| && s.flights[m.i].Saved?
  }

  function CreditCount(start: Race, moves: seq<Move>): nat {
    if |moves| == 0 then 0
    else
      var n := |moves| - 1;
      CreditCount(start, moves[..n]) + if Credits(RaceAfter(start, moves[..n]), moves[n]) then 1 else 0
  }

  lemma CreditsOwed(s: Race, m: Move)
    ensures Tally(Raced(s, m).flights, OwesCredit) + (if Credits(s, m) then 1 else 0)
            == Tally(s.flights, OwesCredit) + if Passes(s, m) && m.late then 1 else 0
  {
    var t := Raced(s, m);
    if m.Look? {
      TallyAppend(s.flights, t.flights[|s.flights|], OwesCredit);
    } else if m.i < |s.flights| && t.flights != s.flights {
      TallyUpdate(s.flights, m.i, t.flights[m.i], OwesCredit);
    }
  }

  /** Every late callback that got past the status check has credited, or still has to. */
  lemma {:induction false} EveryLateOneCredits(start: Race, moves: seq<Move>)
    requires Starts(start)
    ensures CreditCount(start, moves) + Tally(RaceAfter(start, moves).flights, OwesCredit) == LatePassed(start, moves)
  {
    if |moves| == 0 {
      NothingOwed([], OwesCredit);
    } else {
      var n := |moves| - 1;
      EveryLateOneCredits(start, moves[..n]);
      CreditsOwed(RaceAfter(start, moves[..n]), moves[n]);
    }
  }

  /**
   What a race from an unpaid payment comes to, whatever the schedule, if no wallet call fails: one credit for each
   callback past the status check that was late; the payment is fulfilled if any was on time, more than once only if
   some were late; and a ledger row for each credit and, if there is a wallet part, for each time it was fulfilled.
   */
  lemma RaceComesTo(start: Race, moves: seq<Move>)
    requires Starts(start) && AllWork(start, moves) && Finished(RaceAfter(start, moves))
    ensures CreditCount(start, moves) == LatePassed(start, moves)
    ensures WinCount(start, moves) > 0 <==> OnTimePassed(start, moves) > 0
    ensures LatePassed(start, moves) == 0 ==> WinCount(start, moves) <= 1
    ensures |RaceAfter(start, moves).wallets.ledger|
            == |start.wallets.ledger| + CreditCount(start, moves)
               + if start.payment.walletDeduction > 0 then WinCount(start, moves) else 0
  {
    RaceAccounted(start, moves);
    EveryLateOneCredits(start, moves);
    var flights := RaceAfter(start, moves).flights;
    NothingOwed(flights, OwesCredit);
    NothingOwed(flights, OwesDebit);
    NothingOwed(flights, OwesSet);
  }

  /** The customer keeps the group and gets the card amount back exactly if a late callback and one on time both got past. */
  lemma CreditedAndFulfilledIff(start: Race, moves: seq<Move>)
    requires Starts(start) && AllWork(start, moves) && Finished(RaceAfter(start, moves))
    ensures CreditCount(start, moves) > 0 && WinCount(start, moves) > 0
            <==> LatePassed(start, moves) > 0 && OnTimePassed(start, moves) > 0
  {
    RaceComesTo(start, moves);
  }

  /**
   Exactly once, exactly when: the payment has been fulfilled or credited once at most, in all, if and only if no
   callback that got past the status check was late, or one was and nobody else got past.
   */
  lemma SettledOnceIff(start: Race, moves: seq<Move>)
    requires Starts(start) && AllWork(start, moves) && Finished(RaceAfter(start, moves))
    ensures CreditCount(start, moves) + WinCount(start, moves) <= 1
            <==> LatePassed(start, moves) == 0 || (LatePassed(start, moves) == 1 && OnTimePassed(start, moves) == 0)
  {
    RaceComesTo(start, moves);
  }

  /** The wallet alone has been moved once at most in one case more: there is no wallet part to debit, and one was late. */
  lemma MovedOnceIff(start: Race, moves: seq<Move>)
    requires Starts(start) && AllWork(start, moves) && Finished(RaceAfter(start, moves))
    ensures |RaceAfter(start, moves).wallets.ledger| <= |start.wallets.ledger| + 1
            <==> LatePassed(start, moves) == 0
                 || (LatePassed(start, moves) == 1 && (OnTimePassed(start, moves) == 0 || start.payment.walletDeduction <= 0))
  {
    RaceComesTo(start, moves);
  }

  // ----- what goes wrong, from an unpaid payment -----

  lemma RaceSnoc(s: Race, moves: seq<Move>, m: Move)
    ensures RaceAfter(s, moves + [m]) == Raced(RaceAfter(s, moves), m)
  {
    assert (moves + [m])[..|moves|] == moves;
  }

  lemma RaceOfSix(s: Race, a: Move, b: Move, c: Move, d: Move, e: Move, f: Move)
    ensures RaceAfter(s, [a, b, c, d, e, f]) == Raced(Raced(Raced(Raced(Raced(Raced(s, a), b), c), d), e), f)
  {
    RaceSnoc(s, [], a);
    RaceSnoc(s, [a], b);
    RaceSnoc(s, [a, b], c);
    RaceSnoc(s, [a, b, c], d);
    RaceSnoc(s, [a, b, c, d], e);
    RaceSnoc(s, [a, b, c, d, e], f);
    assert [] + [a] == [a] && [a] + [b] == [a, b] && [a, b] + [c] == [a, b, c] && [a, b, c] + [d] == [a, b, c, d];
    assert [a, b, c, d] + [e] == [a, b, c, d, e] && [a, b, c, d, e] + [f] == [a, b, c, d, e, f];
  }

  /** Two callbacks that both find the group gone before either has saved both credit the wallet. */
  lemma TwoLateCallbacksBothCredit(start: Race, cents: nat)
    requires Starts(start) && cents > 0
    ensures var end := RaceAfter(start, [Look(true, false, cents), Look(true, false, cents), SaveRefund(0), SaveRefund(1),
                                         Credit(0, true), Credit(1, true)]);
            Finished(end)
            && Wallet.Balance(end.wallets, start.payment.user) == Wallet.Balance(start.wallets, start.payment.user) + 2 * cents
  {
    RaceOfSix(start, Look(true, false, cents), Look(true, false, cents), SaveRefund(0), SaveRefund(1), Credit(0, true), Credit(1, true));
    var s := Raced(Raced(start, Look(true, false, cents)), Look(true, false, cents));
    assert s.flights == [Late(cents), Late(cents)];
    assert Raced(Raced(s, SaveRefund(0)), SaveRefund(1)).flights == [Saved(cents), Saved(cents)];
  }

  /**
   The compare-and-set lets a refunded payment through: a callback that looked on time and one that looked late, and
   the card amount is credited and the payment fulfilled all the same.
   */
  lemma CreditedThenConfirmed(start: Race, cents: nat)
    requires Starts(start) && cents > 0
    ensures var end := RaceAfter(start, [Look(false, false, cents), Look(true, false, cents), SaveRefund(1), Credit(1, true),
                                         CompareAndSet(0), Debit(0, true)]);
            && Finished(end) && end.payment.status.Paid?
            && end.payment.refundedAmount == cents
  {
    RaceOfSix(start, Look(false, false, cents), Look(true, false, cents), SaveRefund(1), Credit(1, true), CompareAndSet(0), Debit(0, true));
    var s := Raced(Raced(start, Look(false, false, cents)), Look(true, false, cents));
    assert s.flights == [Confirming(Paid), Late(cents)];
    var t := Raced(Raced(s, SaveRefund(1)), Credit(1, true));
    assert t.flights == [Confirming(Paid), Over] && t.payment.status.Refunded?;
    assert Raced(t, CompareAndSet(0)).flights == [Won, Over];
  }

  lemma RaceOfNine(s: Race, a: Move, b: Move, c: Move, d: Move, e: Move, f: Move, g: Move, h: Move, i: Move)
    ensures RaceAfter(s, [a, b, c, d, e, f, g, h, i]) == Raced(Raced(Raced(RaceAfter(s, [a, b, c, d, e, f]), g), h), i)
  {
    RaceSnoc(s, [a, b, c, d, e, f], g);
    RaceSnoc(s, [a, b, c, d, e, f, g], h);
    RaceSnoc(s, [a, b, c, d, e, f, g, h], i);
    assert [a, b, c, d, e, f] + [g] == [a, b, c, d, e, f, g] && [a, b, c, d, e, f, g] + [h] == [a, b, c, d, e, f, g, h];
    assert [a, b, c, d, e, f, g, h] + [i] == [a, b, c, d, e, f, g, h, i];
  }

  /** Half way: one callback has won and debited, the late one has saved its refund, the third has still to set. */
  lemma HalfWay(start: Race, cents: nat)
    requires Starts(start) && cents > 0 && start.payment.walletDeduction > 0
    ensures var look, late := Look(false, false, cents), Look(true, false, cents);
            var half := RaceAfter(start, [look, look, late, CompareAndSet(0), Debit(0, true), SaveRefund(2)]);
            && half.flights == [Over, Confirming(Paid), Saved(cents)] && half.wallets == Debited(start, true)
            && half.payment == start.payment.(amount := cents, status := Refunded, refundedAmount := cents)
  {
    var look, late := Look(false, false, cents), Look(true, false, cents);
    RaceOfSix(start, look, look, late, CompareAndSet(0), Debit(0, true), SaveRefund(2));
    ThreeLooks(start, cents);
    WonThenSaved(Raced(Raced(Raced(start, look), look), late), cents);
  }

  lemma ThreeLooks(start: Race, cents: nat)
    requires Starts(start) && cents > 0
    ensures Raced(Raced(Raced(start, Look(false, false, cents)), Look(false, false, cents)), Look(true, false, cents))
            == start.(flights := [Confirming(Paid), Confirming(Paid), Late(cents)])
  {
    assert Raced(start, Look(false, false, cents)).flights == [Confirming(Paid)];
  }

  lemma WonThenSaved(s: Race, cents: nat)
    requires s.flights == [Confirming(Paid), Confirming(Paid), Late(cents)] && s.payment.status.Unpaid?
    ensures Raced(Raced(Raced(s, CompareAndSet(0)), Debit(0, true)), SaveRefund(2))
            == Race(s.payment.(amount := cents, status := Refunded, refundedAmount := cents), Debited(s, true),
                    [Over, Confirming(Paid), Saved(cents)])
  {
    var won := Raced(s, CompareAndSet(0));
    assert won.flights == [Won, Confirming(Paid), Late(cents)];
    assert Raced(won, Debit(0, true)).flights == [Over, Confirming(Paid), Late(cents)];
  }

  lemma SecondHalf(half: Race, cents: nat)
    requires half.flights == [Over, Confirming(Paid), Saved(cents)] && half.payment.status.Refunded? && cents > 0
    requires half.payment.walletDeduction > 0
    requires Wallet.Balance(half.wallets, half.payment.user) >= half.payment.walletDeduction
    ensures var end := Raced(Raced(Raced(half, Credit(2, true)), CompareAndSet(1)), Debit(1, true));
            && Finished(end) && |end.wallets.ledger| == |half.wallets.ledger| + 2
            && Wallet.Balance(end.wallets, half.payment.user)
               == Wallet.Balance(half.wallets, half.payment.user) + cents - half.payment.walletDeduction
  {
    var t := Raced(half, Credit(2, true));
    assert t.flights == [Over, Confirming(Paid), Over];
    var u := Raced(t, CompareAndSet(1));
    assert u.flights == [Over, Won, Over];
    assert Raced(u, Debit(1, true)).flights == [Over, Over, Over];
  }

  /** With two on time and one late among them the wallet part can be debited twice and the card amount credited as well. */
  lemma TwoDebitsAndACredit(start: Race, cents: nat)
    requires Starts(start) && cents > 0 && start.payment.walletDeduction > 0
    requires Wallet.Balance(start.wallets, start.payment.user) >= 2 * start.payment.walletDeduction
    ensures var look, late := Look(false, false, cents), Look(true, false, cents);
            var end := RaceAfter(start, [look, look, late, CompareAndSet(0), Debit(0, true), SaveRefund(2), Credit(2, true),
                                         CompareAndSet(1), Debit(1, true)]);
            && Finished(end) && |end.wallets.ledger| == |start.wallets.ledger| + 3
            && Wallet.Balance(end.wallets, start.payment.user)
               == Wallet.Balance(start.wallets, start.payment.user) - 2 * start.payment.walletDeduction + cents
  {
    var look, late := Look(false, false, cents), Look(true, false, cents);
    var half := RaceAfter(start, [look, look, late, CompareAndSet(0), Debit(0, true), SaveRefund(2)]);
    HalfWay(start, cents);
    SecondHalf(half, cents);
    RaceOfNine(start, look, look, late, CompareAndSet(0), Debit(0, true), SaveRefund(2), Credit(2, true), CompareAndSet(1),
               Debit(1, true));
  }
}
