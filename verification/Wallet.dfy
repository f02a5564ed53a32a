/**
 The wallet ledger. The first half is the state, one repository call at a time, and the interleaving of
 in-flight operations; the second half is the service class whose methods run one operation to its end.
 */
module Wallet {
  import opened Prelude
  import opened Money

  type UserId = nat

  datatype TransactionType = DepositTxn | Deduction | BookingPayment | BookingRefund {
    predicate Credits() { DepositTxn? || BookingRefund? }
  }

  datatype Entry = Entry(user: UserId, kind: TransactionType, amount: int, balanceBefore: int, balanceAfter: int)

  datatype WalletError = InvalidAmount | InsufficientBalance | LedgerWriteFailed

  datatype State = State(balances: map<UserId, int>, ledger: seq<Entry>)

  function Signed(kind: TransactionType, amount: int): int {
    if kind.Credits() then amount else -amount
  }

  /** A user without a wallet document has nothing in it. */
  function Balance(w: State, u: UserId): int {
    if u in w.balances then w.balances[u] else 0
  }

  function LedgerSum(ledger: seq<Entry>, u: UserId): int {
    if |ledger| == 0 then 0
    else
      var e := ledger[|ledger| - 1];
      LedgerSum(ledger[..|ledger| - 1], u) + if e.user == u then Signed(e.kind, e.amount) else 0
  }

  // ----- repository calls -----

  function Upserted(w: State, u: UserId): State {
    if u in w.balances then w else w.(balances := w.balances[u := 0])
  }

  function Incremented(w: State, u: UserId, delta: int): State {
    w.(balances := w.balances[u := Balance(w, u) + delta])
  }

  function Appended(w: State, e: Entry): State {
    w.(ledger := w.ledger + [e])
  }

  // ----- interleaved operations -----

  /** Where an operation stands between two repository calls. */
  datatype Phase = Started | Applied | LedgerFailed | Logged | Compensated | Rejected

  datatype Op = Op(user: UserId, kind: TransactionType, amount: int, before: int, after: int, phase: Phase)

  datatype Sys = Sys(wallets: State, ops: seq<Op>)

  datatype Step =
    | Begin(user: UserId, kind: TransactionType, amount: int)
    | Apply(i: nat)
    | WriteLedger(i: nat, ok: bool)
    | Compensate(i: nat)

  /** One repository call of one operation; a step that operation i is not ready for changes nothing. */
  function Next(s: Sys, step: Step): Sys {
    match step
    case Begin(u, kind, amount) =>
      if kind.Credits() && amount <= 0 then
        s.(ops := s.ops + [Op(u, kind, amount, 0, 0, Rejected)])
      else
        var w := Upserted(s.wallets, u);
        var phase := if !kind.Credits() && Balance(w, u) < amount then Rejected else Started;
        Sys(w, s.ops + [Op(u, kind, amount, Balance(w, u), 0, phase)])
    case Apply(i) =>
      if i >= |s.ops| || !s.ops[i].phase.Started? then s
      else
        var op := s.ops[i];
        if !op.kind.Credits() && Balance(s.wallets, op.user) < op.amount then
          s.(ops := s.ops[i := op.(phase := Rejected)])
        else
          var w := Incremented(s.wallets, op.user, Signed(op.kind, op.amount));
          Sys(w, s.ops[i := op.(phase := Applied, after := Balance(w, op.user))])
    case WriteLedger(i, ok) =>
      if i >= |s.ops| || !s.ops[i].phase.Applied? then s
      else if ok then
        var op := s.ops[i];
        Sys(Appended(s.wallets, Entry(op.user, op.kind, op.amount, op.before, op.after)),
            s.ops[i := op.(phase := Logged)])
      else s.(ops := s.ops[i := s.ops[i].(phase := LedgerFailed)])
    case Compensate(i) =>
      if i >= |s.ops| || !s.ops[i].phase.LedgerFailed? then s
      else
        var op := s.ops[i];
        Sys(Incremented(s.wallets, op.user, -Signed(op.kind, op.amount)),
            s.ops[i := op.(phase := Compensated)])
  }

  function Run(s: Sys, steps: seq<Step>): Sys {
    if |steps| == 0 then s else Next(Run(s, steps[..|steps| - 1]), steps[|steps| - 1])
  }

  /** What an operation has added to the balance of u without a ledger row to show for it. */
  function UnloggedDelta(op: Op, u: UserId): int {
    if op.user == u && (op.phase.Applied? || op.phase.LedgerFailed?) then Signed(op.kind, op.amount) else 0
  }

  function UnloggedDeltas(ops: seq<Op>, u: UserId): (s: seq<int>)
    ensures |s| == |ops|
  {
    seq(|ops|, i requires 0 <= i < |ops| => UnloggedDelta(ops[i], u))
  }

  function Unlogged(ops: seq<Op>, u: UserId): int {
    Sum(UnloggedDeltas(ops, u))
  }

  /** Money is conserved: every balance is its ledger plus what is in flight. */
  ghost predicate Conserved(s: Sys) {
    forall u: UserId :: Balance(s.wallets, u) == LedgerSum(s.wallets.ledger, u) + Unlogged(s.ops, u)
  }

  /** No operation is between its balance update and its ledger row or compensation. */
  predicate Quiescent(s: Sys) {
    forall i :: 0 <= i < |s.ops| ==> !s.ops[i].phase.Applied? && !s.ops[i].phase.LedgerFailed?
  }

  lemma UnloggedUpdate(ops: seq<Op>, i: nat, op: Op, u: UserId)
    requires i < |ops|
    ensures Unlogged(ops[i := op], u) == Unlogged(ops, u) - UnloggedDelta(ops[i], u) + UnloggedDelta(op, u)
  {
    assert UnloggedDeltas(ops[i := op], u) == UnloggedDeltas(ops, u)[i := UnloggedDelta(op, u)];
    SumUpdate(UnloggedDeltas(ops, u), i, UnloggedDelta(op, u));
  }

  lemma UnloggedAppend(ops: seq<Op>, op: Op, u: UserId)
    ensures Unlogged(ops + [op], u) == Unlogged(ops, u) + UnloggedDelta(op, u)
  {
    assert UnloggedDeltas(ops + [op], u) == UnloggedDeltas(ops, u) + [UnloggedDelta(op, u)];
    SumSnoc(UnloggedDeltas(ops, u), UnloggedDelta(op, u));
  }

  lemma LedgerSumAppend(ledger: seq<Entry>, e: Entry, u: UserId)
    ensures LedgerSum(ledger + [e], u)
            == LedgerSum(ledger, u) + if e.user == u then Signed(e.kind, e.amount) else 0
  {
  }

  lemma NextConserves(s: Sys, step: Step)
    requires Conserved(s)
    ensures Conserved(Next(s, step))
  {
    forall u: UserId
      ensures var t := Next(s, step); Balance(t.wallets, u) == LedgerSum(t.wallets.ledger, u) + Unlogged(t.ops, u)
    {
      NextConservesFor(s, step, u);
    }
  }

  lemma NextConservesFor(s: Sys, step: Step, u: UserId)
    requires Balance(s.wallets, u) == LedgerSum(s.wallets.ledger, u) + Unlogged(s.ops, u)
    ensures var t := Next(s, step); Balance(t.wallets, u) == LedgerSum(t.wallets.ledger, u) + Unlogged(t.ops, u)
  {
    match step
    case Begin(_, _, _) => UnloggedAppend(s.ops, Next(s, step).ops[|s.ops|], u);
    case Apply(i) => ApplyConservesFor(s, i, u);
    case WriteLedger(i, ok) => WriteConservesFor(s, i, ok, u);
    case Compensate(i) => CompensateConservesFor(s, i, u);
  }

  lemma ApplyConservesFor(s: Sys, i: nat, u: UserId)
    requires Balance(s.wallets, u) == LedgerSum(s.wallets.ledger, u) + Unlogged(s.ops, u)
    ensures var t := Next(s, Apply(i)); Balance(t.wallets, u) == LedgerSum(t.wallets.ledger, u) + Unlogged(t.ops, u)
  {
    var t := Next(s, Apply(i));
    if t != s {
      UnloggedUpdate(s.ops, i, t.ops[i], u);
    }
  }

  lemma CompensateConservesFor(s: Sys, i: nat, u: UserId)
    requires Balance(s.wallets, u) == LedgerSum(s.wallets.ledger, u) + Unlogged(s.ops, u)
    ensures var t := Next(s, Compensate(i)); Balance(t.wallets, u) == LedgerSum(t.wallets.ledger, u) + Unlogged(t.ops, u)
  {
    var t := Next(s, Compensate(i));
    if t != s {
      UnloggedUpdate(s.ops, i, t.ops[i], u);
    }
  }

  lemma WriteConservesFor(s: Sys, i: nat, ok: bool, u: UserId)
    requires Balance(s.wallets, u) == LedgerSum(s.wallets.ledger, u) + Unlogged(s.ops, u)
    ensures var t := Next(s, WriteLedger(i, ok)); Balance(t.wallets, u) == LedgerSum(t.wallets.ledger, u) + Unlogged(t.ops, u)
  {
    var t := Next(s, WriteLedger(i, ok));
    if t != s {
      UnloggedUpdate(s.ops, i, t.ops[i], u);
      if ok {
        LedgerSumAppend(s.wallets.ledger, t.wallets.ledger[|s.wallets.ledger|], u);
      }
    }
  }

  lemma {:induction false} QuiescentUnlogged(ops: seq<Op>, u: UserId)
    requires forall i :: 0 <= i < |ops| ==> !ops[i].phase.Applied? && !ops[i].phase.LedgerFailed?
    ensures Unlogged(ops, u) == 0
  {
    if |ops| > 0 {
      var n := |ops| - 1;
      QuiescentUnlogged(ops[..n], u);
      assert ops == ops[..n] + [ops[n]];
      UnloggedAppend(ops[..n], ops[n], u);
    }
  }

  /** Conservation under every interleaving of any number of operations, failed ledger writes included. */
  lemma {:induction false} WalletConservation(s: Sys, steps: seq<Step>)
    requires Conserved(s)
    ensures Conserved(Run(s, steps))
    ensures Quiescent(Run(s, steps)) ==>
              forall u: UserId :: Balance(Run(s, steps).wallets, u) == LedgerSum(Run(s, steps).wallets.ledger, u)
  {
    if |steps| > 0 {
      WalletConservation(s, steps[..|steps| - 1]);
      NextConserves(Run(s, steps[..|steps| - 1]), steps[|steps| - 1]);
    }
    if Quiescent(Run(s, steps)) {
      forall u: UserId
        ensures Balance(Run(s, steps).wallets, u) == LedgerSum(Run(s, steps).wallets.ledger, u)
      {
        QuiescentUnlogged(Run(s, steps).ops, u);
      }
    }
  }

  /** The ledger write this step fails, if any, is not that of an operation that raised the balance. */
  predicate NoCreditUndone(s: Sys, step: Step) {
    step.WriteLedger? && !step.ok && step.i < |s.ops| && s.ops[step.i].phase.Applied?
    ==> Signed(s.ops[step.i].kind, s.ops[step.i].amount) <= 0
  }

  predicate NonNegative(s: Sys) {
    && (forall u :: u in s.wallets.balances ==> s.wallets.balances[u] >= 0)
    && (forall i :: 0 <= i < |s.ops| && s.ops[i].phase.LedgerFailed? ==> Signed(s.ops[i].kind, s.ops[i].amount) <= 0)
    && (forall i :: 0 <= i < |s.ops| && s.ops[i].kind.Credits() && s.ops[i].phase.Started? ==> s.ops[i].amount > 0)
  }

  lemma NextNonNegative(s: Sys, step: Step)
    requires NonNegative(s) && NoCreditUndone(s, step)
    ensures NonNegative(Next(s, step))
  {
  }

  /** The conditional decrement keeps every balance at zero or above while no credit has to be undone. */
  lemma {:induction false} BalancesNeverNegative(s: Sys, steps: seq<Step>)
    requires NonNegative(s)
    requires forall k :: 0 <= k < |steps| ==> NoCreditUndone(Run(s, steps[..k]), steps[k])
    ensures NonNegative(Run(s, steps))
  {
    if |steps| > 0 {
      var n := |steps| - 1;
      forall k | 0 <= k < n ensures NoCreditUndone(Run(s, steps[..n][..k]), steps[..n][k]) {
        assert steps[..n][..k] == steps[..k];
      }
      BalancesNeverNegative(s, steps[..n]);
      NextNonNegative(Run(s, steps[..n]), steps[n]);
    }
  }

  lemma RunSnoc(s: Sys, steps: seq<Step>, step: Step)
    ensures Run(s, steps + [step]) == Next(Run(s, steps), step)
  {
  }

  /**
   The hypothesis is needed: a deposit whose ledger write fails after its money has been spent takes the
   balance below zero when it is compensated.
   */
  lemma UndoneCreditGoesNegative()
    ensures var s0 := Sys(State(map[], []), []);
            var steps := [Begin(1, DepositTxn, 100), Apply(0), Begin(1, Deduction, 100), Apply(1), WriteLedger(1, true),
                          WriteLedger(0, false), Compensate(0)];
            NonNegative(s0) && Balance(Run(s0, steps).wallets, 1) == -100
  {
    var s0 := Sys(State(map[], []), []);
    var r1 := [Begin(1, DepositTxn, 100), Apply(0)];
    var r2 := r1 + [Begin(1, Deduction, 100)];
    var r3 := r2 + [Apply(1)];
    var r4 := r3 + [WriteLedger(1, true)];
    var r5 := r4 + [WriteLedger(0, false)];
    RunSnoc(s0, [], Begin(1, DepositTxn, 100));
    RunSnoc(s0, [Begin(1, DepositTxn, 100)], Apply(0));
    assert [] + [Begin(1, DepositTxn, 100)] == [Begin(1, DepositTxn, 100)];
    assert [Begin(1, DepositTxn, 100)] + [Apply(0)] == r1;
    RunSnoc(s0, r1, Begin(1, Deduction, 100));
    RunSnoc(s0, r2, Apply(1));
    RunSnoc(s0, r3, WriteLedger(1, true));
    RunSnoc(s0, r4, WriteLedger(0, false));
    RunSnoc(s0, r5, Compensate(0));
    assert Run(s0, r3).ops[1].phase.Applied? && Run(s0, r3).ops[0].phase.Applied?;
    assert Balance(Run(s0, r5).wallets, 1) == 0;
    assert r5 + [Compensate(0)] == [Begin(1, DepositTxn, 100), Apply(0), Begin(1, Deduction, 100), Apply(1),
                                    WriteLedger(1, true), WriteLedger(0, false), Compensate(0)];
  }

  /** Undoing an operation leaves its user's balance at zero or above exactly when what it credited is still there. */
  lemma UndoingStaysNonNegative(s: Sys, i: nat)
    requires NonNegativeBalances(s.wallets) && i < |s.ops| && s.ops[i].phase.LedgerFailed?
    ensures NonNegativeBalances(Next(s, Compensate(i)).wallets)
            <==> Signed(s.ops[i].kind, s.ops[i].amount) <= Balance(s.wallets, s.ops[i].user)
  {
    var op, t := s.ops[i], Next(s, Compensate(i)).wallets;
    assert op.user in t.balances && t.balances[op.user] == Balance(s.wallets, op.user) - Signed(op.kind, op.amount);
  }

  predicate NonNegativeBalances(w: State) {
    forall u :: u in w.balances ==> w.balances[u] >= 0
  }

  // ----- one operation run to its end -----

  /** deposit: `ledgerOk` is whether the transaction row can be written. */
  function Deposited(w: State, u: UserId, amount: int, kind: TransactionType, ledgerOk: bool)
    : (State, Result<int, WalletError>)
  {
    if amount <= 0 then (w, Err(InvalidAmount))
    else if !ledgerOk then (Upserted(w, u), Err(LedgerWriteFailed))
    else
      var b := Balance(w, u);
      (State(w.balances[u := b + amount], w.ledger + [Entry(u, kind, amount, b, b + amount)]), Ok(b + amount))
  }

  /** processDeduction: the amount is not checked for its sign. */
  function Deducted(w: State, u: UserId, amount: int, kind: TransactionType, ledgerOk: bool)
    : (State, Result<int, WalletError>)
  {
    var b := Balance(w, u);
    if b < amount then (Upserted(w, u), Err(InsufficientBalance))
    else if !ledgerOk then (Upserted(w, u), Err(LedgerWriteFailed))
    else (State(w.balances[u := b - amount], w.ledger + [Entry(u, kind, amount, b, b - amount)]), Ok(b - amount))
  }

  ghost predicate SameForOthers(w: State, after: State, u: UserId) {
    forall v: UserId :: v != u ==> Balance(after, v) == Balance(w, v)
  }

  /** A deposit is refused unless it is of something; otherwise the wallet is up by it and a row says so, or nothing has changed. */
  lemma DepositAnswered(w: State, u: UserId, amount: int, kind: TransactionType, ledgerOk: bool)
    ensures var (after, r) := Deposited(w, u, amount, kind, ledgerOk);
            && SameForOthers(w, after, u)
            && if amount <= 0 then after == w && r == Err(InvalidAmount)
               else if !ledgerOk then Balance(after, u) == Balance(w, u) && after.ledger == w.ledger && r == Err(LedgerWriteFailed)
               else
                 && Balance(after, u) == Balance(w, u) + amount && r == Ok(Balance(after, u))
                 && after.ledger == w.ledger + [Entry(u, kind, amount, Balance(w, u), Balance(after, u))]
  {
  }

  /** A deduction is refused if the wallet holds less; otherwise the wallet is down by it and a row says so, or nothing has changed. */
  lemma DeductionAnswered(w: State, u: UserId, amount: int, kind: TransactionType, ledgerOk: bool)
    ensures var (after, r) := Deducted(w, u, amount, kind, ledgerOk);
            && SameForOthers(w, after, u)
            && if Balance(w, u) < amount then Balance(after, u) == Balance(w, u) && after.ledger == w.ledger && r == Err(InsufficientBalance)
               else if !ledgerOk then Balance(after, u) == Balance(w, u) && after.ledger == w.ledger && r == Err(LedgerWriteFailed)
               else
                 && Balance(after, u) == Balance(w, u) - amount && r == Ok(Balance(after, u))
                 && after.ledger == w.ledger + [Entry(u, kind, amount, Balance(w, u), Balance(after, u))]
  {
  }

  function OneOperation(u: UserId, kind: TransactionType, amount: int, ledgerOk: bool): seq<Step> {
    [Begin(u, kind, amount), Apply(0), WriteLedger(0, ledgerOk), Compensate(0)]
  }

  lemma RunFour(s: Sys, a: Step, b: Step, c: Step, d: Step)
    ensures Run(s, [a, b, c, d]) == Next(Next(Next(Next(s, a), b), c), d)
  {
    RunSnoc(s, [], a);
    RunSnoc(s, [a], b);
    RunSnoc(s, [a, b], c);
    RunSnoc(s, [a, b, c], d);
    assert [] + [a] == [a] && [a] + [b] == [a, b] && [a, b] + [c] == [a, b, c] && [a, b, c] + [d] == [a, b, c, d];
  }

  lemma UpdatesCombine(m: map<UserId, int>, u: UserId, x: int, y: int)
    ensures m[u := x][u := y] == m[u := y]
    ensures u in m && m[u] == y ==> m[u := x][u := y] == m
  {
  }

  lemma StartedRunsOn(w: State, u: UserId, kind: TransactionType, amount: int, ledgerOk: bool)
    requires u in w.balances
    requires !kind.Credits() ==> w.balances[u] >= amount
    ensures var b := w.balances[u];
            var s := Sys(w, [Op(u, kind, amount, b, 0, Started)]);
            var after := b + Signed(kind, amount);
            Next(Next(Next(s, Apply(0)), WriteLedger(0, ledgerOk)), Compensate(0)).wallets
            == if ledgerOk then State(w.balances[u := after], w.ledger + [Entry(u, kind, amount, b, after)]) else w
  {
  }

  lemma RejectedStays(s: Sys, ledgerOk: bool)
    requires |s.ops| == 1 && s.ops[0].phase.Rejected?
    ensures Next(Next(Next(s, Apply(0)), WriteLedger(0, ledgerOk)), Compensate(0)) == s
  {
  }

  /** Running the repository calls of one operation without interleaving gives exactly these states. */
  lemma OperationIsRun(w: State, u: UserId, amount: int, kind: TransactionType, ledgerOk: bool)
    ensures Run(Sys(w, []), OneOperation(u, kind, amount, ledgerOk)).wallets
            == if kind.Credits() then Deposited(w, u, amount, kind, ledgerOk).0
               else Deducted(w, u, amount, kind, ledgerOk).0
  {
    var b, a, l, c := Begin(u, kind, amount), Apply(0), WriteLedger(0, ledgerOk), Compensate(0);
    RunFour(Sys(w, []), b, a, l, c);
    var s1 := Next(Sys(w, []), b);
    assert |s1.ops| == 1;
    if s1.ops[0].phase.Rejected? {
      RejectedStays(s1, ledgerOk);
    } else {
      var w1 := Upserted(w, u);
      assert s1 == Sys(w1, [Op(u, kind, amount, w1.balances[u], 0, Started)]);
      StartedRunsOn(w1, u, kind, amount, ledgerOk);
      UpdatesCombine(w.balances, u, 0, Balance(w, u) + Signed(kind, amount));
    }
  }

  ghost predicate AuditedRow(ledger: seq<Entry>, i: nat)
    requires i < |ledger|
  {
    && ledger[i].balanceBefore == LedgerSum(ledger[..i], ledger[i].user)
    && ledger[i].balanceAfter == LedgerSum(ledger[..i + 1], ledger[i].user)
  }

  /** Every row of the ledger states the user's balance before and after it, as the rows up to it add up. */
  ghost predicate Audited(w: State) {
    && (forall u: UserId :: Balance(w, u) == LedgerSum(w.ledger, u))
    && (forall i :: 0 <= i < |w.ledger| ==> AuditedRow(w.ledger, i))
  }

  lemma AppendAudited(w: State, e: Entry)
    requires Audited(w)
    requires e.balanceBefore == Balance(w, e.user) && e.balanceAfter == e.balanceBefore + Signed(e.kind, e.amount)
    ensures Audited(State(w.balances[e.user := e.balanceAfter], w.ledger + [e]))
  {
    var l := w.ledger + [e];
    var w' := State(w.balances[e.user := e.balanceAfter], l);
    LedgerSumAppend(w.ledger, e, e.user);
    forall u: UserId ensures Balance(w', u) == LedgerSum(l, u) {
      LedgerSumAppend(w.ledger, e, u);
      assert Balance(w, u) == LedgerSum(w.ledger, u);
    }
    forall i | 0 <= i < |l| ensures AuditedRow(l, i) {
      assert l[..i] == w.ledger[..i];
      if i < |w.ledger| {
        assert AuditedRow(w.ledger, i);
        assert l[..i + 1] == w.ledger[..i + 1];
      } else {
        assert l[..i + 1] == l && l[..i] == w.ledger;
      }
    }
  }

  lemma UpsertAudited(w: State, u: UserId)
    requires Audited(w)
    ensures Audited(Upserted(w, u))
  {
  }

  /** While operations do not interleave the ledger is a complete audit trail of every balance. */
  lemma OperationKeepsAudit(w: State, u: UserId, amount: int, kind: TransactionType, ledgerOk: bool)
    requires Audited(w)
    ensures kind.Credits() ==> Audited(Deposited(w, u, amount, kind, ledgerOk).0)
    ensures !kind.Credits() ==> Audited(Deducted(w, u, amount, kind, ledgerOk).0)
  {
    var b := Balance(w, u);
    AppendAudited(w, Entry(u, kind, amount, b, b + Signed(kind, amount)));
    UpsertAudited(w, u);
  }

  /** The service: each method is one operation, repository call by repository call. */
  class WalletService {
    var balances: map<UserId, int>
    var ledger: seq<Entry>

    constructor ()
      ensures View() == State(map[], [])
    {
      balances, ledger := map[], [];
    }

    function View(): State
      reads this
    {
      State(balances, ledger)
    }

    method GetOrCreateWallet(u: UserId) returns (balance: int)
      modifies this
      ensures View() == Upserted(old(View()), u)
      ensures balance == Balance(old(View()), u)
    {
      if u !in balances {
        balances := balances[u := 0];
      }
      balance := balances[u];
    }

    method Deposit(u: UserId, amount: int, kind: TransactionType, ledgerOk: bool)
      returns (r: Result<int, WalletError>)
      modifies this
      ensures (View(), r) == Deposited(old(View()), u, amount, kind, ledgerOk)
    {
      if amount <= 0 {
        return Err(InvalidAmount);
      }
      var balanceBefore := GetOrCreateWallet(u);
      ghost var created := balances;
      balances := balances[u := balances[u] + amount];
      if !ledgerOk {
        // The compensating update of a failed ledger write.
        balances := balances[u := balances[u] - amount];
        assert balances == created;
        return Err(LedgerWriteFailed);
      }
      ledger := ledger + [Entry(u, kind, amount, balanceBefore, balances[u])];
      assert balances == old(balances)[u := balanceBefore + amount];
      r := Ok(balances[u]);
    }

    method ProcessDeduction(u: UserId, amount: int, kind: TransactionType, ledgerOk: bool)
      returns (r: Result<int, WalletError>)
      modifies this
      ensures (View(), r) == Deducted(old(View()), u, amount, kind, ledgerOk)
    {
      var balanceBefore := GetOrCreateWallet(u);
      if balanceBefore < amount {
        return Err(InsufficientBalance);
      }
      ghost var created := balances;
      balances := balances[u := balances[u] - amount];
      if !ledgerOk {
        balances := balances[u := balances[u] + amount];
        assert balances == created;
        return Err(LedgerWriteFailed);
      }
      ledger := ledger + [Entry(u, kind, amount, balanceBefore, balances[u])];
      assert balances == old(balances)[u := balanceBefore - amount];
      r := Ok(balances[u]);
    }

    method PayForBooking(u: UserId, amount: int, ledgerOk: bool) returns (r: Result<int, WalletError>)
      modifies this
      ensures (View(), r) == Deducted(old(View()), u, amount, BookingPayment, ledgerOk)
    {
      r := ProcessDeduction(u, amount, BookingPayment, ledgerOk);
    }

    method RefundBooking(u: UserId, amount: int, ledgerOk: bool) returns (r: Result<int, WalletError>)
      modifies this
      ensures (View(), r) == Deposited(old(View()), u, amount, BookingRefund, ledgerOk)
    {
      r := Deposit(u, amount, BookingRefund, ledgerOk);
    }
  }
}
