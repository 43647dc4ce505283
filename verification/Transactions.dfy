/** The transaction repository's rules: the guards that run before an
    order's ledger changes, the shape of the transactions it creates, and
    cancel / uncancel / delete, each followed by a recompute of the order's
    stored balance. */
module Transactions {
  import opened Results
  import opened Ledger
  import opened Orders

  datatype TxError =
    | OrderProhibitsTransactionsWhenCancelled
    | OrderFullyPaid
    | OrderHasNoAmountOutstanding
    | AmountExceedsOutstanding
    | PercentageExceedsOutstanding
      /** Neither an amount nor a percentage was supplied: the source goes on
          to read a variable it never assigned. */
    | AmountOrPercentageRequired
      /** A payer mobile number was supplied but no user has it. */
    | PayerNotFound
      /** A valid `paid_by_user_id` was supplied: the source as written never
          assigns the payer (see `ResolvePayerAsWritten`). */
    | PayerUndefined
    | OrderProhibitsMultiplePendingPaymentByUser
    | TransactionCannotBeUnCancelled
    | CannotDeleteTransaction
      /** The transaction has no payment method: the source dereferences the
          missing method and fails before anything is deleted. */
    | PaymentMethodMissing
      /** A subscription transaction for an owner the source has no amount
          or description for. */
    | NothingToBill

  /** How the request says how much to pay. */
  datatype AmountInput = ByAmount(amount: nat) | ByPercentage(percentage: nat) | NoAmount

  /** How the request names the payer: a mobile number (with the user it
      matches, if any) or an optional `paid_by_user_id`. */
  datatype PayerInput = ByMobileNumber(matchedUser: Option<UserId>) | ByPaidByUserId(paidBy: Option<UserId>)

  /** A request to create an order transaction. `userVerified` is true for a
      payment recorded by a team member (cash, card machine, ...) and false
      for a payment requested from the payer and verified later. */
  datatype PaymentRequest = PaymentRequest(
    amount: AmountInput,
    payer: PayerInput,
    actingUser: UserId,
    userVerified: bool)

  // ---------------------------------------------------------------------
  // Amount and percentage of a new transaction
  // ---------------------------------------------------------------------

  /** The order state that the creation guards establish before the amount
      is resolved: stored totals are current and something is outstanding. */
  predicate PayableNow(o: Order) {
    Consistent(o) && o.balance.outstandingPercentage != 0
  }

  lemma PayableNowFacts(o: Order)
    requires PayableNow(o)
    ensures o.grandTotal > 0
    ensures o.balance.outstanding >= 0 ==> o.balance.outstandingPercentage >= 0
    ensures o.balance.outstandingPercentage > 0 ==> o.balance.outstanding > 0
  {
    PercentSign(o.balance.outstanding, o.grandTotal);
  }

  /** The amount and percentage the source derives from the request, with
      the source's own ceilings: an amount may not exceed the outstanding
      amount minus the pending amount, a percentage may not exceed the
      outstanding percentage minus the pending percentage. A request for
      exactly what is outstanding copies the order's other figure. Returns
      (amount, percentage). */
  function ResolveAmountAsWritten(o: Order, input: AmountInput): (r: Result<(nat, nat), TxError>)
    requires PayableNow(o)
    ensures input.NoAmount? ==> r == Failure(AmountOrPercentageRequired)
    ensures input.ByAmount? ==>
      (r.Failure? <==> input.amount > o.balance.outstanding - o.balance.pending) &&
      (r.Failure? ==> r.error == AmountExceedsOutstanding)
    ensures input.ByPercentage? ==>
      (r.Failure? <==> input.percentage > o.balance.outstandingPercentage - o.balance.pendingPercentage) &&
      (r.Failure? ==> r.error == PercentageExceedsOutstanding)
    ensures r.Success? && input.ByAmount? ==>
      var (amount, pct) := r.value;
      && amount == input.amount
      && (amount == o.balance.outstanding ==> pct == o.balance.outstandingPercentage)
      && (amount != o.balance.outstanding ==> pct * o.grandTotal <= amount * 100 < (pct + 1) * o.grandTotal)
    ensures r.Success? && input.ByPercentage? ==>
      var (amount, pct) := r.value;
      && pct == input.percentage
      && (pct == o.balance.outstandingPercentage ==> amount == o.balance.outstanding)
      && (pct != o.balance.outstandingPercentage ==> amount * 100 <= pct * o.grandTotal < (amount + 1) * 100)
  {
    match input
    case NoAmount => Failure(AmountOrPercentageRequired)
    case ByAmount(a) => ResolveByAmount(o, a)
    case ByPercentage(p) => ResolveByPercentage(o, p)
  }

  /** Amount mode of `ResolveAmountAsWritten`. */
  function ResolveByAmount(o: Order, a: nat): (r: Result<(nat, nat), TxError>)
    requires PayableNow(o)
    ensures r.Failure? <==> a > o.balance.outstanding - o.balance.pending
    ensures r.Failure? ==> r.error == AmountExceedsOutstanding
    ensures r.Success? ==>
      var (amount, pct) := r.value;
      && amount == a
      && (amount == o.balance.outstanding ==> pct == o.balance.outstandingPercentage)
      && (amount != o.balance.outstanding ==> pct * o.grandTotal <= amount * 100 < (pct + 1) * o.grandTotal)
  {
    PayableNowFacts(o);
    var b := o.balance;
    if a > b.outstanding - b.pending then Failure(AmountExceedsOutstanding)
    else if a == b.outstanding then Success((a, b.outstandingPercentage as nat))
    else
      PercentBounds(a, o.grandTotal);
      Success((a, Percent(a, o.grandTotal) as nat))
  }

  /** Percentage mode of `ResolveAmountAsWritten`. */
  function ResolveByPercentage(o: Order, p: nat): (r: Result<(nat, nat), TxError>)
    requires PayableNow(o)
    ensures r.Failure? <==> p > o.balance.outstandingPercentage - o.balance.pendingPercentage
    ensures r.Failure? ==> r.error == PercentageExceedsOutstanding
    ensures r.Success? ==>
      var (amount, pct) := r.value;
      && pct == p
      && (pct == o.balance.outstandingPercentage ==> amount == o.balance.outstanding)
      && (pct != o.balance.outstandingPercentage ==> amount * 100 <= pct * o.grandTotal < (amount + 1) * 100)
  {
    PayableNowFacts(o);
    var b := o.balance;
    if p > b.outstandingPercentage - b.pendingPercentage then Failure(PercentageExceedsOutstanding)
    else if p == b.outstandingPercentage then Success((b.outstanding as nat, p))
    else
      DivBounds(p * o.grandTotal, 100);
      Success((p * o.grandTotal / 100, p))
  }

  /** The corrected resolution: as written, plus the amount that a
      percentage works out to must itself fit within outstanding minus
      pending, so that paid and pending together never pass the grand
      total. */
  function ResolveAmount(o: Order, input: AmountInput): (r: Result<(nat, nat), TxError>)
    requires PayableNow(o)
    ensures r.Success? ==> r.value.0 <= o.balance.outstanding - o.balance.pending
    ensures ResolveAmountAsWritten(o, input).Failure? ==> r == ResolveAmountAsWritten(o, input)
    ensures input.ByAmount? ==> r == ResolveAmountAsWritten(o, input)
    // Everything the source accepts whose amount fits is still accepted.
    ensures r.Success? <==>
      ResolveAmountAsWritten(o, input).Success? &&
      ResolveAmountAsWritten(o, input).value.0 <= o.balance.outstanding - o.balance.pending
    ensures ResolveAmountAsWritten(o, input).Success? &&
            ResolveAmountAsWritten(o, input).value.0 <= o.balance.outstanding - o.balance.pending ==>
      r == ResolveAmountAsWritten(o, input)
  {
    var w := ResolveAmountAsWritten(o, input);
    if w.Success? && input.ByPercentage? && w.value.0 > o.balance.outstanding - o.balance.pending
    then Failure(PercentageExceedsOutstanding)
    else w
  }

  /** The correction only adds refusals: whatever the corrected resolution
      accepts, the source accepts with the same amount and percentage. */
  lemma ResolveAmountOnlyRefuses(o: Order, input: AmountInput)
    requires PayableNow(o)
    ensures ResolveAmount(o, input).Success? ==> ResolveAmountAsWritten(o, input) == ResolveAmount(o, input)
  {
  }

  /** The order of the finding: grand total 1000, one pending payment of 5
      (0.5%, so its percentage truncates to 0), nothing paid. */
  function OvershootOrder(): (o: Order)
    ensures PayableNow(o)
    ensures o.balance.outstanding == 1000 && o.balance.pending == 5
    ensures o.balance.outstandingPercentage == 100 && o.balance.pendingPercentage == 0
  {
    var txs := [Transaction(1, 5, 0, PendingPayment, false, 7, Some(3), None, System)];
    Order(1, 1, 7, {7}, 1000, ComputeBalance(1000, txs), Waiting, true, txs, [],
          false, None, None, None)
  }

  /** As written, a request for 100% of that order passes the percentage
      guard and asks for 1000 although only 995 remains payable; the
      corrected resolution refuses it. */
  lemma PercentageGuardOvershoot()
    ensures ResolveAmountAsWritten(OvershootOrder(), ByPercentage(100)) == Success((1000, 100))
    ensures 1000 > OvershootOrder().balance.outstanding - OvershootOrder().balance.pending
    ensures ResolveAmount(OvershootOrder(), ByPercentage(100)) == Failure(PercentageExceedsOutstanding)
  {
  }

  // ---------------------------------------------------------------------
  // The payer of a new transaction
  // ---------------------------------------------------------------------

  /** As written: a mobile number picks its user (failing when none matches);
      otherwise a missing, empty or foreign `paid_by_user_id` falls back to
      the customer, and a valid one leaves the payer unassigned. */
  function ResolvePayerAsWritten(o: Order, p: PayerInput): (r: Result<UserId, TxError>)
    ensures p == ByMobileNumber(None) <==> r == Failure(PayerNotFound)
    ensures r == Failure(PayerUndefined) <==>
      p.ByPaidByUserId? && p.paidBy.Some? && p.paidBy.value != 0 && p.paidBy.value in o.users
    ensures r.Success? ==> r.value == o.customer || p == ByMobileNumber(Some(r.value))
    ensures p.ByMobileNumber? && p.matchedUser.Some? ==> r == Success(p.matchedUser.value)
    ensures p.ByPaidByUserId? && (p.paidBy.None? || p.paidBy.value == 0 || p.paidBy.value !in o.users) ==>
      r == Success(o.customer)
  {
    match p
    case ByMobileNumber(None) => Failure(PayerNotFound)
    case ByMobileNumber(Some(u)) => Success(u)
    case ByPaidByUserId(id) =>
      if id.None? || id.value == 0 || id.value !in o.users then Success(o.customer)
      else Failure(PayerUndefined)
  }

  /** Corrected: a valid `paid_by_user_id` (one of the order's users) is the
      payer, as the comment beside the source's fallback describes. */
  function ResolvePayer(o: Order, p: PayerInput): (r: Result<UserId, TxError>)
    ensures p == ByMobileNumber(None) <==> r.Failure?
    ensures r.Success? ==> r.value == o.customer || r.value in o.users || p == ByMobileNumber(Some(r.value))
    ensures p.ByPaidByUserId? && p.paidBy.Some? && p.paidBy.value != 0 && p.paidBy.value in o.users ==>
      r == Success(p.paidBy.value)
    ensures ResolvePayerAsWritten(o, p).Success? ==> r == ResolvePayerAsWritten(o, p)
    ensures p.ByMobileNumber? && p.matchedUser.Some? ==> r == Success(p.matchedUser.value)
    ensures p.ByPaidByUserId? && (p.paidBy.None? || p.paidBy.value == 0 || p.paidBy.value !in o.users) ==>
      r == Success(o.customer)
  {
    match p
    case ByPaidByUserId(Some(u)) =>
      if u != 0 && u in o.users then Success(u) else ResolvePayerAsWritten(o, p)
    case _ => ResolvePayerAsWritten(o, p)
  }

  /** Every valid payer named by id is rejected as written and accepted by
      the corrected resolution. */
  lemma PaidByUserIdIgnored(o: Order, u: UserId)
    requires u != 0 && u in o.users
    ensures ResolvePayerAsWritten(o, ByPaidByUserId(Some(u))) == Failure(PayerUndefined)
    ensures ResolvePayer(o, ByPaidByUserId(Some(u))) == Success(u)
  {
  }

  // ---------------------------------------------------------------------
  // createOrderTransaction
  // ---------------------------------------------------------------------

  /** The transaction row the source creates. */
  function NewOrderTransaction(id: TxId, amount: nat, percentage: nat, payer: UserId,
                               actingUser: UserId, userVerified: bool): (t: Transaction)
    ensures t.CreatorFieldsWellFormed()
    ensures t.status == Paid <==> userVerified
    ensures t.status == PendingPayment <==> !userVerified
    ensures t.verifier == System <==> !userVerified
    ensures t.requestedBy == (if userVerified then None else Some(actingUser))
    ensures t.verifiedBy == (if userVerified then Some(actingUser) else None)
    ensures !t.cancelled && t.id == id && t.paidBy == payer && t.amount == amount && t.percentage == percentage
  {
    var requestedBy := if userVerified then None else Some(actingUser);
    var verifiedBy := if userVerified then Some(actingUser) else None;
    Transaction(id, amount, percentage, if userVerified then Paid else PendingPayment, false, payer,
                requestedBy, verifiedBy, if verifiedBy.None? then System else User)
  }

  /** The three order-level guards of `createOrderTransaction`: the order
      is not cancelled, not fully paid, and has an outstanding percentage. */
  predicate CreationGuardsPass(o: Order) {
    o.status != Cancelled && o.balance.paymentStatus != Paid && o.balance.outstandingPercentage != 0
  }

  /** `createOrderTransaction` followed by the balance recompute. The guards
      run in the source's order: cancelled order, fully paid order, nothing
      outstanding, amount / percentage ceilings, payer, one pending payment
      per payer (only for requested, not user-verified, payments). */
  function CreateOrderTransaction(o: Order, req: PaymentRequest, newId: TxId): (r: Result<Order, TxError>)
    requires Consistent(o)
    ensures o.status == Cancelled ==> r == Failure(OrderProhibitsTransactionsWhenCancelled)
    ensures o.status != Cancelled && o.balance.paymentStatus == Paid ==> r == Failure(OrderFullyPaid)
    ensures o.status != Cancelled && o.balance.paymentStatus != Paid && o.balance.outstandingPercentage == 0 ==>
      r == Failure(OrderHasNoAmountOutstanding)
    // The late refusals, in the source's order: amount, payer, then the
    // pending-payment rule, which a user-verified payment skips.
    ensures CreationGuardsPass(o) && ResolveAmount(o, req.amount).Failure? ==>
      r == Failure(ResolveAmount(o, req.amount).error)
    ensures CreationGuardsPass(o) && ResolveAmount(o, req.amount).Success? && ResolvePayer(o, req.payer).Failure? ==>
      r == Failure(ResolvePayer(o, req.payer).error)
    ensures CreationGuardsPass(o) && ResolveAmount(o, req.amount).Success? && ResolvePayer(o, req.payer).Success? ==>
      (r == Failure(OrderProhibitsMultiplePendingPaymentByUser) <==>
         !req.userVerified && HasLivePendingFor(o.transactions, ResolvePayer(o, req.payer).value))
    // When a creation succeeds.
    ensures r.Success? <==>
      && CreationGuardsPass(o)
      && ResolveAmount(o, req.amount).Success?
      && ResolvePayer(o, req.payer).Success?
      && (req.userVerified || !HasLivePendingFor(o.transactions, ResolvePayer(o, req.payer).value))
    ensures r.Success? ==>
      && CreationGuardsPass(o)
      && Consistent(r.value)
      && r.value == Recompute(o.(transactions := r.value.transactions))
      && |r.value.transactions| == |o.transactions| + 1
      && r.value.transactions[..|o.transactions|] == o.transactions
    ensures r.Success? ==>
      var t := r.value.transactions[|o.transactions|];
      && t.id == newId && !t.cancelled && t.CreatorFieldsWellFormed()
      && t.paidBy == ResolvePayer(o, req.payer).value
      && (t.amount, t.percentage) == ResolveAmount(o, req.amount).value
      && (t.status == Paid <==> req.userVerified)
      && t.amount <= o.balance.outstanding - o.balance.pending
      && (req.amount.ByAmount? ==> t.amount == req.amount.amount)
      && (req.amount.ByPercentage? ==> t.percentage == req.amount.percentage)
      && (!req.userVerified ==> !HasLivePendingFor(o.transactions, t.paidBy))
      && r.value.balance.paid == o.balance.paid + Contribution(t, Paid)
      && r.value.balance.pending == o.balance.pending + Contribution(t, PendingPayment)
  {
    if o.status == Cancelled then Failure(OrderProhibitsTransactionsWhenCancelled)
    else if o.balance.paymentStatus == Paid then Failure(OrderFullyPaid)
    else if o.balance.outstandingPercentage == 0 then Failure(OrderHasNoAmountOutstanding)
    else
      var resolved :- ResolveAmount(o, req.amount);
      var payer :- ResolvePayer(o, req.payer);
      if !req.userVerified && HasLivePendingFor(o.transactions, payer) then
        Failure(OrderProhibitsMultiplePendingPaymentByUser)
      else
        var t := NewOrderTransaction(newId, resolved.0, resolved.1, payer, req.actingUser, req.userVerified);
        LiveSumAppendOne(o.transactions, t, Paid);
        LiveSumAppendOne(o.transactions, t, PendingPayment);
        Success(Recompute(o.(transactions := o.transactions + [t])))
  }

  /** Appending a transaction adds exactly its contribution to each sum. */
  lemma LiveSumAppendOne(txs: seq<Transaction>, t: Transaction, s: PaymentStatus)
    ensures LiveSum(txs + [t], s) == LiveSum(txs, s) + Contribution(t, s)
  {
    LiveSumAppend(txs, [t], s);
    assert [t][1..] == [];
  }

  /** Creating a transaction keeps the ledger invariants. */
  lemma CreatePreservesWellFormed(o: Order, req: PaymentRequest, newId: TxId)
    requires WellFormed(o)
    ensures CreateOrderTransaction(o, req, newId).Success? ==>
      WellFormed(CreateOrderTransaction(o, req, newId).value)
  {
    if CreateOrderTransaction(o, req, newId).Failure? {
      return;
    }
    var o' := CreateOrderTransaction(o, req, newId).value;
    var n := |o.transactions|;
    var t := o'.transactions[n];
    assert o'.transactions == o.transactions + [t];
    LiveSumAppendOne(o.transactions, t, Paid);
    LiveSumAppendOne(o.transactions, t, PendingPayment);
    var txs := o'.transactions;
    forall i, j | 0 <= i < |txs| && 0 <= j < |txs| &&
        !txs[i].cancelled && txs[i].status == PendingPayment &&
        !txs[j].cancelled && txs[j].status == PendingPayment &&
        txs[i].paidBy == txs[j].paidBy
      ensures i == j
    {
    }
  }

  /** A second requested payment for the same payer is refused while the
      first is still pending. */
  lemma SecondRequestRefused(o: Order, req: PaymentRequest, id1: TxId, id2: TxId)
    requires Consistent(o)
    requires !req.userVerified
    ensures CreateOrderTransaction(o, req, id1).Success? ==>
      CreateOrderTransaction(CreateOrderTransaction(o, req, id1).value, req, id2).Failure?
  {
    if CreateOrderTransaction(o, req, id1).Failure? {
      return;
    }
    var o1 := CreateOrderTransaction(o, req, id1).value;
    var n := |o.transactions|;
    var t := o1.transactions[n];
    assert ResolvePayer(o1, req.payer) == ResolvePayer(o, req.payer);
    assert HasLivePendingFor(o1.transactions, t.paidBy);
  }

  // ---------------------------------------------------------------------
  // cancel / uncancel / deleteTransaction
  // ---------------------------------------------------------------------

  /** `cancel` on an order-owned transaction: refused on a cancelled order,
      otherwise the transaction is flagged cancelled and the balance
      recomputed. */
  function Cancel(o: Order, i: nat): (r: Result<Order, TxError>)
    requires i < |o.transactions|
    ensures o.status == Cancelled <==> r == Failure(OrderProhibitsTransactionsWhenCancelled)
    ensures r.Success? <==> o.status != Cancelled
    ensures r.Success? ==>
      && Consistent(r.value)
      && r.value.transactions == o.transactions[i := o.transactions[i].(cancelled := true)]
      && r.value.(balance := o.balance, transactions := o.transactions) == o
      && r.value.balance.paid + Contribution(o.transactions[i], Paid) == LiveSum(o.transactions, Paid)
      && r.value.balance.pending + Contribution(o.transactions[i], PendingPayment) == LiveSum(o.transactions, PendingPayment)
  {
    if o.status == Cancelled then Failure(OrderProhibitsTransactionsWhenCancelled)
    else
      var t := o.transactions[i];
      LiveSumUpdate(o.transactions, i, t.(cancelled := true), Paid);
      LiveSumUpdate(o.transactions, i, t.(cancelled := true), PendingPayment);
      Success(Recompute(o.(transactions := o.transactions[i := t.(cancelled := true)])))
  }

  /** `uncancel` on an order-owned transaction: refused on a cancelled
      order, when its amount exceeds what remains payable (outstanding
      minus pending), or when it is a pending payment and its payer already
      has another one; otherwise un-flagged and the balance recomputed. */
  function Uncancel(o: Order, i: nat): (r: Result<Order, TxError>)
    requires i < |o.transactions|
    ensures o.status == Cancelled <==> r == Failure(OrderProhibitsTransactionsWhenCancelled)
    ensures r == Failure(TransactionCannotBeUnCancelled) <==>
      o.status != Cancelled && o.transactions[i].amount > o.balance.outstanding - o.balance.pending
    ensures r == Failure(OrderProhibitsMultiplePendingPaymentByUser) <==>
      && o.status != Cancelled && o.transactions[i].amount <= o.balance.outstanding - o.balance.pending
      && o.transactions[i].status == PendingPayment && HasLivePendingFor(o.transactions, o.transactions[i].paidBy)
    ensures r.Success? <==>
      && o.status != Cancelled && o.transactions[i].amount <= o.balance.outstanding - o.balance.pending
      && !(o.transactions[i].status == PendingPayment && HasLivePendingFor(o.transactions, o.transactions[i].paidBy))
    ensures r.Success? ==>
      && Consistent(r.value)
      && r.value.transactions == o.transactions[i := o.transactions[i].(cancelled := false)]
      && r.value.(balance := o.balance, transactions := o.transactions) == o
      && o.transactions[i].amount <= o.balance.outstanding - o.balance.pending
      && (o.transactions[i].status == PendingPayment ==> !HasLivePendingFor(o.transactions, o.transactions[i].paidBy))
  {
    var t := o.transactions[i];
    if o.status == Cancelled then Failure(OrderProhibitsTransactionsWhenCancelled)
    else if t.amount > o.balance.outstanding - o.balance.pending then Failure(TransactionCannotBeUnCancelled)
    else if t.status == PendingPayment && HasLivePendingFor(o.transactions, t.paidBy) then
      Failure(OrderProhibitsMultiplePendingPaymentByUser)
    else Success(Recompute(o.(transactions := o.transactions[i := t.(cancelled := false)])))
  }

  /** Cancelling a live transaction and then uncancelling it restores the
      order exactly, stored totals included. */
  lemma CancelUncancelRoundTrip(o: Order, i: nat)
    requires WellFormed(o)
    requires i < |o.transactions| && !o.transactions[i].cancelled && o.status != Cancelled
    ensures Cancel(o, i).Success?
    ensures Uncancel(Cancel(o, i).value, i) == Success(o)
  {
    var txs := o.transactions;
    var t := txs[i];
    var c := Cancel(o, i).value;
    assert c.transactions[i] == t.(cancelled := true);
    assert c.transactions[i := t] == txs;
    assert t.(cancelled := true).(cancelled := false) == t;
  }

  /** What can own a transaction. */
  datatype Billable = OrderBill(order: Order) | SubscriptionBill | SmsAlertBill

  /** `deleteTransaction`: the transaction's payment method is consulted
      first, so one stored without a payment method (`hasPaymentMethod`
      false) fails whatever its owner; then only order-owned transactions
      may be deleted (there is no cancelled-order guard here), and the
      order's balance is recomputed without it. */
  function DeleteTransaction(owner: Billable, hasPaymentMethod: bool, i: nat): (r: Result<Order, TxError>)
    requires owner.OrderBill? ==> i < |owner.order.transactions|
    ensures !hasPaymentMethod <==> r == Failure(PaymentMethodMissing)
    ensures hasPaymentMethod && !owner.OrderBill? <==> r == Failure(CannotDeleteTransaction)
    ensures r.Success? <==> hasPaymentMethod && owner.OrderBill?
    ensures r.Success? ==>
      var txs := owner.order.transactions;
      && Consistent(r.value)
      && r.value.transactions == txs[..i] + txs[i+1..]
      && r.value.(balance := owner.order.balance, transactions := txs) == owner.order
      && r.value.balance.paid + Contribution(txs[i], Paid) == LiveSum(txs, Paid)
      && r.value.balance.pending + Contribution(txs[i], PendingPayment) == LiveSum(txs, PendingPayment)
  {
    if !hasPaymentMethod then Failure(PaymentMethodMissing)
    else match owner
    case OrderBill(o) =>
      LiveSumRemove(o.transactions, i, Paid);
      LiveSumRemove(o.transactions, i, PendingPayment);
      Success(Recompute(o.(transactions := o.transactions[..i] + o.transactions[i+1..])))
    case _ => Failure(CannotDeleteTransaction)
  }

  /** Replacing one transaction by `t`, under the given conditions, keeps
      the one-pending-per-payer rule. */
  lemma UpdateKeepsOnePending(txs: seq<Transaction>, i: nat, t: Transaction)
    requires i < |txs| && OnePendingPerPayer(txs)
    requires !t.cancelled && t.status == PendingPayment ==>
      (!txs[i].cancelled && txs[i].status == PendingPayment && txs[i].paidBy == t.paidBy) ||
      !HasLivePendingFor(txs, t.paidBy)
    ensures OnePendingPerPayer(txs[i := t])
  {
    var u := txs[i := t];
    forall a, b | 0 <= a < |u| && 0 <= b < |u| &&
        !u[a].cancelled && u[a].status == PendingPayment &&
        !u[b].cancelled && u[b].status == PendingPayment &&
        u[a].paidBy == u[b].paidBy
      ensures a == b
    {
    }
  }

  lemma CancelPreservesWellFormed(o: Order, i: nat)
    requires WellFormed(o) && i < |o.transactions|
    ensures Cancel(o, i).Success? ==> WellFormed(Cancel(o, i).value)
  {
    UpdateKeepsOnePending(o.transactions, i, o.transactions[i].(cancelled := true));
  }

  lemma UncancelPreservesWellFormed(o: Order, i: nat)
    requires WellFormed(o) && i < |o.transactions|
    ensures Uncancel(o, i).Success? ==> WellFormed(Uncancel(o, i).value)
  {
    if Uncancel(o, i).Failure? {
      return;
    }
    var t := o.transactions[i];
    var t' := t.(cancelled := false);
    UpdateKeepsOnePending(o.transactions, i, t');
    LiveSumUpdate(o.transactions, i, t', Paid);
    LiveSumUpdate(o.transactions, i, t', PendingPayment);
  }

  lemma DeletePreservesWellFormed(o: Order, i: nat)
    requires WellFormed(o) && i < |o.transactions|
    ensures WellFormed(DeleteTransaction(OrderBill(o), true, i).value)
  {
    var txs := o.transactions;
    var u := txs[..i] + txs[i+1..];
    assert forall k :: 0 <= k < |u| ==> u[k] == (if k < i then txs[k] else txs[k + 1]);
    forall a, b | 0 <= a < |u| && 0 <= b < |u| &&
        !u[a].cancelled && u[a].status == PendingPayment &&
        !u[b].cancelled && u[b].status == PendingPayment &&
        u[a].paidBy == u[b].paidBy
      ensures a == b
    {
      var a' := if a < i then a else a + 1;
      var b' := if b < i then b else b + 1;
      assert txs[a'] == u[a] && txs[b'] == u[b];
    }
  }

  // ---------------------------------------------------------------------
  // createTransaction (subscriptions and SMS alert credits)
  // ---------------------------------------------------------------------

  /** What a subscription-style transaction pays for. */
  datatype Purchase = StoreSubscription | AiAssistantSubscription | OtherSubscription | SmsAlertCredits | OrderPurchase

  /** `createTransaction`: a subscription or SMS-credit purchase is recorded
      as already paid in full, requested by the acting user and verified by
      no user. The source does not write `verified_by`; its column default,
      System, is assumed. The source computes no amount for an order, and no
      description for a subscription owned by neither a store nor an AI
      assistant; both are refused here. */
  function CreateSubscriptionTransaction(purchase: Purchase, id: TxId, amount: nat,
                                         payer: UserId, actingUser: UserId): (r: Result<Transaction, TxError>)
    ensures r.Failure? <==> purchase == OrderPurchase || purchase == OtherSubscription
    ensures r.Success? ==>
      && r.value.status == Paid && r.value.percentage == 100 && !r.value.cancelled
      && r.value.requestedBy == Some(actingUser) && r.value.verifiedBy.None?
      && r.value.CreatorFieldsWellFormed()
      && r.value.amount == amount && r.value.paidBy == payer
  {
    if purchase == OrderPurchase || purchase == OtherSubscription then Failure(NothingToBill)
    else Success(Transaction(id, amount, 100, Paid, false, payer, Some(actingUser), None, System))
  }

  /** A subscription or SMS-credit payment is settled from the start: added
      to the transactions its owner (the subscription or the SMS-credit
      purchase) already has, it adds its whole amount to the paid total and
      nothing to the pending total. */
  lemma SubscriptionPaymentIsSettled(ownerTxs: seq<Transaction>, purchase: Purchase, id: TxId, amount: nat,
                                     payer: UserId, actingUser: UserId)
    ensures var r := CreateSubscriptionTransaction(purchase, id, amount, payer, actingUser);
      r.Success? ==>
        && LiveSum(ownerTxs + [r.value], Paid) == LiveSum(ownerTxs, Paid) + amount
        && LiveSum(ownerTxs + [r.value], PendingPayment) == LiveSum(ownerTxs, PendingPayment)
  {
    var r := CreateSubscriptionTransaction(purchase, id, amount, payer, actingUser);
    if r.Success? {
      LiveSumAppendOne(ownerTxs, r.value, Paid);
      LiveSumAppendOne(ownerTxs, r.value, PendingPayment);
    }
  }
}
