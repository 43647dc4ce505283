/** The order repository's payment entry points, which sit on top of the
    transaction rules: requesting a payment from a payer, recording a
    payment confirmed by a team member, and marking the caller's own
    pending payment as paid. Payment-link creation with the external
    gateways is an opaque step that leaves the ledger as it is. */
module OrderPayments {
  import opened Results
  import opened Ledger
  import opened Orders
  import opened Transactions

  datatype PaymentError =
    | OrderDoesNotHavePayableAmount
    | OrderCannotRequestPayment
    | OrderHasNoPendingPayment
    | Rejected(reason: TxError)

  /** What `requestPayment` returns: nothing when the payment method id does
      not name a payment method, otherwise the order with the new pending
      transaction. */
  datatype RequestOutcome = NoPaymentMethod | Requested(order: Order)

  /** `requestPayment`: a free order and an order that cannot request
      payment are refused; an unknown payment method does nothing; otherwise
      a pending (not user-verified) transaction is created with all the
      creation guards. */
  function RequestPayment(o: Order, amount: AmountInput, payer: PayerInput, actingUser: UserId,
                          paymentMethodFound: bool, newId: TxId): (r: Result<RequestOutcome, PaymentError>)
    requires Consistent(o)
    ensures o.grandTotal == 0 <==> r == Failure(OrderDoesNotHavePayableAmount)
    ensures o.grandTotal > 0 && !o.canRequestPayment <==> r == Failure(OrderCannotRequestPayment)
    ensures r == Success(NoPaymentMethod) <==> o.grandTotal > 0 && o.canRequestPayment && !paymentMethodFound
    ensures r.Success? && r.value.Requested? <==>
      o.grandTotal > 0 && o.canRequestPayment && paymentMethodFound &&
      CreateOrderTransaction(o, PaymentRequest(amount, payer, actingUser, false), newId).Success?
    ensures r.Success? && r.value.Requested? ==>
      CreateOrderTransaction(o, PaymentRequest(amount, payer, actingUser, false), newId) == Success(r.value.order)
    ensures r.Success? && r.value.Requested? ==>
      var txs := r.value.order.transactions;
      && |txs| == |o.transactions| + 1
      && txs[..|o.transactions|] == o.transactions
      && txs[|o.transactions|].status == PendingPayment
      && txs[|o.transactions|].requestedBy == Some(actingUser)
      && !HasLivePendingFor(o.transactions, txs[|o.transactions|].paidBy)
    ensures r.Failure? && r.error.Rejected? ==>
      CreateOrderTransaction(o, PaymentRequest(amount, payer, actingUser, false), newId) == Failure(r.error.reason)
  {
    if o.grandTotal == 0 then Failure(OrderDoesNotHavePayableAmount)
    else if !o.canRequestPayment then Failure(OrderCannotRequestPayment)
    else if !paymentMethodFound then Success(NoPaymentMethod)
    else
      match CreateOrderTransaction(o, PaymentRequest(amount, payer, actingUser, false), newId)
      case Success(o') => Success(Requested(o'))
      case Failure(e) => Failure(Rejected(e))
  }

  /** `markAsUnverifiedPayment`: a payment a team member confirms is
      recorded directly as Paid, with every creation guard except the
      one-pending-payment-per-payer rule. */
  function MarkAsUnverifiedPayment(o: Order, amount: AmountInput, payer: PayerInput,
                                   verifiedBy: UserId, newId: TxId): (r: Result<Order, TxError>)
    requires Consistent(o)
    ensures o.status == Cancelled ==> r == Failure(OrderProhibitsTransactionsWhenCancelled)
    ensures o.status != Cancelled && o.balance.paymentStatus == Paid ==> r == Failure(OrderFullyPaid)
    ensures o.status != Cancelled && o.balance.paymentStatus != Paid && o.balance.outstandingPercentage == 0 ==>
      r == Failure(OrderHasNoAmountOutstanding)
    // A payer's live pending payment does not stand in the way.
    ensures r.Success? <==>
      CreationGuardsPass(o) && ResolveAmount(o, amount).Success? && ResolvePayer(o, payer).Success?
    ensures r.Success? ==>
      && |r.value.transactions| == |o.transactions| + 1
      && r.value.transactions[..|o.transactions|] == o.transactions
      && r.value.(balance := o.balance, transactions := o.transactions) == o
    ensures r.Success? && |r.value.transactions| == |o.transactions| + 1 ==>
      var t := r.value.transactions[|o.transactions|];
      && t.status == Paid && t.verifiedBy == Some(verifiedBy) && t.requestedBy.None? && t.verifier == User
      && t.paidBy == ResolvePayer(o, payer).value
      && t.amount <= o.balance.outstanding - o.balance.pending
      && r.value.balance.paid == o.balance.paid + t.amount
      && r.value.balance.pending == o.balance.pending
  {
    CreateOrderTransaction(o, PaymentRequest(amount, payer, verifiedBy, true), newId)
  }

  /** Recording a confirmed payment keeps the ledger invariants, even for
      a payer who also has a payment pending. */
  lemma MarkAsUnverifiedPreservesWellFormed(o: Order, amount: AmountInput, payer: PayerInput,
                                            verifiedBy: UserId, newId: TxId)
    requires WellFormed(o)
    ensures MarkAsUnverifiedPayment(o, amount, payer, verifiedBy, newId).Success? ==>
      WellFormed(MarkAsUnverifiedPayment(o, amount, payer, verifiedBy, newId).value)
  {
    CreatePreservesWellFormed(o, PaymentRequest(amount, payer, verifiedBy, true), newId);
  }

  /** The caller's latest non-cancelled pending payment on the order. */
  function LatestPendingOf(txs: seq<Transaction>, payer: UserId): (r: Option<nat>)
    ensures r.Some? ==>
      r.value < |txs| && txs[r.value].paidBy == payer &&
      !txs[r.value].cancelled && txs[r.value].status == PendingPayment
    ensures r.Some? ==> forall k :: r.value < k < |txs| ==>
      !(txs[k].paidBy == payer && !txs[k].cancelled && txs[k].status == PendingPayment)
    ensures r.None? <==> !HasLivePendingFor(txs, payer)
  {
    if |txs| == 0 then None
    else
      var last := txs[|txs| - 1];
      if last.paidBy == payer && !last.cancelled && last.status == PendingPayment then Some(|txs| - 1)
      else
        var r := LatestPendingOf(txs[..|txs| - 1], payer);
        assert forall k :: 0 <= k < |txs| - 1 ==> txs[..|txs| - 1][k] == txs[k];
        r
  }

  /** `markAsVerifiedPayment`: the caller's pending payment becomes Paid and
      the balance is recomputed; a free order and a caller with no pending
      payment are refused. Exactly the pending amount moves from pending
      to paid. */
  function MarkAsVerifiedPayment(o: Order, caller: UserId): (r: Result<Order, PaymentError>)
    ensures o.grandTotal == 0 <==> r == Failure(OrderDoesNotHavePayableAmount)
    ensures o.grandTotal > 0 && !HasLivePendingFor(o.transactions, caller) <==> r == Failure(OrderHasNoPendingPayment)
    ensures r.Success? <==> o.grandTotal > 0 && HasLivePendingFor(o.transactions, caller)
    ensures r.Success? ==>
      && Consistent(r.value)
      && |r.value.transactions| == |o.transactions|
      && (exists i :: 0 <= i < |o.transactions| &&
            o.transactions[i].paidBy == caller && !o.transactions[i].cancelled &&
            o.transactions[i].status == PendingPayment &&
            r.value.transactions == o.transactions[i := o.transactions[i].(status := Paid)] &&
            r.value.(balance := o.balance, transactions := o.transactions) == o &&
            r.value.balance.paid == LiveSum(o.transactions, Paid) + o.transactions[i].amount &&
            r.value.balance.pending + o.transactions[i].amount == LiveSum(o.transactions, PendingPayment))
  {
    if o.grandTotal == 0 then Failure(OrderDoesNotHavePayableAmount)
    else
      match LatestPendingOf(o.transactions, caller)
      case None => Failure(OrderHasNoPendingPayment)
      case Some(i) =>
        var t := o.transactions[i];
        LiveSumUpdate(o.transactions, i, t.(status := Paid), Paid);
        LiveSumUpdate(o.transactions, i, t.(status := Paid), PendingPayment);
        Success(Recompute(o.(transactions := o.transactions[i := t.(status := Paid)])))
  }

  /** Marking a pending payment as paid keeps the ledger invariants: the
      paid + pending total does not move. */
  lemma MarkAsVerifiedPreservesWellFormed(o: Order, caller: UserId)
    requires WellFormed(o)
    ensures MarkAsVerifiedPayment(o, caller).Success? ==> WellFormed(MarkAsVerifiedPayment(o, caller).value)
  {
    if MarkAsVerifiedPayment(o, caller).Failure? {
      return;
    }
    var i := LatestPendingOf(o.transactions, caller).value;
    var t := o.transactions[i];
    UpdateKeepsOnePending(o.transactions, i, t.(status := Paid));
  }

  /** Requesting a payment keeps the ledger invariants. */
  lemma RequestPaymentPreservesWellFormed(o: Order, amount: AmountInput, payer: PayerInput,
                                          actingUser: UserId, newId: TxId)
    requires WellFormed(o)
    ensures var r := RequestPayment(o, amount, payer, actingUser, true, newId);
      r.Success? && r.value.Requested? ==> WellFormed(r.value.order)
  {
    var req := PaymentRequest(amount, payer, actingUser, false);
    if CreateOrderTransaction(o, req, newId).Success? {
      CreatePreservesWellFormed(o, req, newId);
    }
  }
}
