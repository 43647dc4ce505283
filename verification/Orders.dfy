/** The order record as seen by the payment and collection rules, with the
    pure rules of the order repository that need nothing else:
    recomputing the stored balance, the "can this shopping cart still be
    updated" check, and the set of users an order is placed for. */
module Orders {
  import opened Results
  import opened Ledger

  datatype OrderStatus = Waiting | OnItsWay | ReadyForPickup | Cancelled | Completed

  /** A row of `user_order_collection_association`: a user who may (or may
      not) collect the order, with that user's current pickup code. */
  datatype CollectionAssociation = CollectionAssociation(
    userId: UserId,
    canCollect: bool,
    code: Option<string>,
    qrCode: Option<string>,
    expiresAt: Option<int>)

  /** An order. `balance` holds the STORED ledger columns (the guards read
      them); `grandTotal` is the cart grand total. `canRequestPayment` is a
      computed attribute of the order model that this model takes as given. */
  datatype Order = Order(
    id: nat,
    storeId: nat,
    customer: UserId,
    users: set<UserId>,
    grandTotal: nat,
    balance: Balance,
    status: OrderStatus,
    canRequestPayment: bool,
    transactions: seq<Transaction>,
    collectors: seq<CollectionAssociation>,
    collectionVerified: bool,
    collectionVerifiedBy: Option<UserId>,
    collectedBy: Option<UserId>,
    collectionVerifiedAt: Option<int>)

  /** The stored balance is what `updateOrderAmountBalance` would write. */
  predicate Consistent(o: Order) {
    o.balance == ComputeBalance(o.grandTotal, o.transactions)
  }

  /** `updateOrderAmountBalance`: overwrite the stored balance from the
      transactions; nothing but the balance changes. */
  function Recompute(o: Order): (r: Order)
    ensures Consistent(r)
    ensures r.transactions == o.transactions && r.grandTotal == o.grandTotal
    ensures r.(balance := o.balance) == o
    ensures Consistent(o) ==> r == o
  {
    o.(balance := ComputeBalance(o.grandTotal, o.transactions))
  }

  predicate HasLivePendingFor(txs: seq<Transaction>, payer: UserId) {
    exists i :: 0 <= i < |txs| && txs[i].paidBy == payer && !txs[i].cancelled && txs[i].status == PendingPayment
  }

  /** At most one non-cancelled pending payment per payer. */
  predicate OnePendingPerPayer(txs: seq<Transaction>) {
    forall i, j ::
      (0 <= i < |txs| && 0 <= j < |txs| &&
       !txs[i].cancelled && txs[i].status == PendingPayment &&
       !txs[j].cancelled && txs[j].status == PendingPayment &&
       txs[i].paidBy == txs[j].paidBy) ==> i == j
  }

  /** The ledger invariants every transaction operation keeps: stored totals
      agree with the transactions, paid and pending together never exceed
      the grand total, one pending payment per payer, and every transaction
      is Paid or Pending Payment with well-formed creator fields. */
  predicate WellFormed(o: Order) {
    && Consistent(o)
    && LiveSum(o.transactions, Paid) + LiveSum(o.transactions, PendingPayment) <= o.grandTotal
    && OnePendingPerPayer(o.transactions)
    && (forall i :: 0 <= i < |o.transactions| ==>
          (o.transactions[i].status == Paid || o.transactions[i].status == PendingPayment) &&
          o.transactions[i].CreatorFieldsWellFormed())
  }

  /** Under the ledger invariants, the zero-sum identity holds:
      outstanding = grand total - paid, and pending never exceeds it. */
  lemma WellFormedTotals(o: Order)
    requires WellFormed(o)
    ensures o.balance.paid + o.balance.outstanding == o.grandTotal
    ensures 0 <= o.balance.pending <= o.balance.outstanding
  {
  }

  // ---------------------------------------------------------------------
  // checkIfUpdatableShoppingCart
  // ---------------------------------------------------------------------

  datatype UpdateRefusal = OrderPaid | OrderPendingPayment | OrderPartiallyPaid | OrderCollected

  /** `checkIfUpdatableShoppingCart`: no saved order means "not an update";
      a saved order may be updated only while it is unpaid and not
      completed, and the refusal names the first reason found. */
  function CheckIfUpdatableShoppingCart(saved: Option<Order>): (r: Result<bool, UpdateRefusal>)
    ensures saved.None? <==> r == Success(false)
    ensures r == Success(true) <==>
      saved.Some? && saved.value.balance.paymentStatus == Unpaid && saved.value.status != Completed
    ensures r == Failure(OrderCollected) <==>
      saved.Some? && saved.value.status == Completed && saved.value.balance.paymentStatus == Unpaid
    ensures saved.Some? && saved.value.balance.paymentStatus != Unpaid ==>
      r == Failure(match saved.value.balance.paymentStatus
                   case Paid => OrderPaid
                   case PendingPayment => OrderPendingPayment
                   case _ => OrderPartiallyPaid)
  {
    match saved
    case None => Success(false)
    case Some(o) =>
      match o.balance.paymentStatus
      case Paid => Failure(OrderPaid)
      case PendingPayment => Failure(OrderPendingPayment)
      case PartiallyPaid => Failure(OrderPartiallyPaid)
      case Unpaid => if o.status == Completed then Failure(OrderCollected) else Success(true)
  }

  /** An order that may still be updated has, by its current ledger, less
      than 1% of the grand total paid and less than 1% pending: the status
      Unpaid only rules out percentages that truncate to a non-zero value. */
  lemma UpdatableOrderBarelyPaid(o: Order)
    requires Consistent(o) && o.grandTotal > 0
    requires CheckIfUpdatableShoppingCart(Some(o)) == Success(true)
    ensures LiveSum(o.transactions, Paid) * 100 < o.grandTotal
    ensures LiveSum(o.transactions, PendingPayment) * 100 < o.grandTotal
  {
    StatusByAmounts(o.grandTotal, LiveSum(o.transactions, Paid), LiveSum(o.transactions, PendingPayment));
  }

  // ---------------------------------------------------------------------
  // showOrderForUserIds
  // ---------------------------------------------------------------------

  /** `showOrderForUserIds`: "me" is just the caller; otherwise the listed
      friends that really are the caller's friends, plus every member of
      the listed friend groups, never the caller, and the caller added back
      for "me and friends". `friendships` holds (user, friend) pairs and
      `groupMembers` holds (group, user) pairs. */
  function ShowOrderForUserIds(orderFor: string, caller: UserId,
                               friendUserIds: set<UserId>, friendGroupIds: set<nat>,
                               friendships: set<(UserId, UserId)>,
                               groupMembers: set<(nat, UserId)>): (r: set<UserId>)
    ensures orderFor == "me" ==> r == {caller}
    ensures caller in r <==> orderFor == "me" || orderFor == "me and friends"
    ensures forall u :: u in r && u != caller ==>
      orderFor != "me" &&
      ((u in friendUserIds && (caller, u) in friendships) ||
       exists g :: g in friendGroupIds && (g, u) in groupMembers)
    ensures orderFor != "me" ==>
      forall u :: u != caller && u in friendUserIds && (caller, u) in friendships ==> u in r
    ensures orderFor != "me" ==>
      forall g, u :: u != caller && g in friendGroupIds && (g, u) in groupMembers ==> u in r
  {
    if orderFor == "me" then {caller}
    else
      var fromFriends := set u | u in friendUserIds && (caller, u) in friendships;
      var fromGroups := set p | p in groupMembers && p.0 in friendGroupIds :: p.1;
      var friends := (fromFriends + fromGroups) - {caller};
      if orderFor == "me and friends" then friends + {caller} else friends
  }
}
