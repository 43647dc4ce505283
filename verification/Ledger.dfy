/** The payment ledger of an order: its transactions and the balance that
    `updateOrderAmountBalance` derives from them (paid, pending and
    outstanding amounts, their percentages of the grand total, and the
    order's payment status). Money is held in integer minor units. */
module Ledger {
  import opened Results

  type UserId = nat
  type TxId = nat

  /** The `payment_status` strings shared by orders and transactions.
      Transactions only ever carry `Paid` or `PendingPayment`. */
  datatype PaymentStatus = Unpaid | PendingPayment | PartiallyPaid | Paid

  /** The `verified_by` column: who confirmed the payment. */
  datatype Verifier = System | User

  /** A transaction row. Cancellation is a separate flag, not a status, so a
      cancelled transaction keeps the status it had. */
  datatype Transaction = Transaction(
    id: TxId,
    amount: nat,
    percentage: nat,
    status: PaymentStatus,
    cancelled: bool,
    paidBy: UserId,
    requestedBy: Option<UserId>,
    verifiedBy: Option<UserId>,
    verifier: Verifier)
  {
    /** Exactly one of `requested_by_user_id` / `verified_by_user_id` is set,
        and `verified_by` says 'System' exactly when no user verified it. */
    predicate CreatorFieldsWellFormed() {
      && (requestedBy.Some? != verifiedBy.Some?)
      && (verifier == System <==> verifiedBy.None?)
    }
  }

  /** The amount a transaction adds to the running total for `s`: its amount
      when it is not cancelled and has status `s`, otherwise nothing. */
  function Contribution(t: Transaction, s: PaymentStatus): nat {
    if !t.cancelled && t.status == s then t.amount else 0
  }

  /** Sum of the amounts of the non-cancelled transactions with status `s`. */
  function LiveSum(txs: seq<Transaction>, s: PaymentStatus): nat {
    if |txs| == 0 then 0 else Contribution(txs[0], s) + LiveSum(txs[1..], s)
  }

  /** PHP's `(int)` cast of a quotient: truncation toward zero, unlike
      Dafny's Euclidean division on negative numerators. */
  function TruncDiv(a: int, b: int): int
    requires b > 0
  {
    if a >= 0 then a / b else -((-a) / b)
  }

  /** The truncated quotient brackets the exact one from the side of zero. */
  lemma TruncDivBounds(a: int, b: int)
    requires b > 0
    ensures a >= 0 ==> 0 <= TruncDiv(a, b) * b <= a < (TruncDiv(a, b) + 1) * b
    ensures a < 0 ==> (TruncDiv(a, b) - 1) * b < a <= TruncDiv(a, b) * b <= 0
  {
    if a >= 0 {
      DivBounds(a, b);
    } else {
      DivBounds(-a, b);
    }
  }

  lemma DivBounds(a: nat, b: int)
    requires b > 0
    ensures 0 <= (a / b) * b <= a < (a / b + 1) * b
  {
    var q := a / b;
    assert a == q * b + a % b;
    assert (q + 1) * b == q * b + b;
  }

  lemma MulMonotone(x: int, y: int, c: nat)
    requires x <= y
    ensures x * c <= y * c
  {
    assert y * c - x * c == (y - x) * c;
  }

  /** The percentage of the grand total an amount makes up, truncated
      toward zero to an integer; 0 for a free order. */
  function Percent(amount: int, grandTotal: nat): int {
    if grandTotal > 0 then TruncDiv(amount * 100, grandTotal) else 0
  }

  /** The truncated percentage brackets the exact percentage from the side
      of zero; a free order has every percentage 0. */
  lemma PercentBounds(amount: int, grandTotal: nat)
    ensures grandTotal == 0 ==> Percent(amount, grandTotal) == 0
    ensures grandTotal > 0 && amount >= 0 ==>
      var p := Percent(amount, grandTotal);
      0 <= p * grandTotal <= amount * 100 < (p + 1) * grandTotal
    ensures grandTotal > 0 && amount < 0 ==>
      var p := Percent(amount, grandTotal);
      (p - 1) * grandTotal < amount * 100 <= p * grandTotal <= 0
  {
    if grandTotal > 0 {
      TruncDivBounds(amount * 100, grandTotal);
    }
  }

  /** The truncated percentage has the sign of the amount, except that a
      small negative amount truncates to 0. */
  lemma PercentSign(amount: int, grandTotal: nat)
    ensures amount >= 0 ==> Percent(amount, grandTotal) >= 0
    ensures Percent(amount, grandTotal) > 0 ==> amount > 0
  {
    var p := Percent(amount, grandTotal);
    PercentBounds(amount, grandTotal);
    if grandTotal > 0 && amount < 0 && p > 0 {
      MulMonotone(1, p, grandTotal);
    }
  }

  /** The order's derived payment status: pending payments take priority,
      then nothing paid, then fully paid, otherwise partially paid. */
  function StatusFor(paidPercentage: int, pendingPercentage: int): PaymentStatus {
    if pendingPercentage != 0 then PendingPayment
    else if paidPercentage == 0 then Unpaid
    else if paidPercentage == 100 then Paid
    else PartiallyPaid
  }

  datatype Balance = Balance(
    paymentStatus: PaymentStatus,
    paid: nat,
    paidPercentage: int,
    pending: nat,
    pendingPercentage: int,
    outstanding: int,
    outstandingPercentage: int)

  /** `updateOrderAmountBalance`: a pure function of the cart grand total
      and the order's transactions. */
  function ComputeBalance(grandTotal: nat, txs: seq<Transaction>): (b: Balance)
    ensures b.paid + b.outstanding == grandTotal
  {
    var paid := LiveSum(txs, Paid);
    var pending := LiveSum(txs, PendingPayment);
    var outstanding := grandTotal - paid;
    var paidPct := Percent(paid, grandTotal);
    var pendingPct := Percent(pending, grandTotal);
    Balance(StatusFor(paidPct, pendingPct), paid, paidPct, pending, pendingPct,
            outstanding, Percent(outstanding, grandTotal))
  }

  /** A free order (grand total 0) has every percentage 0 and is Unpaid,
      whatever its transactions. */
  lemma FreeOrderBalance(txs: seq<Transaction>)
    ensures var b := ComputeBalance(0, txs);
      b.paidPercentage == b.pendingPercentage == b.outstandingPercentage == 0 &&
      b.paymentStatus == Unpaid
  {
  }

  // ---------------------------------------------------------------------
  // Structure of the running sums
  // ---------------------------------------------------------------------

  /** The running sums distribute over concatenation. */
  lemma {:induction false} LiveSumAppend(a: seq<Transaction>, b: seq<Transaction>, s: PaymentStatus)
    ensures LiveSum(a + b, s) == LiveSum(a, s) + LiveSum(b, s)
  {
    if |a| == 0 {
      assert a + b == b;
    } else {
      assert (a + b)[1..] == a[1..] + b;
      LiveSumAppend(a[1..], b, s);
    }
  }

  /** Splitting the ledger at one transaction isolates its contribution. */
  lemma LiveSumSplit(txs: seq<Transaction>, i: nat, s: PaymentStatus)
    requires i < |txs|
    ensures LiveSum(txs, s) == LiveSum(txs[..i], s) + Contribution(txs[i], s) + LiveSum(txs[i+1..], s)
  {
    assert txs == txs[..i] + ([txs[i]] + txs[i+1..]);
    LiveSumAppend(txs[..i], [txs[i]] + txs[i+1..], s);
    LiveSumAppend([txs[i]], txs[i+1..], s);
  }

  /** Replacing one transaction changes each running sum by exactly the
      difference of the two contributions; nothing else moves. */
  lemma LiveSumUpdate(txs: seq<Transaction>, i: nat, t: Transaction, s: PaymentStatus)
    requires i < |txs|
    ensures LiveSum(txs[i := t], s) + Contribution(txs[i], s) == LiveSum(txs, s) + Contribution(t, s)
  {
    var u := txs[i := t];
    LiveSumSplit(txs, i, s);
    LiveSumSplit(u, i, s);
    assert u[..i] == txs[..i];
    assert u[i+1..] == txs[i+1..];
  }

  /** Removing one transaction takes away exactly its contribution. */
  lemma LiveSumRemove(txs: seq<Transaction>, i: nat, s: PaymentStatus)
    requires i < |txs|
    ensures LiveSum(txs[..i] + txs[i+1..], s) + Contribution(txs[i], s) == LiveSum(txs, s)
  {
    LiveSumSplit(txs, i, s);
    LiveSumAppend(txs[..i], txs[i+1..], s);
  }

  /** Dropping the element at `j` drops one occurrence of it. */
  lemma MultisetRemove(b: seq<Transaction>, j: nat)
    requires j < |b|
    ensures multiset(b[..j] + b[j+1..]) == multiset(b) - multiset{b[j]}
  {
    assert b == b[..j] + [b[j]] + b[j+1..];
    assert multiset(b) == multiset(b[..j]) + multiset{b[j]} + multiset(b[j+1..]);
  }

  /** The balance depends only on the multiset of transactions, not on the
      order in which the database returns them. */
  lemma {:induction false} LiveSumPermutation(a: seq<Transaction>, b: seq<Transaction>, s: PaymentStatus)
    requires multiset(a) == multiset(b)
    ensures LiveSum(a, s) == LiveSum(b, s)
    decreases |a|
  {
    if |a| == 0 {
      assert |b| == |multiset(b)| == 0;
    } else {
      var x := a[0];
      assert x in multiset(b);
      assert x in b;
      var j :| 0 <= j < |b| && b[j] == x;
      var rest := b[..j] + b[j+1..];
      MultisetRemove(b, j);
      MultisetRemove(a, 0);
      assert a[..0] + a[1..] == a[1..];
      assert multiset(a[1..]) == multiset(rest);
      LiveSumPermutation(a[1..], rest, s);
      LiveSumRemove(b, j, s);
      assert LiveSum(a, s) == Contribution(x, s) + LiveSum(a[1..], s);
    }
  }

  lemma BalancePermutation(grandTotal: nat, a: seq<Transaction>, b: seq<Transaction>)
    requires multiset(a) == multiset(b)
    ensures ComputeBalance(grandTotal, a) == ComputeBalance(grandTotal, b)
  {
    LiveSumPermutation(a, b, Paid);
    LiveSumPermutation(a, b, PendingPayment);
  }

  // ---------------------------------------------------------------------
  // The derived status in terms of amounts
  // ---------------------------------------------------------------------

  /** For a non-negative amount and a positive grand total, the truncated
      percentage is zero exactly when the amount is below 1% of the total. */
  lemma PercentZero(amount: nat, grandTotal: nat)
    requires grandTotal > 0
    ensures Percent(amount, grandTotal) == 0 <==> amount * 100 < grandTotal
  {
    var p := Percent(amount, grandTotal);
    PercentBounds(amount, grandTotal);
    if p != 0 {
      MulMonotone(1, p, grandTotal);
    } else {
      assert (p + 1) * grandTotal == grandTotal;
    }
  }

  /** ... and it is 100 exactly when the amount lies in [total, 1.01 total). */
  lemma PercentHundred(amount: nat, grandTotal: nat)
    requires grandTotal > 0
    ensures Percent(amount, grandTotal) == 100 <==> grandTotal <= amount && amount * 100 < 101 * grandTotal
  {
    var p := Percent(amount, grandTotal);
    PercentBounds(amount, grandTotal);
    if p < 100 {
      MulMonotone(p + 1, 100, grandTotal);
    } else if p > 100 {
      MulMonotone(101, p, grandTotal);
    } else {
      assert (p + 1) * grandTotal == 101 * grandTotal;
    }
  }

  /** The status the ledger derives, stated on amounts instead of
      truncated percentages. */
  lemma StatusByAmounts(grandTotal: nat, paid: nat, pending: nat)
    requires grandTotal > 0
    ensures StatusFor(Percent(paid, grandTotal), Percent(pending, grandTotal)) ==
      if pending * 100 >= grandTotal then PendingPayment
      else if paid * 100 < grandTotal then Unpaid
      else if grandTotal <= paid && paid * 100 < 101 * grandTotal then Paid
      else PartiallyPaid
  {
    PercentZero(paid, grandTotal);
    PercentZero(pending, grandTotal);
    PercentHundred(paid, grandTotal);
  }

  /** When nothing has been overpaid, "Paid" means exactly "fully paid with
      no pending payment worth 1% or more". */
  lemma PaidMeansSettled(grandTotal: nat, txs: seq<Transaction>)
    requires grandTotal > 0
    requires LiveSum(txs, Paid) <= grandTotal
    ensures ComputeBalance(grandTotal, txs).paymentStatus == Paid <==>
      LiveSum(txs, Paid) == grandTotal && LiveSum(txs, PendingPayment) * 100 < grandTotal
  {
    StatusByAmounts(grandTotal, LiveSum(txs, Paid), LiveSum(txs, PendingPayment));
  }

  /** The worked scenario: grand total 100, 60 paid, 20 pending. */
  lemma ScenarioPaidAndPending()
    ensures var txs := [
        Transaction(1, 60, 60, Paid, false, 7, None, Some(3), User),
        Transaction(2, 20, 20, PendingPayment, false, 8, Some(3), None, System)];
      var b := ComputeBalance(100, txs);
      b.paid == 60 && b.pending == 20 && b.outstanding == 40 && b.paymentStatus == PendingPayment
  {
  }
}
