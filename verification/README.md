# Order payments, collection codes, sign-in and store permissions

A Dafny model of the business rules at the heart of a Laravel ordering
back end for small stores. It covers four areas.

- **The payment ledger of an order.** An order holds a list of transactions.
  Each transaction is Paid or Pending Payment and may be cancelled.
  `updateOrderAmountBalance` derives the paid, pending and outstanding
  amounts from them, together with their truncated percentages of the cart
  grand total and a payment status. Several operations are guarded by the
  stored figures and recompute them afterwards:
  - creating a transaction;
  - cancelling and un-cancelling a transaction;
  - deleting a transaction;
  - requesting a payment;
  - recording a payment confirmed by a team member;
  - marking one's own pending payment as paid.

  Subscription and SMS-credit purchases create transactions that are paid
  in full from the start.
- **The collection protocol.** A user allowed to collect an order gets a
  six-digit collection code that is valid for 120 seconds. They may revoke
  it. A team member completes the order by entering that code, or the
  collector's mobile verification code. The one-way `collection_verified`
  flag then closes the protocol.
- **Authentication state.** This is the table of mobile verification codes
  (one row per mobile number) and the set of access tokens together with
  their cache entries. It covers:
  - generating, checking and revoking verification codes;
  - the three logout scopes and the super-admin rules;
  - single-device sign-in.
- **Store permissions of a user.** This covers:
  - permission checks through a team membership's grants, with the
    per-permission cache;
  - team-member assignment;
  - the per-store last-seen timestamps;
  - the singular or plural wording of SMS-credit messages.

Modules follow the program's structure:

- `Results`: Option and Result.
- `Ledger`: transactions and `updateOrderAmountBalance`.
- `Orders`: the order record and the pure order rules.
- `Transactions`: the transaction repository.
- `OrderPayments`: the payment entry points of the order repository.
- `Collection`: the collection protocol.
- `Auth`: the auth repository.
- `Permissions`: the user trait.

Each operation is a pure function from the old state, plus the request's
inputs, to a `Result` of the new state or the error the source throws.

Amounts are integer minor units. The order balance's float percentages,
cast with `(int)`, are modelled as exact integer division truncated toward
zero. A new transaction's derived percentage or amount is stored by the
source as a float without a cast; the model truncates that one toward zero too
(see Left out). The stored
balance of an order is kept as a field: the guards read it, and
`Consistent(o)` says it equals a fresh recompute. `WellFormed(o)` is the
ledger invariant that every transaction operation preserves, with the
corrected amount and payer resolution of the Findings. It says:

- the stored totals are current;
- paid plus pending never exceeds the grand total;
- a payer has at most one live pending payment;
- every transaction has exactly one of requested-by / verified-by, and the
  status that goes with it.

Nondeterminism and I/O become parameters:

- the clock (`now`);
- the six-digit code generator, whose output is required not to be among
  the order's codes already in use;
- the id the database assigns to a new row;
- the QR code image URL;
- the platform header;
- whether a payment method id names a payment method;
- whether a request comes from the USSD server.

## Model

| member | source | states |
|---|---|---|
| Ledger.PercentBounds | app/Repositories/OrderRepository.php:2087-2095 | A percentage is the amount over the grand total, times 100, truncated toward zero (bounds for both signs). It is 0 when the grand total is 0. |
| Ledger.ComputeBalance | app/Repositories/OrderRepository.php:2083-2117 | Paid plus outstanding is the grand total (pending is not subtracted). |
| Ledger.FreeOrderBalance | app/Repositories/OrderRepository.php:2087-2117 | With a grand total of 0, every percentage is 0 and the status is Unpaid. |
| Ledger.LiveSumUpdate | app/Repositories/OrderRepository.php:2086-2090 | Replacing one transaction moves a running sum by exactly the difference between the old and the new transaction's contribution. |
| Ledger.LiveSumRemove | app/Repositories/OrderRepository.php:2086-2090 | Removing one transaction takes exactly its contribution out of each running sum. |
| Ledger.LiveSumPermutation | app/Repositories/OrderRepository.php:2080-2090 | The running sums do not depend on the order in which the transactions are read. |
| Ledger.BalancePermutation | app/Repositories/OrderRepository.php:2080-2117 | The whole balance is a function of the multiset of transactions and the grand total. |
| Ledger.PercentZero | app/Repositories/OrderRepository.php:2087-2091 | A truncated percentage is 0 exactly when the amount is below 1% of the grand total. |
| Ledger.PercentHundred | app/Repositories/OrderRepository.php:2087 | A paid percentage is 100 exactly when paid lies in [total, 1.01 × total). |
| Ledger.StatusByAmounts | app/Repositories/OrderRepository.php:2097-2117 | The status priority, restated on amounts: pending of 1% or more gives Pending Payment, then paid below 1% gives Unpaid, then paid in [total, 1.01 total) gives Paid, otherwise Partially Paid. |
| Ledger.PaidMeansSettled | app/Repositories/OrderRepository.php:2098-2110 | When nothing is overpaid, Paid means exactly "paid equals the grand total and pending is below 1%". |
| Ledger.ScenarioPaidAndPending | app/Repositories/OrderRepository.php:2086-2100 | Grand total 100 with 60 paid and 20 pending gives outstanding 40 and Pending Payment. |
| Orders.Recompute | app/Repositories/OrderRepository.php:2119-2132 | After the recompute the stored balance is current and nothing but the balance changes. Recomputing a current order changes nothing (idempotent). |
| Orders.WellFormedTotals | app/Repositories/OrderRepository.php:2093-2094 | Under the ledger invariant, paid + outstanding = grand total and 0 <= pending <= outstanding. |
| Orders.CheckIfUpdatableShoppingCart | app/Repositories/OrderRepository.php:917-954 | No saved order means false. A saved order is updatable iff it is Unpaid and not Completed. A non-Unpaid order is refused for its payment status. The refusal is OrderCollected iff the order is Unpaid and Completed. |
| Orders.UpdatableOrderBarelyPaid | app/Repositories/OrderRepository.php:917-954 | An updatable order with a current balance has less than 1% of its grand total paid and less than 1% pending. Unpaid does not mean nothing paid. |
| Orders.ShowOrderForUserIds | app/Repositories/OrderRepository.php:843-890 | "me" gives exactly the caller. The caller is included iff the request is "me" or "me and friends". Every other member is a listed real friend or a member of a listed group, and all of those are included. |
| Transactions.ResolveByAmount | app/Repositories/TransactionRepository.php:269-292 | An amount above outstanding minus pending is refused. Exactly the outstanding amount takes the outstanding percentage. Any other amount takes its truncated share of the grand total. |
| Transactions.ResolveByPercentage | app/Repositories/TransactionRepository.php:295-312 | A percentage above outstanding % minus pending % is refused. Exactly the outstanding percentage takes the outstanding amount. Any other percentage takes its truncated share of the grand total. |
| Transactions.ResolveAmountAsWritten | app/Repositories/TransactionRepository.php:268-314 | Amount mode and percentage mode as written. A request with neither is refused. |
| Transactions.ResolveAmount | app/Repositories/TransactionRepository.php:268-314 | Corrected resolution. It accepts exactly what the code accepts whose amount fits within outstanding minus pending, with the same amount and percentage. Every other request gets the code's refusal, or a percentage refusal when the derived amount does not fit. Amount mode is unchanged. |
| Transactions.ResolveAmountOnlyRefuses | app/Repositories/TransactionRepository.php:268-314 | The correction only adds refusals: what the corrected resolution accepts, the code as written accepts with the same figures. |
| Transactions.PercentageGuardOvershoot | app/Repositories/TransactionRepository.php:301-312 | A 100% request on an order with grand total 1000 and 5 pending passes the written guard for 1000 although only 995 remains. The corrected guard refuses it. |
| Transactions.ResolvePayerAsWritten | app/Repositories/TransactionRepository.php:319-338 | A mobile number with no user fails. A mobile number with a user makes that user the payer. A missing, empty or foreign `paid_by_user_id` makes the customer the payer. A valid one leaves the payer undefined. |
| Transactions.ResolvePayer | app/Repositories/TransactionRepository.php:319-338 | Corrected: a valid `paid_by_user_id` is the payer. A matched mobile number's user is the payer, a missing, empty or foreign id gives the customer, and an unmatched mobile number fails, as written. |
| Transactions.PaidByUserIdIgnored | app/Repositories/TransactionRepository.php:328-336 | For every user of the order named by id, the code as written fails and the corrected one pays by that user. |
| Transactions.NewOrderTransaction | app/Repositories/TransactionRepository.php:354-379 | Exactly one of requested-by / verified-by is set. `verified_by` is System iff no verifying user. The status is Paid iff user-verified, otherwise Pending Payment. |
| Transactions.CreateOrderTransaction | app/Repositories/TransactionRepository.php:248-421 | Uses the corrected amount and payer resolution. The refusals come in the source's order, each with its own error: cancelled order, fully paid, no outstanding percentage, amount or percentage, payer, then a live pending payment of the payer. The pending check applies only to requested payments. Creation succeeds iff none of these refusals applies. A success appends exactly one live transaction with the resolved payer, amount and percentage. That amount fits within outstanding minus pending. The stored paid or pending total grows by exactly that amount. |
| Transactions.CreatePreservesWellFormed | app/Repositories/TransactionRepository.php:248-421 | Creating a transaction with the corrected resolution keeps the ledger invariant. The code as written does not (see Findings). |
| Transactions.SecondRequestRefused | app/Repositories/TransactionRepository.php:450-469 | A second requested payment for the same payer is refused while the first is pending. |
| Transactions.Cancel | app/Repositories/TransactionRepository.php:743-778 | Succeeds exactly when the order is not cancelled; a cancelled order refuses the change. On success only that transaction is flagged cancelled, and the recomputed totals are the live sums of the old ledger minus its contribution (the stored totals, when they were current). Nothing else about the order changes. |
| Transactions.Uncancel | app/Repositories/TransactionRepository.php:785-844 | Each refusal is an iff, in the source's order: a cancelled order; an amount above outstanding minus pending; a pending payment whose payer already has a live one. It succeeds exactly when none applies. Then only the flag clears, and nothing else about the order changes except the recomputed balance. |
| Transactions.CancelUncancelRoundTrip | app/Repositories/TransactionRepository.php:743-844 | Cancelling a live transaction of a well-formed order and then un-cancelling it restores the order exactly. |
| Transactions.CancelPreservesWellFormed | app/Repositories/TransactionRepository.php:743-778 | Cancelling keeps the ledger invariant. |
| Transactions.UncancelPreservesWellFormed | app/Repositories/TransactionRepository.php:785-844 | Un-cancelling keeps the ledger invariant. |
| Transactions.DeleteTransaction | app/Repositories/TransactionRepository.php:1044-1087 | A transaction without a payment method fails before anything else, whatever its owner. Otherwise it succeeds exactly for an order-owned transaction. The order then loses exactly that transaction and its contribution to the totals. Nothing else about the order changes. |
| Transactions.DeletePreservesWellFormed | app/Repositories/TransactionRepository.php:1068-1080 | Deleting keeps the ledger invariant. |
| Transactions.CreateSubscriptionTransaction | app/Repositories/TransactionRepository.php:625-699 | Subscription and SMS-credit transactions are Paid, 100%, requested by the acting user, with no verifying user. |
| Transactions.SubscriptionPaymentIsSettled | app/Repositories/TransactionRepository.php:676-681 | Among the transactions of the subscription or SMS-credit owner it is added to, the new transaction adds its whole amount to the paid total and nothing to the pending total. |
| OrderPayments.RequestPayment | app/Repositories/OrderRepository.php:1833-1928 | A zero grand total and an order that cannot request payment are refused, in that order. An unknown payment method does nothing. Otherwise the result is exactly the corrected creation of a requested payment: it succeeds iff that creation does, with its refusals passed through. A success keeps the earlier transactions and adds one pending transaction requested by the caller. |
| OrderPayments.MarkAsUnverifiedPayment | app/Repositories/OrderRepository.php:2001-2064 | The creation guards apply: cancelled, fully paid, no outstanding percentage. It succeeds iff they pass and the amount and payer resolve. A live pending payment of the payer does not block it. The new transaction is Paid, verified by the team member, requested by nobody, and within outstanding minus pending. Paid grows by its amount, pending is unchanged, and nothing else changes. |
| OrderPayments.MarkAsUnverifiedPreservesWellFormed | app/Repositories/OrderRepository.php:2001-2064 | Recording a confirmed payment keeps the ledger invariant, even when the payer also has a payment pending. |
| OrderPayments.LatestPendingOf | app/Repositories/OrderRepository.php:1967-1970 | Finds the caller's latest live pending payment. There is none iff the caller has no live pending payment. |
| OrderPayments.MarkAsVerifiedPayment | app/Repositories/OrderRepository.php:1950-1990 | A zero grand total is refused. A caller with no live pending payment is refused. It succeeds exactly when neither applies. Then exactly one of the caller's pending payments becomes Paid, and its amount moves from pending to paid. Nothing else about the order changes. |
| OrderPayments.MarkAsVerifiedPreservesWellFormed | app/Repositories/OrderRepository.php:1950-1990 | Marking a payment as paid keeps the ledger invariant. |
| OrderPayments.RequestPaymentPreservesWellFormed | app/Repositories/OrderRepository.php:1833-1928 | Requesting a payment keeps the ledger invariant. |
| Collection.GenerateCollectionCode | app/Repositories/OrderRepository.php:2142-2209 | A collected order refuses. A caller without `can_collect` is denied. Otherwise exactly the caller's rows hold the new code, with its QR code and an expiry 120 s ahead, and all other rows are untouched. |
| Collection.RevokeCollectionCode | app/Repositories/OrderRepository.php:2217-2260 | The same two guards apply. Code and QR code are cleared on every association of the order. Expiry times are left as they were. |
| Collection.FirstWithCode | app/Repositories/OrderRepository.php:2368-2371 | Finds the first association holding the supplied code. There is none iff no association holds it. |
| Collection.FirstWithMobile | app/Repositories/OrderRepository.php:2397-2407 | Finds the first association whose user has a number with that verification code. There is none iff no association's user has one. |
| Collection.MarkCollected | app/Repositories/OrderRepository.php:2462-2483 | Sets status Completed, `collection_verified`, verifier, collector and time. Clears code, QR code and expiry on every association. Leaves the ledger untouched. |
| Collection.UpdateStatusToCompletedAsWritten | app/Repositories/OrderRepository.php:2351-2483 | A collected order refuses. A success leaves the order collected, with the ledger unchanged. |
| Collection.UpdateStatusToCompleted | app/Repositories/OrderRepository.php:2351-2483 | A success goes one of two ways. One is an unexpired order code held by the collector. The other is a collector's mobile verification code, which is then revoked. Each refusal is an iff, and there is no other: it succeeds exactly when none applies. Expired: the first association holding the code has no future expiry. Not permitted: no association holds the code, and the first one whose user's mobile code it is may not collect. Incorrect: no code, or neither lookup matches. |
| Collection.IssueThenRedeemInTime | app/Repositories/OrderRepository.php:2142-2209 | A code used less than 120 s after issue completes the order, collected by the user it was issued to. |
| Collection.MobileCodeCompletesOrder | app/Repositories/OrderRepository.php:2389-2483 | A mobile verification code just sent to a collector's number completes the order when no collection code equals it and every association it matches may collect. The collector may collect, and the code is used up. |
| Collection.IssueThenRedeemLate | app/Repositories/OrderRepository.php:2374-2387 | The same code used 120 s or more after issue is refused as expired. |
| Collection.RevokedCodeRejected | app/Repositories/OrderRepository.php:2217-2260 | After a revoke, the old code is refused as incorrect unless it is somebody's mobile verification code. |
| Collection.CollectedIsFinal | app/Repositories/OrderRepository.php:2359 | After a successful collection, collecting again, issuing and revoking are all refused as already collected. |
| Collection.MissingCodeCompletesOrder | app/Repositories/OrderRepository.php:2362-2385 | As written, an issued and then revoked code lets a request with no code complete the order. The corrected rule refuses that request. |
| Auth.GenerateCode | app/Repositories/AuthRepository.php:333-359 | Upsert by mobile number: afterwards exactly the new code verifies for that number, and other numbers are unaffected. |
| Auth.RevokeRequestCode | app/Repositories/AuthRepository.php:406-423 | No-op for USSD requests and when no mobile number is filled in. Otherwise no code verifies for that number afterwards. It never makes a code valid. |
| Auth.RevokeUserCode | app/Repositories/AuthRepository.php:432-436 | No code verifies for the user's number afterwards. Other numbers are unaffected. |
| Auth.LatestCodeWins | app/Repositories/AuthRepository.php:341-344 | After two generations for one number, only the second code verifies. |
| Auth.GenerateRevokeVerify | app/Repositories/AuthRepository.php:366-375 | A freshly generated code verifies. After revocation no code does. |
| Auth.RemoveTokens | app/Repositories/AuthRepository.php:674-684 | The chosen tokens are deleted and dropped from the cache. Nothing else is. |
| Auth.RemoveCurrentToken | app/Repositories/AuthRepository.php:650-684 | Given the current token's model instance, `get()` reads the whole table: the cached user of every token is forgotten, while only the current token is deleted. |
| Auth.Logout | app/Repositories/AuthRepository.php:451-493 | A super admin logging out another super admin is refused. "everyone", or a super admin logging out someone else, removes every token of the target and its cached user. "others" does the same for all but the current token. The default deletes only the current token, but forgets the cached user of every token in the table. |
| Auth.LooseFlagAcceptsFalse | app/Repositories/AuthRepository.php:457-460 | The loose flag test accepts every value the intended one does, and also the string "false". |
| Auth.LogoutAsWritten | app/Repositories/AuthRepository.php:451-474 | With loose flags, any truthy `everyone` removes all the target's tokens. |
| Auth.EveryoneFalseLogsOutEverywhere | app/Repositories/AuthRepository.php:457-474 | As written, `everyone=false` signs a user out of both devices. With the intended test only the current device is signed out. |
| Auth.SuperAdminProtected | app/Repositories/AuthRepository.php:466-469 | Another super admin is never logged out, whatever the flags. |
| Auth.TokenName | app/Repositories/AuthRepository.php:690-703 | A filled-in device name names the token. A missing or blank one gives the user's name. |
| Auth.SignIn | app/Repositories/AuthRepository.php:544-557 | A non-USSD sign-in leaves the user exactly one token, the new one. A USSD sign-in adds it to the existing ones. Other users' tokens are unaffected and the new token is cached. |
| Auth.SecondSignInEndsFirst | app/Repositories/AuthRepository.php:619-630 | A second web sign-in ends the first session. |
| Permissions.AnyGrantAllows | app/Traits/UserTrait.php:190-195 | A grant list allows a permission iff one grant is '*' or equals it ignoring ASCII case. |
| Permissions.FirstJoined | app/Traits/UserTrait.php:187 | Finds the first joined membership of the store. There is none iff no membership of the store is joined. |
| Permissions.HasStorePermission | app/Traits/UserTrait.php:152-216 | A missing store id (not a store, order or product, or id 0) is an error. The answer is true iff the cache said true or the joined membership grants it. A cached null or false is recomputed when there is a membership and kept otherwise. The answer is always written back. |
| Permissions.PermissionCheckIdempotent | app/Traits/UserTrait.php:181-207 | Checking again with the cache left behind gives the same answer and the same cache. |
| Permissions.CachedFalseRefreshedCachedTrueKept | app/Traits/UserTrait.php:184-199 | A cached false is overridden by a granting membership. A cached true is believed as is. |
| Permissions.HasStorePermissionUsingRequest | app/Traits/UserTrait.php:107-142 | A route with no store, product or order is an error. Otherwise the answer is the permission check on the store id of the first of store, product, order present. |
| Permissions.SameStoreSameCheck | app/Traits/UserTrait.php:152-176 | A check depends on its subject only through the store id. A store, one of its orders and one of its products get the same answer and leave the same cache. |
| Permissions.RouteStoreDecides | app/Traits/UserTrait.php:113-118 | Once a route carries a store, its product and order play no part in the answer. |
| Permissions.IsAssignedToStoreAsTeamMember | app/Traits/UserTrait.php:80-96 | True iff some joined membership of the store has one of the roles, where no roles means all team-member roles. |
| Permissions.NotJoinedNotAssigned | app/Traits/UserTrait.php:92 | A user who has not joined the store is never assigned. |
| Permissions.UpdateLastSeenAtStore | app/Traits/UserTrait.php:43-69 | SMS and unknown platforms are refused. Otherwise the (store, user) row is upserted with `last_seen_at` and the request platform's column set to now, other platform columns kept, and other rows unchanged. |
| Permissions.OnePlatformStamped | app/Traits/UserTrait.php:55-63 | Exactly one platform column takes the new time. |
| Permissions.SmsAlertsPaidMessage | app/Traits/UserTrait.php:286-288 | The message opens with the amount. The purchased count is followed by its own word, and the message closes with the word for the balance. |
| Permissions.SmsAlertsPlural | app/Traits/UserTrait.php:286-288 | The message ends in the plural exactly when the balance is not one. The purchased count takes the plural exactly when it is not one. |

## Left out

- Persistence, notifications, SMS dispatch, broadcasting, QR image generation and AWS file deletion are left out. They are I/O that does not feed back into the rules modelled here.
- Payment gateways are left out: creating, cancelling or verifying DPO and Orange Money payment links, and payment shortcodes. `RequestPayment` stops once the pending transaction exists.
- The proof-of-payment photo of `markAsUnverifiedPayment` is left out.
- Transaction descriptions and every message string are left out.
- Floating point is not modelled. `updateOrderAmountBalance` divides in floats and casts with `(int)`; the model divides integers exactly, so results can differ where a float quotient sits just below an integer.
- Transactions.ResolveByAmount: the source stores the percentage of a partial payment as an uncast float (TransactionRepository.php:292). The model stores it truncated toward zero.
- Transactions.ResolveByPercentage: the source stores the amount of a partial payment as an uncast float (TransactionRepository.php:312). The model stores it truncated toward zero.
- Transactions.CreateOrderTransaction: assumes the stored balance is current (`Consistent`). `createOrUpdateOrder` (OrderRepository.php:1072-1095) rewrites an updatable order's grand total and outstanding amount without a recompute. An Unpaid order can hold pending payments below 1% of the total, so its stored figures can be stale. Creation on such an order is not modelled.
- OrderPayments.RequestPayment: assumes the stored balance is current, as for Transactions.CreateOrderTransaction.
- OrderPayments.MarkAsUnverifiedPayment: assumes the stored balance is current, as for Transactions.CreateOrderTransaction.
- Concurrency is not modelled. The source checks and then writes without locks, so two concurrent requests can both pass the pending-payment or outstanding-amount guards.
- Amounts are non-negative (`nat`). Request validation, which is not part of this model, rejects negative amounts.
- OrderPayments.MarkAsVerifiedPayment: the order model's `authTransactionPendingPayment` relation is not part of this model. It is taken to be the caller's latest live pending transaction.
- Transactions.Cancel: only order-owned transactions are modelled. For other owners the source only flips the flag, with no guard and no recompute.
- Transactions.CreateSubscriptionTransaction: the subscription price and duration calculations and the choice of paying user belong to other repositories. They are parameters.
- Transactions.CreateSubscriptionTransaction: the source never writes `verified_by`. The model assumes the column's default, 'System'; the database schema is not part of this model.
- `updateStatus` for non-completed statuses is left out: it only stores the status word.
- `login`, `register` and `resetPassword` are left out. Password hashing and account lookup are outside the modelled core; only the token branch of sign-in is modelled.
- Permissions.HasStorePermission: only the authenticated user's own check is modelled. The source keys the cache by the authenticated user even when asking about another user.
- Permissions.HasStorePermission: loose `==` between two numeric-looking permission strings compares them as numbers. The model compares grants as strings.
- Permissions.IsAssignedToStoreAsTeamMember: role matching is exact. The database collation may ignore case.
- Permissions.IsAssignedToStoreAsTeamMember: the list of all team-member roles lives in a pivot model that is not part of this model. It is a parameter.
- Permissions.UpdateLastSeenAtStore: the platform is a parameter. How the platform manager reads the request header is not part of this model.
- Permissions.SmsAlertsPaidMessage: the money amount and the two counts arrive already rendered as text. Money formatting and number rendering are not modelled.
- Collection.GenerateCollectionCode: the code generator is a parameter, required to return a code not in use on the order. Its six-digit format is not modelled.
- Collection.UpdateStatusToCompleted: the users' mobile numbers are a map from user to number. The same number is used to revoke the collector's verification code, although the source revokes by the number with its country extension.

## Findings

| source | as written | input that shows it | evidently intended | confidence | as-written member | corrected member |
|---|---|---|---|---|---|---|
| app/Repositories/TransactionRepository.php:301-312 | The percentage-mode ceiling compares truncated percentages. A pending amount below 1% of the total counts as 0%. | Grand total 1000, one live pending payment of 5, request for 100%: accepted for 1000 while only 995 remains payable. | The amount a percentage works out to also stays within outstanding minus pending, as in amount mode. | medium, not executed | Transactions.ResolveAmountAsWritten, Transactions.PercentageGuardOvershoot | Transactions.ResolveAmount |
| app/Repositories/TransactionRepository.php:328-336 | When `paid_by_user_id` names a user of the order, `$payerUserId` is never assigned. The next use reads an undefined variable, which Laravel turns into an error. | Any request without a mobile number whose `paid_by_user_id` is one of the order's users. | That user is the payer. | high, not executed | Transactions.ResolvePayerAsWritten, Transactions.PaidByUserIdIgnored | Transactions.ResolvePayer |
| app/Repositories/AuthRepository.php:457-460 | `in_array` with loose comparison against a list containing `true` accepts every truthy value. | `everyone=false`: the user is logged out of every device. | Only `true`, `'true'`, `1` and `'1'` count. | medium, not executed | Auth.LogoutAsWritten, Auth.EveryoneFalseLogsOutEverywhere | Auth.Logout |
| app/Repositories/OrderRepository.php:2362-2385 | With no `collection_code` in the request, `where('collection_code', null)` matches rows whose code was revoked. Revoking keeps the expiry, so the match counts as unexpired. | Code issued at 0 and revoked at 10. At 20 a completion request without any code completes the order. | A request without a code is an incorrect code. | low (the request validation is not part of this model), not executed | Collection.UpdateStatusToCompletedAsWritten, Collection.MissingCodeCompletesOrder | Collection.UpdateStatusToCompleted |
