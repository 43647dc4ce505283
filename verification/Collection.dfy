/** The order collection protocol: a user allowed to collect an order asks
    for a six digit collection code (valid for 120 seconds), may revoke it,
    and a team member marks the order as collected by entering either that
    code or the collector's mobile verification code. Once an order is
    collected (`collection_verified`) every step is refused. Times are
    seconds on one clock; `now` is a parameter. */
module Collection {
  import opened Results
  import opened Ledger
  import opened Orders
  import Auth

  /** Seconds a collection code stays valid after it is issued. */
  const CodeLifetime: int := 120

  datatype CollectionError =
    | OrderAlreadyCollected
    | AccessDenied
    | CodeExpired
    | NotPermittedToCollect
    | CodeIncorrect

  /** The caller has an association with `can_collect` set. */
  predicate MayCollect(o: Order, user: UserId) {
    exists i :: 0 <= i < |o.collectors| && o.collectors[i].userId == user && o.collectors[i].canCollect
  }

  /** Some association of the order currently holds `code`. */
  predicate CodeInUse(o: Order, code: string) {
    exists i :: 0 <= i < |o.collectors| && o.collectors[i].code == Some(code)
  }

  /** The associations keep their users and `can_collect` flags. */
  predicate SameCollectors(a: seq<CollectionAssociation>, b: seq<CollectionAssociation>) {
    |a| == |b| &&
    forall i :: 0 <= i < |a| ==> a[i].userId == b[i].userId && a[i].canCollect == b[i].canCollect
  }

  /** A stored expiry is in the future. A missing expiry parses as "now",
      which is not in the future. */
  predicate IsFuture(expiresAt: Option<int>, now: int) {
    expiresAt.Some? && expiresAt.value > now
  }

  // ---------------------------------------------------------------------
  // generateCollectionCode / revokeCollectionCode
  // ---------------------------------------------------------------------

  /** `generateCollectionCode`: refused once the order is collected and for
      a caller who may not collect it; otherwise every association row of
      the caller gets the code, its QR code image and an expiry 120 seconds
      from now. `code` comes from the six digit generator, which never
      returns a code already held on the order; `qrCode` is the stored QR
      image. */
  function GenerateCollectionCode(o: Order, caller: UserId, now: int, code: string, qrCode: string)
    : (r: Result<Order, CollectionError>)
    requires !CodeInUse(o, code)
    ensures o.collectionVerified ==> r == Failure(OrderAlreadyCollected)
    ensures !o.collectionVerified && !MayCollect(o, caller) ==> r == Failure(AccessDenied)
    ensures r.Success? <==> !o.collectionVerified && MayCollect(o, caller)
    ensures r.Success? ==>
      && r.value.(collectors := o.collectors) == o
      && SameCollectors(r.value.collectors, o.collectors)
      && (forall i :: 0 <= i < |o.collectors| ==>
            (r.value.collectors[i].code == Some(code) <==> o.collectors[i].userId == caller))
      && (forall i :: 0 <= i < |o.collectors| && o.collectors[i].userId == caller ==>
            && r.value.collectors[i].qrCode == Some(qrCode)
            && r.value.collectors[i].expiresAt == Some(now + CodeLifetime))
      && (forall i :: 0 <= i < |o.collectors| && o.collectors[i].userId != caller ==>
            r.value.collectors[i] == o.collectors[i])
  {
    if o.collectionVerified then Failure(OrderAlreadyCollected)
    else if !MayCollect(o, caller) then Failure(AccessDenied)
    else
      var cs := o.collectors;
      Success(o.(collectors := seq(|cs|, i requires 0 <= i < |cs| =>
        if cs[i].userId == caller
        then cs[i].(code := Some(code), qrCode := Some(qrCode), expiresAt := Some(now + CodeLifetime))
        else cs[i])))
  }

  /** `revokeCollectionCode`: the same two guards; then the code and QR code
      of EVERY association of the order are cleared, while the expiry
      times stay as they were. */
  function RevokeCollectionCode(o: Order, caller: UserId): (r: Result<Order, CollectionError>)
    ensures o.collectionVerified ==> r == Failure(OrderAlreadyCollected)
    ensures !o.collectionVerified && !MayCollect(o, caller) ==> r == Failure(AccessDenied)
    ensures r.Success? <==> !o.collectionVerified && MayCollect(o, caller)
    ensures r.Success? ==>
      && r.value.(collectors := o.collectors) == o
      && SameCollectors(r.value.collectors, o.collectors)
      && (forall i :: 0 <= i < |o.collectors| ==>
            && r.value.collectors[i].code.None?
            && r.value.collectors[i].qrCode.None?
            && r.value.collectors[i].expiresAt == o.collectors[i].expiresAt)
  {
    if o.collectionVerified then Failure(OrderAlreadyCollected)
    else if !MayCollect(o, caller) then Failure(AccessDenied)
    else
      var cs := o.collectors;
      Success(o.(collectors := seq(|cs|, i requires 0 <= i < |cs| => cs[i].(code := None, qrCode := None))))
  }

  // ---------------------------------------------------------------------
  // updateStatusToCompleted
  // ---------------------------------------------------------------------

  /** The first association whose stored code equals the supplied one.
      `where('collection_code', null)` matches a null column, so a missing
      supplied code finds an association without a code. */
  function FirstWithCode(cs: seq<CollectionAssociation>, supplied: Option<string>): (r: Option<nat>)
    ensures r.Some? ==> r.value < |cs| && cs[r.value].code == supplied
    ensures r.Some? ==> forall j :: 0 <= j < r.value ==> cs[j].code != supplied
    ensures r.None? <==> forall j :: 0 <= j < |cs| ==> cs[j].code != supplied
  {
    if |cs| == 0 then None
    else if cs[0].code == supplied then Some(0)
    else
      match FirstWithCode(cs[1..], supplied)
      case None => None
      case Some(k) => Some(k + 1)
  }

  /** Mobile numbers whose verification row holds the supplied code (a null
      code matches revoked rows, as above). */
  function MatchingMobiles(v: Auth.Verifications, supplied: Option<string>): set<string> {
    set m | m in v && v[m] == supplied
  }

  /** The user of an association has one of the given mobile numbers. */
  predicate HasMobileIn(a: CollectionAssociation, mobileOf: map<UserId, string>, mobiles: set<string>) {
    a.userId in mobileOf && mobileOf[a.userId] in mobiles
  }

  /** The first association whose user has one of the given numbers. */
  function FirstWithMobile(cs: seq<CollectionAssociation>, mobileOf: map<UserId, string>, mobiles: set<string>)
    : (r: Option<nat>)
    ensures r.Some? ==> r.value < |cs| && HasMobileIn(cs[r.value], mobileOf, mobiles)
    ensures r.Some? ==> forall j :: 0 <= j < r.value ==> !HasMobileIn(cs[j], mobileOf, mobiles)
    ensures r.None? <==> forall j :: 0 <= j < |cs| ==> !HasMobileIn(cs[j], mobileOf, mobiles)
  {
    if |cs| == 0 then None
    else if HasMobileIn(cs[0], mobileOf, mobiles) then Some(0)
    else
      match FirstWithMobile(cs[1..], mobileOf, mobiles)
      case None => None
      case Some(k) => Some(k + 1)
  }

  /** The order marked as collected: status Completed, the one-way
      `collection_verified` flag, who verified, who collected and when, and
      every association's code, QR code and expiry cleared. */
  function MarkCollected(o: Order, collector: UserId, verifier: UserId, now: int): (r: Order)
    ensures Collected(r, verifier, now) && r.collectedBy == Some(collector)
    ensures SameCollectors(r.collectors, o.collectors)
    ensures LedgerUnchanged(o, r)
  {
    var cs := o.collectors;
    o.(status := Completed,
       collectionVerified := true,
       collectionVerifiedAt := Some(now),
       collectionVerifiedBy := Some(verifier),
       collectedBy := Some(collector),
       collectors := seq(|cs|, i requires 0 <= i < |cs| => cs[i].(code := None, qrCode := None, expiresAt := None)))
  }

  /** What a successful collection leaves behind. */
  predicate Collected(r: Order, verifier: UserId, now: int) {
    && r.status == Completed
    && r.collectionVerified
    && r.collectionVerifiedBy == Some(verifier)
    && r.collectionVerifiedAt == Some(now)
    && r.collectedBy.Some?
    && forall i :: 0 <= i < |r.collectors| ==>
         r.collectors[i].code.None? && r.collectors[i].qrCode.None? && r.collectors[i].expiresAt.None?
  }

  /** Collecting touches neither the customer, the cart totals nor the
      payment ledger. */
  predicate LedgerUnchanged(a: Order, b: Order) {
    && b.id == a.id && b.storeId == a.storeId && b.customer == a.customer && b.users == a.users
    && b.grandTotal == a.grandTotal && b.balance == a.balance
    && b.canRequestPayment == a.canRequestPayment && b.transactions == a.transactions
  }

  /** A successful collection and the verification codes afterwards (the
      collector's mobile verification code is revoked when it was used). */
  datatype Redemption = Redemption(order: Order, verifications: Auth.Verifications)

  /** `updateStatusToCompleted` as written. The supplied code is first
      looked up among the order's collection codes: a match must not have
      expired. Otherwise it is looked up among the mobile verification
      codes: the first association whose user has a matching number
      decides: that user must be allowed to collect, and their mobile
      code is then revoked. No match at all is an incorrect code.
      `mobileOf` maps users to their mobile numbers and `verifier` is the
      team member entering the code. */
  function UpdateStatusToCompletedAsWritten(o: Order, supplied: Option<string>, now: int, verifier: UserId,
                                            v: Auth.Verifications, mobileOf: map<UserId, string>)
    : (r: Result<Redemption, CollectionError>)
    ensures o.collectionVerified ==> r == Failure(OrderAlreadyCollected)
    ensures r.Success? ==>
      && Collected(r.value.order, verifier, now)
      && SameCollectors(r.value.order.collectors, o.collectors)
      && LedgerUnchanged(o, r.value.order)
  {
    if o.collectionVerified then Failure(OrderAlreadyCollected)
    else
      match FirstWithCode(o.collectors, supplied)
      case Some(i) =>
        if IsFuture(o.collectors[i].expiresAt, now)
        then Success(Redemption(MarkCollected(o, o.collectors[i].userId, verifier, now), v))
        else Failure(CodeExpired)
      case None =>
        match FirstWithMobile(o.collectors, mobileOf, MatchingMobiles(v, supplied))
        case None => Failure(CodeIncorrect)
        case Some(j) =>
          var a := o.collectors[j];
          if a.canCollect
          then Success(Redemption(MarkCollected(o, a.userId, verifier, now), Auth.RevokeUserCode(v, mobileOf[a.userId])))
          else Failure(NotPermittedToCollect)
  }

  /** `updateStatusToCompleted` with a collection code required: a request
      without one is an incorrect code instead of matching null columns. */
  function UpdateStatusToCompleted(o: Order, supplied: Option<string>, now: int, verifier: UserId,
                                   v: Auth.Verifications, mobileOf: map<UserId, string>)
    : (r: Result<Redemption, CollectionError>)
    ensures o.collectionVerified ==> r == Failure(OrderAlreadyCollected)
    ensures !o.collectionVerified && supplied.None? ==> r == Failure(CodeIncorrect)
    ensures r.Success? ==>
      && supplied.Some?
      && Collected(r.value.order, verifier, now)
      && SameCollectors(r.value.order.collectors, o.collectors)
      && LedgerUnchanged(o, r.value.order)
    // Collected with an unexpired collection code of the order, by the
    // holder of the first association holding it.
    ensures r.Success? && CodeInUse(o, supplied.value) ==>
      exists i :: 0 <= i < |o.collectors| && o.collectors[i].code == supplied &&
        IsFuture(o.collectors[i].expiresAt, now) &&
        r.value.order.collectedBy == Some(o.collectors[i].userId) &&
        r.value.verifications == v
    // Collected with a mobile verification code, by a user allowed to
    // collect, whose code is then revoked.
    ensures r.Success? && !CodeInUse(o, supplied.value) ==>
      exists j :: 0 <= j < |o.collectors| && o.collectors[j].canCollect &&
        o.collectors[j].userId in mobileOf &&
        Auth.Verify(v, mobileOf[o.collectors[j].userId], supplied.value) &&
        r.value.order.collectedBy == Some(o.collectors[j].userId) &&
        !Auth.Verify(r.value.verifications, mobileOf[o.collectors[j].userId], supplied.value)
    // Expired: the first association holding the code has no expiry in
    // the future.
    ensures r == Failure(CodeExpired) <==>
      !o.collectionVerified && supplied.Some? &&
      var k := FirstWithCode(o.collectors, supplied);
      k.Some? && !IsFuture(o.collectors[k.value].expiresAt, now)
    // Not permitted: no association holds the code, and the first one whose
    // user's mobile verification code it is may not collect.
    ensures r == Failure(NotPermittedToCollect) <==>
      !o.collectionVerified && supplied.Some? && !CodeInUse(o, supplied.value) &&
      var k := FirstWithMobile(o.collectors, mobileOf, MatchingMobiles(v, supplied));
      k.Some? && !o.collectors[k.value].canCollect
    // No refusal other than the four above.
    ensures r.Success? <==>
      && r != Failure(OrderAlreadyCollected) && r != Failure(CodeExpired)
      && r != Failure(NotPermittedToCollect) && r != Failure(CodeIncorrect)
    ensures r == Failure(CodeIncorrect) <==>
      !o.collectionVerified &&
      (supplied.None? ||
       (!CodeInUse(o, supplied.value) &&
        forall j :: 0 <= j < |o.collectors| ==>
          !(o.collectors[j].userId in mobileOf && Auth.Verify(v, mobileOf[o.collectors[j].userId], supplied.value))))
  {
    if o.collectionVerified then Failure(OrderAlreadyCollected)
    else if supplied.None? then Failure(CodeIncorrect)
    else
      CodeInUseFound(o, supplied.value);
      MobileMatch(o.collectors, mobileOf, v, supplied.value);
      UpdateStatusToCompletedAsWritten(o, supplied, now, verifier, v, mobileOf)
  }

  /** The lookup by code finds an association exactly when the code is in
      use on the order. */
  lemma CodeInUseFound(o: Order, code: string)
    ensures FirstWithCode(o.collectors, Some(code)).None? <==> !CodeInUse(o, code)
  {
  }

  /** An association's user has a number in `MatchingMobiles` exactly when
      that number's verification code is the supplied one. */
  lemma MobileMatch(cs: seq<CollectionAssociation>, mobileOf: map<UserId, string>, v: Auth.Verifications, code: string)
    ensures forall j :: 0 <= j < |cs| ==>
      (HasMobileIn(cs[j], mobileOf, MatchingMobiles(v, Some(code))) <==>
       (cs[j].userId in mobileOf && Auth.Verify(v, mobileOf[cs[j].userId], code)))
  {
  }

  // ---------------------------------------------------------------------
  // Properties of the protocol
  // ---------------------------------------------------------------------

  /** A code used within 120 seconds of being issued completes the order,
      collected by the user it was issued to. */
  lemma IssueThenRedeemInTime(o: Order, caller: UserId, issuedAt: int, code: string, qrCode: string,
                              now: int, verifier: UserId, v: Auth.Verifications, mobileOf: map<UserId, string>)
    requires !CodeInUse(o, code)
    requires GenerateCollectionCode(o, caller, issuedAt, code, qrCode).Success?
    requires now < issuedAt + CodeLifetime
    ensures var issued := GenerateCollectionCode(o, caller, issuedAt, code, qrCode).value;
      var r := UpdateStatusToCompleted(issued, Some(code), now, verifier, v, mobileOf);
      r.Success? && r.value.order.collectedBy == Some(caller) && r.value.verifications == v
  {
    var issued := GenerateCollectionCode(o, caller, issuedAt, code, qrCode).value;
    var i :| 0 <= i < |o.collectors| && o.collectors[i].userId == caller && o.collectors[i].canCollect;
    assert issued.collectors[i].code == Some(code);
    var k := FirstWithCode(issued.collectors, Some(code));
    assert k.Some?;
    assert issued.collectors[k.value].userId == caller;
  }

  /** A mobile verification code just sent to a collector's number
      completes the order when no collection code of the order equals it
      and every association whose user the code verifies may collect;
      the code is then used up. */
  lemma MobileCodeCompletesOrder(o: Order, j: nat, code: string, now: int, verifier: UserId,
                                 v: Auth.Verifications, mobileOf: map<UserId, string>)
    requires !o.collectionVerified && !CodeInUse(o, code)
    requires j < |o.collectors| && o.collectors[j].canCollect && o.collectors[j].userId in mobileOf
    requires var sent := Auth.GenerateCode(v, mobileOf[o.collectors[j].userId], code);
      forall i :: 0 <= i < |o.collectors| && HasMobileIn(o.collectors[i], mobileOf, MatchingMobiles(sent, Some(code))) ==>
        o.collectors[i].canCollect
    ensures var sent := Auth.GenerateCode(v, mobileOf[o.collectors[j].userId], code);
      var r := UpdateStatusToCompleted(o, Some(code), now, verifier, sent, mobileOf);
      && r.Success?
      && MayCollect(o, r.value.order.collectedBy.value)
      && !Auth.Verify(r.value.verifications, mobileOf[r.value.order.collectedBy.value], code)
  {
    var sent := Auth.GenerateCode(v, mobileOf[o.collectors[j].userId], code);
    MobileMatch(o.collectors, mobileOf, sent, code);
    assert HasMobileIn(o.collectors[j], mobileOf, MatchingMobiles(sent, Some(code)));
    var k := FirstWithMobile(o.collectors, mobileOf, MatchingMobiles(sent, Some(code)));
    assert k.Some?;
    var r := UpdateStatusToCompleted(o, Some(code), now, verifier, sent, mobileOf);
    assert r.Success? && r.value.order.collectedBy == Some(o.collectors[k.value].userId);
  }

  /** The same code used 120 seconds or more after it was issued is
      rejected as expired. */
  lemma IssueThenRedeemLate(o: Order, caller: UserId, issuedAt: int, code: string, qrCode: string,
                            now: int, verifier: UserId, v: Auth.Verifications, mobileOf: map<UserId, string>)
    requires !CodeInUse(o, code)
    requires GenerateCollectionCode(o, caller, issuedAt, code, qrCode).Success?
    requires now >= issuedAt + CodeLifetime
    ensures var issued := GenerateCollectionCode(o, caller, issuedAt, code, qrCode).value;
      UpdateStatusToCompleted(issued, Some(code), now, verifier, v, mobileOf) == Failure(CodeExpired)
  {
    var issued := GenerateCollectionCode(o, caller, issuedAt, code, qrCode).value;
    var i :| 0 <= i < |o.collectors| && o.collectors[i].userId == caller && o.collectors[i].canCollect;
    assert issued.collectors[i].code == Some(code);
    var k := FirstWithCode(issued.collectors, Some(code));
    assert k.Some?;
    assert issued.collectors[k.value].userId == caller;
  }

  /** A revoked collection code is no longer accepted (unless it happens to
      be somebody's mobile verification code). */
  lemma RevokedCodeRejected(o: Order, caller: UserId, code: string, now: int, verifier: UserId,
                            v: Auth.Verifications, mobileOf: map<UserId, string>)
    requires RevokeCollectionCode(o, caller).Success?
    requires forall m :: !Auth.Verify(v, m, code)
    ensures UpdateStatusToCompleted(RevokeCollectionCode(o, caller).value, Some(code), now, verifier, v, mobileOf)
            == Failure(CodeIncorrect)
  {
    var revoked := RevokeCollectionCode(o, caller).value;
    assert !CodeInUse(revoked, code);
  }

  /** Collection is final: after a successful collection every further
      attempt to collect, issue or revoke a code is refused. */
  lemma CollectedIsFinal(o: Order, supplied: Option<string>, now: int, verifier: UserId,
                         v: Auth.Verifications, mobileOf: map<UserId, string>,
                         again: Option<string>, later: int, caller: UserId, code: string, qrCode: string)
    requires UpdateStatusToCompleted(o, supplied, now, verifier, v, mobileOf).Success?
    ensures var done := UpdateStatusToCompleted(o, supplied, now, verifier, v, mobileOf).value;
      && UpdateStatusToCompleted(done.order, again, later, verifier, done.verifications, mobileOf) == Failure(OrderAlreadyCollected)
      && RevokeCollectionCode(done.order, caller) == Failure(OrderAlreadyCollected)
      && (!CodeInUse(done.order, code) ==>
            GenerateCollectionCode(done.order, caller, later, code, qrCode) == Failure(OrderAlreadyCollected))
  {
  }

  // ---------------------------------------------------------------------
  // A request without a collection code
  // ---------------------------------------------------------------------

  /** One customer who may collect, with no code yet. */
  function PickupOrder(): (o: Order)
    ensures !o.collectionVerified && |o.collectors| == 1 && !CodeInUse(o, "123456")
  {
    Order(1, 1, 7, {7}, 100, ComputeBalance(100, []), ReadyForPickup, true, [],
          [CollectionAssociation(7, true, None, None, None)], false, None, None, None)
  }

  /** As written, a code issued at 0 and revoked at 10 leaves its expiry
      behind, and a request at 20 without any collection code matches the
      revoked row (`where` with null becomes `whereNull`) and completes the
      order; with a code required the same request is rejected. */
  lemma MissingCodeCompletesOrder()
    ensures var issued := GenerateCollectionCode(PickupOrder(), 7, 0, "123456", "qr");
      && issued.Success?
      && RevokeCollectionCode(issued.value, 7).Success?
      && var revoked := RevokeCollectionCode(issued.value, 7).value;
      && UpdateStatusToCompletedAsWritten(revoked, None, 20, 9, map[], map[]).Success?
      && UpdateStatusToCompleted(revoked, None, 20, 9, map[], map[]) == Failure(CodeIncorrect)
  {
    var o := PickupOrder();
    assert MayCollect(o, 7) by { assert o.collectors[0].userId == 7; }
    var issued := GenerateCollectionCode(o, 7, 0, "123456", "qr").value;
    assert issued.collectors[0].expiresAt == Some(120);
    assert MayCollect(issued, 7) by { assert issued.collectors[0].userId == 7; }
    var revoked := RevokeCollectionCode(issued, 7).value;
    assert revoked.collectors[0].code.None? && revoked.collectors[0].expiresAt == Some(120);
    assert FirstWithCode(revoked.collectors, None) == Some(0);
  }
}
