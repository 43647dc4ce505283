/** The store-related rules of the user model: whether a user holds a
    permission on a store (with its per-permission cache), whether a user
    is a team member of a store, when a user was last seen at a store, and
    the wording of the SMS-credit payment message. */
module Permissions {
  import opened Results
  import Ledger

  type UserId = Ledger.UserId

  /** A row of `user_store_association` as a team membership: the store,
      `team_member_status` (e.g. "Joined"), `team_member_role` and the
      grants of `team_member_permissions`. */
  datatype Membership = Membership(storeId: nat, status: string, role: string, grants: seq<string>)

  // ---------------------------------------------------------------------
  // hasStorePermission
  // ---------------------------------------------------------------------

  /** ASCII lower-casing, as `strtolower` does. */
  function LowerChar(c: char): (r: char)
    ensures 'A' <= c <= 'Z' ==> r as int == c as int + 32
    ensures !('A' <= c <= 'Z') ==> r == c
  {
    if 'A' <= c <= 'Z' then (c as int + 32) as char else c
  }

  function Lower(s: string): (r: string)
    ensures |r| == |s|
    ensures forall i :: 0 <= i < |s| ==> r[i] == LowerChar(s[i])
  {
    seq(|s|, i requires 0 <= i < |s| => LowerChar(s[i]))
  }

  /** One grant allows a permission: it is the wildcard, or it names the
      permission ignoring case. */
  predicate Allows(grant: string, permission: string) {
    grant == "*" || Lower(grant) == Lower(permission)
  }

  /** `contains` over the grant list. */
  function AnyGrantAllows(grants: seq<string>, permission: string): (r: bool)
    ensures r <==> exists i :: 0 <= i < |grants| && Allows(grants[i], permission)
  {
    if |grants| == 0 then false
    else Allows(grants[0], permission) || AnyGrantAllows(grants[1..], permission)
  }

  /** The first of the user's team memberships that is of the store and
      has status Joined. */
  function FirstJoined(ms: seq<Membership>, storeId: nat): (r: Option<nat>)
    ensures r.Some? ==> r.value < |ms| && ms[r.value].storeId == storeId && ms[r.value].status == "Joined"
    ensures r.Some? ==> forall j :: 0 <= j < r.value ==> !(ms[j].storeId == storeId && ms[j].status == "Joined")
    ensures r.None? <==> forall j :: 0 <= j < |ms| ==> !(ms[j].storeId == storeId && ms[j].status == "Joined")
  {
    if |ms| == 0 then None
    else if ms[0].storeId == storeId && ms[0].status == "Joined" then Some(0)
    else
      match FirstJoined(ms[1..], storeId)
      case None => None
      case Some(k) => Some(k + 1)
  }

  /** The user's joined membership of the store grants the permission. */
  predicate Granted(ms: seq<Membership>, storeId: nat, permission: string) {
    var k := FirstJoined(ms, storeId);
    k.Some? && exists i :: 0 <= i < |ms[k.value].grants| && Allows(ms[k.value].grants[i], permission)
  }

  /** What a permission check is asked about. The store id is read from a
      store, an order or a product; anything else has none. A store id of
      0 counts as missing. */
  datatype Subject = StoreModel(id: nat) | OrderModel(storeId: nat) | ProductModel(storeId: nat) | OtherModel | NoModel

  function StoreIdOf(m: Subject): nat {
    match m
    case StoreModel(id) => id
    case OrderModel(s) => s
    case ProductModel(s) => s
    case _ => 0
  }

  datatype PermissionError = RouteWithoutStoreModel | StoreIdMissing

  /** The cache of answers, keyed by permission and store id. An absent key
      reads as null; a stored null is also possible. */
  type PermissionCache = map<(string, nat), Option<bool>>

  function CacheGet(cache: PermissionCache, key: (string, nat)): Option<bool> {
    if key in cache then cache[key] else None
  }

  /** The answer (true, false or null) and the cache after the check. */
  datatype PermissionCheck = PermissionCheck(answer: Option<bool>, cache: PermissionCache)

  /** `hasStorePermission`. A cached true is returned as is. A cached null
      or false (both loosely equal to null) is recomputed from the joined
      membership, if there is one, and otherwise kept. The answer is always
      written back. */
  function HasStorePermission(ms: seq<Membership>, cache: PermissionCache, subject: Subject, permission: string)
    : (r: Result<PermissionCheck, PermissionError>)
    ensures r.Failure? <==> StoreIdOf(subject) == 0
    ensures r.Success? ==>
      var key := (permission, StoreIdOf(subject));
      && r.value.cache == cache[key := r.value.answer]
      && (r.value.answer == Some(true) <==>
            CacheGet(cache, key) == Some(true) || Granted(ms, StoreIdOf(subject), permission))
      && (CacheGet(cache, key) != Some(true) && FirstJoined(ms, StoreIdOf(subject)).Some? ==>
            r.value.answer == Some(Granted(ms, StoreIdOf(subject), permission)))
      && (CacheGet(cache, key) != Some(true) && FirstJoined(ms, StoreIdOf(subject)).None? ==>
            r.value.answer == CacheGet(cache, key))
  {
    var storeId := StoreIdOf(subject);
    if storeId == 0 then Failure(StoreIdMissing)
    else
      var key := (permission, storeId);
      var cached := CacheGet(cache, key);
      var answer :=
        if cached != Some(true) then
          match FirstJoined(ms, storeId)
          case Some(k) => Some(AnyGrantAllows(ms[k].grants, permission))
          case None => cached
        else cached;
      Success(PermissionCheck(answer, cache[key := answer]))
  }

  /** Asking again with the cache the first check left behind gives the
      same answer and leaves the cache as it is. */
  lemma PermissionCheckIdempotent(ms: seq<Membership>, cache: PermissionCache, subject: Subject, permission: string)
    requires HasStorePermission(ms, cache, subject, permission).Success?
    ensures var first := HasStorePermission(ms, cache, subject, permission).value;
      HasStorePermission(ms, first.cache, subject, permission) == Success(first)
  {
    var first := HasStorePermission(ms, cache, subject, permission).value;
    var key := (permission, StoreIdOf(subject));
    assert CacheGet(first.cache, key) == first.answer;
    var second := HasStorePermission(ms, first.cache, subject, permission).value;
    assert second.answer == first.answer;
    assert second.cache == first.cache;
  }

  /** A cached false does not stick: once the membership grants the
      permission the check answers true. A cached true, on the other hand,
      is believed even when the membership no longer grants it. */
  lemma CachedFalseRefreshedCachedTrueKept(ms: seq<Membership>, cache: PermissionCache, storeId: nat, permission: string)
    requires storeId != 0
    ensures Granted(ms, storeId, permission) && CacheGet(cache, (permission, storeId)) == Some(false) ==>
      HasStorePermission(ms, cache, StoreModel(storeId), permission).value.answer == Some(true)
    ensures CacheGet(cache, (permission, storeId)) == Some(true) ==>
      HasStorePermission(ms, cache, StoreModel(storeId), permission).value.answer == Some(true)
  {
  }

  /** The models a request may carry through route binding, each with its
      store id. */
  datatype RouteModels = RouteModels(store: Option<nat>, product: Option<nat>, order: Option<nat>)

  /** The store id a route carries: its store's, else its product's, else
      its order's. */
  function RouteStoreId(route: RouteModels): Option<nat> {
    if route.store.Some? then route.store
    else if route.product.Some? then route.product
    else route.order
  }

  /** `hasStorePermissionUsingRequest`: the store, else the product, else
      the order of the route decides; a route with none of them is an
      error. */
  function HasStorePermissionUsingRequest(ms: seq<Membership>, cache: PermissionCache, route: RouteModels,
                                          permission: string): (r: Result<PermissionCheck, PermissionError>)
    ensures RouteStoreId(route).None? <==> r == Failure(RouteWithoutStoreModel)
    ensures RouteStoreId(route).Some? ==>
      r == HasStorePermission(ms, cache, StoreModel(RouteStoreId(route).value), permission)
  {
    match (route.store, route.product, route.order)
    case (Some(s), _, _) => HasStorePermission(ms, cache, StoreModel(s), permission)
    case (None, Some(p), _) =>
      SameStoreSameCheck(ms, cache, ProductModel(p), StoreModel(p), permission);
      HasStorePermission(ms, cache, ProductModel(p), permission)
    case (None, None, Some(o)) =>
      SameStoreSameCheck(ms, cache, OrderModel(o), StoreModel(o), permission);
      HasStorePermission(ms, cache, OrderModel(o), permission)
    case (None, None, None) => Failure(RouteWithoutStoreModel)
  }

  /** A permission check depends on what it is asked about only through
      the store id: a store, one of its orders and one of its products get
      the same answer and leave the same cache. */
  lemma SameStoreSameCheck(ms: seq<Membership>, cache: PermissionCache, a: Subject, b: Subject, permission: string)
    requires StoreIdOf(a) == StoreIdOf(b)
    ensures HasStorePermission(ms, cache, a, permission) == HasStorePermission(ms, cache, b, permission)
  {
  }

  /** Once a route carries a store, its product and order play no part. */
  lemma RouteStoreDecides(ms: seq<Membership>, cache: PermissionCache, route: RouteModels, other: RouteModels,
                          permission: string)
    requires route.store.Some? && other.store == route.store
    ensures HasStorePermissionUsingRequest(ms, cache, route, permission) ==
      HasStorePermissionUsingRequest(ms, cache, other, permission)
  {
  }

  // ---------------------------------------------------------------------
  // isAssignedToStoreAsTeamMember
  // ---------------------------------------------------------------------

  /** `isAssignedToStoreAsTeamMember`: a joined membership of the store with
      one of the given roles; no roles means any team member role
      (`teamMemberRoles` is the list of all of them). */
  function IsAssignedToStoreAsTeamMember(ms: seq<Membership>, storeId: nat, roles: seq<string>,
                                         teamMemberRoles: seq<string>): (r: bool)
    ensures r <==> exists i :: 0 <= i < |ms| && ms[i].storeId == storeId && ms[i].status == "Joined" &&
                     ms[i].role in (if |roles| > 0 then roles else teamMemberRoles)
  {
    AnyAssigned(ms, storeId, if |roles| > 0 then roles else teamMemberRoles)
  }

  function AnyAssigned(ms: seq<Membership>, storeId: nat, roles: seq<string>): (r: bool)
    ensures r <==> exists i :: 0 <= i < |ms| && ms[i].storeId == storeId && ms[i].status == "Joined" && ms[i].role in roles
  {
    if |ms| == 0 then false
    else (ms[0].storeId == storeId && ms[0].status == "Joined" && ms[0].role in roles) || AnyAssigned(ms[1..], storeId, roles)
  }

  /** A member who has not joined (invited, declined, left) is never
      assigned, whatever the roles asked for. */
  lemma NotJoinedNotAssigned(ms: seq<Membership>, storeId: nat, roles: seq<string>, teamMemberRoles: seq<string>)
    requires forall i :: 0 <= i < |ms| && ms[i].storeId == storeId ==> ms[i].status != "Joined"
    ensures !IsAssignedToStoreAsTeamMember(ms, storeId, roles, teamMemberRoles)
  {
  }

  // ---------------------------------------------------------------------
  // updateLastSeenAtStore
  // ---------------------------------------------------------------------

  /** The platform the request says it comes from. */
  datatype Platform = Web | Sms | Ussd | Mobile

  /** The last-seen columns of a user's association with a store. */
  datatype LastSeen = LastSeen(at: Option<int>, onWeb: Option<int>, onUssd: Option<int>, onMobile: Option<int>)

  datatype LastSeenError = XPlatformHeaderRequired

  /** `updateLastSeenAtStore`: `updateOrCreate` on (store, user) setting the
      last-seen time and the time for the request's platform. SMS requests
      and requests without a platform are refused. */
  function UpdateLastSeenAtStore(seen: map<(nat, UserId), LastSeen>, storeId: nat, user: UserId,
                                 platform: Option<Platform>, now: int): (r: Result<map<(nat, UserId), LastSeen>, LastSeenError>)
    ensures r.Failure? <==> platform.None? || platform == Some(Sms)
    ensures r.Success? ==>
      var key := (storeId, user);
      var before := if key in seen then seen[key] else LastSeen(None, None, None, None);
      && r.value.Keys == seen.Keys + {key}
      && (forall k :: k in seen && k != key ==> r.value[k] == seen[k])
      && r.value[key].at == Some(now)
      && (r.value[key].onWeb == if platform == Some(Web) then Some(now) else before.onWeb)
      && (r.value[key].onUssd == if platform == Some(Ussd) then Some(now) else before.onUssd)
      && (r.value[key].onMobile == if platform == Some(Mobile) then Some(now) else before.onMobile)
  {
    var key := (storeId, user);
    var before := if key in seen then seen[key] else LastSeen(None, None, None, None);
    match platform
    case Some(Web) => Success(seen[key := before.(at := Some(now), onWeb := Some(now))])
    case Some(Ussd) => Success(seen[key := before.(at := Some(now), onUssd := Some(now))])
    case Some(Mobile) => Success(seen[key := before.(at := Some(now), onMobile := Some(now))])
    case _ => Failure(XPlatformHeaderRequired)
  }

  /** Exactly one platform column moves with `last_seen_at`. */
  lemma OnePlatformStamped(seen: map<(nat, UserId), LastSeen>, storeId: nat, user: UserId, platform: Platform, now: int)
    requires (storeId, user) in seen ==>
      var s := seen[(storeId, user)]; s.onWeb != Some(now) && s.onUssd != Some(now) && s.onMobile != Some(now)
    requires platform != Sms
    ensures var after := UpdateLastSeenAtStore(seen, storeId, user, Some(platform), now).value[(storeId, user)];
      (if after.onWeb == Some(now) then 1 else 0) + (if after.onUssd == Some(now) then 1 else 0) +
      (if after.onMobile == Some(now) then 1 else 0) == 1
  {
  }

  // ---------------------------------------------------------------------
  // craftSmsAlertsPaidSuccessfullyMessage
  // ---------------------------------------------------------------------

  /** The word after a count of SMS alerts: singular for exactly one. */
  function SmsAlertsWord(n: int): string {
    if n == 1 then " sms alert" else " sms alerts"
  }

  /** `craftSmsAlertsPaidSuccessfullyMessage`. The money amount and the two
      counts arrive already rendered as text (`amountText`, `creditsText`,
      `balanceText`); `credits` and `balance` are the counts themselves. */
  function SmsAlertsPaidMessage(amountText: string, credits: int, creditsText: string,
                                balance: int, balanceText: string): (m: string)
    // The amount opens the message.
    ensures |m| >= |amountText| && m[..|amountText|] == amountText
    // The purchased count is followed by its own word ...
    ensures var k := |amountText| + |PaidFor| + |creditsText|;
      k + |SmsAlertsWord(credits)| <= |m| && m[k..k + |SmsAlertsWord(credits)|] == SmsAlertsWord(credits)
    // ... and the message closes with the balance's word.
    ensures |m| >= |SmsAlertsWord(balance)| && m[|m| - |SmsAlertsWord(balance)|..] == SmsAlertsWord(balance)
  {
    var a, b, c := amountText, PaidFor + creditsText, SmsAlertsWord(credits);
    var d, e := YouNowHave + balanceText, SmsAlertsWord(balance);
    Layout(a, b, c, d, e);
    a + b + c + d + e
  }

  const PaidFor: string := " paid successfully for "
  const YouNowHave: string := ". You now have "

  /** Where the first, third and last of five concatenated pieces sit. */
  lemma Layout(a: string, b: string, c: string, d: string, e: string)
    ensures var m := a + b + c + d + e;
      m[..|a|] == a && m[|a| + |b|..|a| + |b| + |c|] == c && m[|m| - |e|..] == e
  {
    var m := a + b + c + d + e;
    assert forall i :: 0 <= i < |a| ==> m[i] == a[i];
    assert forall i :: 0 <= i < |c| ==> m[|a| + |b| + i] == c[i];
    assert forall i :: 0 <= i < |e| ==> m[|m| - |e| + i] == e[i];
  }

  /** The message ends in the plural exactly when the balance is not one,
      and the purchased count takes the singular exactly when it is one. */
  lemma SmsAlertsPlural(amountText: string, credits: int, creditsText: string, balance: int, balanceText: string)
    ensures var m := SmsAlertsPaidMessage(amountText, credits, creditsText, balance, balanceText);
      |m| > 0 && (m[|m| - 1] == 's' <==> balance != 1)
    ensures var m := SmsAlertsPaidMessage(amountText, credits, creditsText, balance, balanceText);
      var k := |amountText| + |PaidFor| + |creditsText|;
      k + 10 < |m| && m[k..k + 10] == " sms alert" && (m[k + 10] == 's' <==> credits != 1)
  {
    var m := SmsAlertsPaidMessage(amountText, credits, creditsText, balance, balanceText);
    var w := SmsAlertsWord(balance);
    assert m[|m| - 1] == m[|m| - |w|..][|w| - 1];
  }
}
