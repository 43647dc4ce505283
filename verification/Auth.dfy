/** The authentication state the auth repository manipulates: the table of
    mobile verification codes (one row per mobile number, the code may be
    null once revoked) and the set of personal access tokens together with
    the cache entries that remember which user a token authenticates. */
module Auth {
  import opened Results
  import Ledger

  type UserId = Ledger.UserId

  // ---------------------------------------------------------------------
  // Mobile verification codes
  // ---------------------------------------------------------------------

  /** `mobile_verifications`: keyed by mobile number, so there is at most one
      row per number; `None` is a revoked (null) code. */
  type Verifications = map<string, Option<string>>

  /** PHP's `trim` character set. */
  predicate IsTrimmed(c: char) {
    c == ' ' || c == '\t' || c == '\n' || c == '\r' || c == '\0' || c == '\U{0B}'
  }

  /** Laravel's `filled` on a string input: not empty after trimming. */
  predicate Blank(s: string) {
    forall i :: 0 <= i < |s| ==> IsTrimmed(s[i])
  }

  /** `verifyMobileVerificationCode`: valid exactly when a row holds that
      mobile number with that very code. */
  predicate Verify(v: Verifications, mobile: string, code: string) {
    mobile in v && v[mobile] == Some(code)
  }

  /** `generateMobileVerificationCode`: `updateOrCreate` keyed by the mobile
      number, so the latest code replaces any earlier one and no other
      number is affected. */
  function GenerateCode(v: Verifications, mobile: string, code: string): (r: Verifications)
    ensures r.Keys == v.Keys + {mobile}
    ensures forall m, c :: Verify(r, m, c) <==> (m == mobile && c == code) || (m != mobile && Verify(v, m, c))
  {
    v[mobile := Some(code)]
  }

  /** Set the code of a mobile number to null; a number without a row is
      left without one (the update matches nothing). */
  function RevokeCode(v: Verifications, mobile: string): (r: Verifications)
    ensures r.Keys == v.Keys
    ensures forall c :: !Verify(r, mobile, c)
    ensures forall m, c :: m != mobile ==> (Verify(r, m, c) <==> Verify(v, m, c))
  {
    if mobile in v then v[mobile := None] else v
  }

  /** `revokeRequestMobileVerificationCode`: nothing happens for a request
      from the USSD server or when no mobile number was filled in. */
  function RevokeRequestCode(v: Verifications, fromUssd: bool, mobileInput: Option<string>): (r: Verifications)
    ensures fromUssd || mobileInput.None? || Blank(mobileInput.value) ==> r == v
    ensures !fromUssd && mobileInput.Some? && !Blank(mobileInput.value) ==>
      forall c :: !Verify(r, mobileInput.value, c)
    ensures forall m, c :: Verify(r, m, c) ==> Verify(v, m, c)
  {
    if fromUssd then v
    else match mobileInput
      case None => v
      case Some(m) => if Blank(m) then v else RevokeCode(v, m)
  }

  /** `revokeUserMobileVerificationCode`: revoke the code of the user's
      mobile number (with its country extension). */
  function RevokeUserCode(v: Verifications, userMobileWithExtension: string): (r: Verifications)
    ensures forall c :: !Verify(r, userMobileWithExtension, c)
    ensures forall m, c :: m != userMobileWithExtension ==> (Verify(r, m, c) <==> Verify(v, m, c))
  {
    RevokeCode(v, userMobileWithExtension)
  }

  /** A generated code verifies until it is replaced or revoked: a second
      generation for the same number makes the first code useless. */
  lemma LatestCodeWins(v: Verifications, mobile: string, first: string, second: string)
    requires first != second
    ensures !Verify(GenerateCode(GenerateCode(v, mobile, first), mobile, second), mobile, first)
    ensures Verify(GenerateCode(GenerateCode(v, mobile, first), mobile, second), mobile, second)
  {
    var once := GenerateCode(v, mobile, first);
    assert Verify(once, mobile, first);
  }

  /** A code cannot be used twice: once revoked it no longer verifies. */
  lemma GenerateRevokeVerify(v: Verifications, mobile: string, code: string, other: string)
    ensures Verify(GenerateCode(v, mobile, code), mobile, code)
    ensures !Verify(RevokeCode(GenerateCode(v, mobile, code), mobile), mobile, other)
  {
  }

  // ---------------------------------------------------------------------
  // Access tokens
  // ---------------------------------------------------------------------

  /** A personal access token of `owner`, named after the device. */
  datatype AccessToken = AccessToken(id: nat, owner: UserId, name: string)

  /** The `personal_access_tokens` table and the ids of the tokens whose
      user is remembered on the cache. */
  datatype TokenStore = TokenStore(tokens: set<AccessToken>, cached: set<nat>)

  function TokensOf(s: TokenStore, owner: UserId): set<AccessToken> {
    set t | t in s.tokens && t.owner == owner
  }

  /** `removeTokensFromDatabaseAndCache`: forget every chosen token on the
      cache, then delete them. */
  function RemoveTokens(s: TokenStore, chosen: set<AccessToken>): (r: TokenStore)
    ensures r.tokens == s.tokens - chosen
    ensures forall id :: id in r.cached <==> id in s.cached && !(exists t :: t in chosen && t in s.tokens && t.id == id)
  {
    var ids := set t | t in chosen && t in s.tokens :: t.id;
    TokenStore(s.tokens - chosen, s.cached - ids)
  }

  /** `removeTokensFromDatabaseAndCache` handed the current token's model
      instance rather than a query: `get()` on a model instance runs an
      unfiltered query of the whole table, so the cached user of EVERY
      token is forgotten, while `delete()` removes only the current token. */
  function RemoveCurrentToken(s: TokenStore, current: nat): (r: TokenStore)
    ensures forall t :: t in r.tokens <==> t in s.tokens && t.id != current
    ensures forall id :: id in r.cached <==> id in s.cached && !(exists t :: t in s.tokens && t.id == id)
  {
    var ids := set t | t in s.tokens :: t.id;
    TokenStore((set t | t in s.tokens && t.id != current), s.cached - ids)
  }

  // ---------------------------------------------------------------------
  // Logout
  // ---------------------------------------------------------------------

  /** A request input read as a flag: absent, or a JSON boolean, integer or
      string. */
  datatype FlagInput = Missing | FlagBool(b: bool) | FlagInt(i: int) | FlagString(s: string)

  /** Laravel's `filled`: booleans and numbers always count as filled. */
  predicate Filled(f: FlagInput) {
    match f
    case Missing => false
    case FlagString(s) => !Blank(s)
    case _ => true
  }

  /** The flag test as written: `filled` and then `in_array` with loose
      comparison against `[true, 'true', 1, '1']`. Loose comparison with
      `true` holds for every truthy value, so any non-zero number and any
      string other than "" and "0" passes. */
  predicate LooseFlagAsWritten(f: FlagInput) {
    Filled(f) &&
    match f
    case Missing => false
    case FlagBool(b) => b
    case FlagInt(i) => i != 0
    case FlagString(s) => s != "" && s != "0"
  }

  /** The flag test the value list spells out: exactly `true`, `'true'`, `1`
      or `'1'`. */
  predicate StrictFlag(f: FlagInput) {
    f == FlagBool(true) || f == FlagInt(1) || f == FlagString("true") || f == FlagString("1")
  }

  /** The loose test accepts every value the strict one does, and also the
      string "false": a client sending `everyone=false` is logged out of all
      devices. */
  lemma LooseFlagAcceptsFalse()
    ensures LooseFlagAsWritten(FlagString("false")) && !StrictFlag(FlagString("false"))
    ensures forall f :: StrictFlag(f) ==> LooseFlagAsWritten(f)
  {
    assert !Blank("false") by { assert !IsTrimmed("false"[0]); }
    assert !Blank("true") by { assert !IsTrimmed("true"[0]); }
    assert !Blank("1") by { assert !IsTrimmed("1"[0]); }
  }

  /** An account as far as logout is concerned. */
  datatype Account = Account(id: UserId, isSuperAdmin: bool)

  datatype LogoutError = LogoutOfSuperAdminRestricted

  /** Which tokens a logout removes. */
  datatype LogoutScope = AllDevices | OtherDevices | CurrentDevice

  /** `logout`: `authUser` is the caller and `target` the account being
      logged out (the caller itself, or another user for a super admin);
      `current` is the id of the token of the current request. A super
      admin logging out someone else always revokes every token of the
      target, but never of another super admin. The flags are read with
      `StrictFlag`. */
  function Logout(s: TokenStore, authUser: Account, target: Account, current: nat,
                  everyone: FlagInput, others: FlagInput): (r: Result<TokenStore, LogoutError>)
    ensures r.Failure? <==> authUser.isSuperAdmin && authUser.id != target.id && target.isSuperAdmin
    ensures r.Success? ==> forall t :: t in r.value.tokens ==> t in s.tokens
    ensures r.Success? ==> forall id :: id in r.value.cached ==> id in s.cached
    // All devices: every token of the target goes, with its cached user.
    ensures r.Success? && (StrictFlag(everyone) || (authUser.isSuperAdmin && authUser.id != target.id)) ==>
      && (forall t :: t in r.value.tokens <==> t in s.tokens && t.owner != target.id)
      && (forall id :: id in r.value.cached <==>
            id in s.cached && !(exists t :: t in s.tokens && t.owner == target.id && t.id == id))
    // Other devices: every token of the target but the current one goes.
    ensures r.Success? && !StrictFlag(everyone) && !(authUser.isSuperAdmin && authUser.id != target.id) && StrictFlag(others) ==>
      && (forall t :: t in r.value.tokens <==> t in s.tokens && (t.owner != target.id || t.id == current))
      && (forall id :: id in r.value.cached <==>
            id in s.cached && !(exists t :: t in s.tokens && t.owner == target.id && t.id != current && t.id == id))
    // Current device: only the current token is deleted, but the cached
    // user of every token in the table is forgotten.
    ensures r.Success? && !StrictFlag(everyone) && !(authUser.isSuperAdmin && authUser.id != target.id) && !StrictFlag(others) ==>
      && (forall t :: t in r.value.tokens <==> t in s.tokens && t.id != current)
      && (forall id :: id in r.value.cached <==> id in s.cached && !(exists t :: t in s.tokens && t.id == id))
  {
    var scope := LogoutScopeFor(authUser, target, StrictFlag(everyone), StrictFlag(others));
    if scope == AllDevices && authUser.isSuperAdmin && authUser.id != target.id && target.isSuperAdmin then
      Failure(LogoutOfSuperAdminRestricted)
    else
      Success(Revoke(s, target, current, scope))
  }

  /** The branch `logout` takes. */
  function LogoutScopeFor(authUser: Account, target: Account, everyone: bool, others: bool): LogoutScope {
    if everyone || (authUser.isSuperAdmin && authUser.id != target.id) then AllDevices
    else if others then OtherDevices
    else CurrentDevice
  }

  /** What each branch does to the tokens: remove all of the target's, all
      of the target's but the current one, or the current one. */
  function Revoke(s: TokenStore, target: Account, current: nat, scope: LogoutScope): TokenStore {
    match scope
    case AllDevices => RemoveTokens(s, TokensOf(s, target.id))
    case OtherDevices => RemoveTokens(s, set t | t in TokensOf(s, target.id) && t.id != current)
    case CurrentDevice => RemoveCurrentToken(s, current)
  }

  /** Logout as written, with the loose flag test. */
  function LogoutAsWritten(s: TokenStore, authUser: Account, target: Account, current: nat,
                           everyone: FlagInput, others: FlagInput): (r: Result<TokenStore, LogoutError>)
    ensures r.Success? && LooseFlagAsWritten(everyone) ==>
      forall t :: t in r.value.tokens <==> t in s.tokens && t.owner != target.id
  {
    var scope := LogoutScopeFor(authUser, target, LooseFlagAsWritten(everyone), LooseFlagAsWritten(others));
    if scope == AllDevices && authUser.isSuperAdmin && authUser.id != target.id && target.isSuperAdmin then
      Failure(LogoutOfSuperAdminRestricted)
    else
      Success(Revoke(s, target, current, scope))
  }

  /** With `everyone=false` the code as written signs the user out of every
      device, while the intended test keeps the other devices signed in. */
  lemma EveryoneFalseLogsOutEverywhere()
    ensures var me := Account(1, false);
      var s := TokenStore({AccessToken(10, 1, "phone"), AccessToken(11, 1, "laptop")}, {10, 11});
      && LogoutAsWritten(s, me, me, 10, FlagString("false"), Missing) == Success(TokenStore({}, {}))
      && Logout(s, me, me, 10, FlagString("false"), Missing).Success?
      && Logout(s, me, me, 10, FlagString("false"), Missing).value.tokens == {AccessToken(11, 1, "laptop")}
  {
    var me := Account(1, false);
    var phone := AccessToken(10, 1, "phone");
    var laptop := AccessToken(11, 1, "laptop");
    var s := TokenStore({phone, laptop}, {10, 11});
    LooseFlagAcceptsFalse();
    assert TokensOf(s, 1) == {phone, laptop};
    var kept := RemoveCurrentToken(s, 10);
    assert kept.tokens == {laptop} by {
      assert phone !in kept.tokens;
    }
    assert !StrictFlag(Missing) && !StrictFlag(FlagString("false"));
    assert LogoutScopeFor(me, me, false, false) == CurrentDevice;
    assert Logout(s, me, me, 10, FlagString("false"), Missing) == Success(kept);
    var gone := RemoveTokens(s, {phone, laptop});
    assert gone.tokens == {};
    assert gone.cached == {} by {
      assert 10 !in gone.cached by { assert phone in {phone, laptop} && phone.id == 10; }
      assert 11 !in gone.cached by { assert laptop in {phone, laptop} && laptop.id == 11; }
    }
    assert LogoutScopeFor(me, me, true, false) == AllDevices;
    assert LogoutAsWritten(s, me, me, 10, FlagString("false"), Missing) == Success(gone);
  }

  /** A super admin logging out another super admin changes nothing. */
  lemma SuperAdminProtected(s: TokenStore, authUser: Account, target: Account, current: nat,
                            everyone: FlagInput, others: FlagInput)
    requires authUser.isSuperAdmin && target.isSuperAdmin && authUser.id != target.id
    ensures Logout(s, authUser, target, current, everyone, others) == Failure(LogoutOfSuperAdminRestricted)
  {
  }

  // ---------------------------------------------------------------------
  // Sign in
  // ---------------------------------------------------------------------

  /** `createAccessToken`'s token name: the device name when filled in,
      otherwise the user's name. */
  function TokenName(deviceName: Option<string>, userName: string): (r: string)
    ensures deviceName.Some? && !Blank(deviceName.value) ==> r == deviceName.value
    ensures deviceName.None? || Blank(deviceName.value) ==> r == userName
  {
    match deviceName
    case Some(d) => if Blank(d) then userName else d
    case None => userName
  }

  /** `getUserAndAccessToken`: a USSD sign-in adds a token; any other
      sign-in first revokes every token of the user (single device
      sign-in). The new token's user is then remembered on the cache.
      `newId` is the id the database assigns, which no existing token has. */
  function SignIn(s: TokenStore, user: UserId, userName: string, deviceName: Option<string>,
                  fromUssd: bool, newId: nat): (r: TokenStore)
    requires forall t :: t in s.tokens ==> t.id != newId
    ensures AccessToken(newId, user, TokenName(deviceName, userName)) in r.tokens
    ensures newId in r.cached
    ensures !fromUssd ==> TokensOf(r, user) == {AccessToken(newId, user, TokenName(deviceName, userName))}
    ensures fromUssd ==> TokensOf(r, user) == TokensOf(s, user) + {AccessToken(newId, user, TokenName(deviceName, userName))}
    ensures forall t: AccessToken :: t.owner != user ==> (t in r.tokens <==> t in s.tokens)
  {
    var issued := AccessToken(newId, user, TokenName(deviceName, userName));
    var kept := if fromUssd then s else RemoveTokens(s, TokensOf(s, user));
    TokenStore(kept.tokens + {issued}, kept.cached + {newId})
  }

  /** Signing in on the web twice leaves only the second session. */
  lemma SecondSignInEndsFirst(s: TokenStore, user: UserId, userName: string, first: nat, second: nat)
    requires forall t :: t in s.tokens ==> t.id != first && t.id != second
    requires first != second
    ensures var once := SignIn(s, user, userName, None, false, first);
      var twice := SignIn(once, user, userName, None, false, second);
      && AccessToken(first, user, userName) !in twice.tokens
      && TokensOf(twice, user) == {AccessToken(second, user, userName)}
  {
    var once := SignIn(s, user, userName, None, false, first);
    assert forall t :: t in once.tokens ==> t.id != second by {
      forall t | t in once.tokens ensures t.id != second {
        if t.owner == user {
          assert t in TokensOf(once, user);
        }
      }
    }
  }
}
