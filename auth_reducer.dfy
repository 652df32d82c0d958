/**
 * The authentication reducer: JWT tokens, whether the session is
 * authenticated, the loaded user record and a loading flag. Each action
 * yields a new state; the token pair is mirrored into browser storage,
 * modelled here as a second value the reducer updates alongside the state.
 */
module AuthReducer {
  import opened Wrappers

  /** A JSON field value of the user record. */
  datatype Value = Str(s: string) | Num(n: int) | Flag(b: bool) | Null

  type UserRecord = map<string, Value>

  datatype AuthState = AuthState(
    access: Option<string>, refresh: Option<string>,
    isAuthenticated: bool, user: Option<UserRecord>, loading: bool)

  /** The access and refresh tokens kept in browser storage. */
  datatype StoredTokens = StoredTokens(access: Option<string>, refresh: Option<string>)

  datatype Action =
    | AuthenticatedSuccess
    | LoginSuccess(access: string, refresh: string)
    | SignupSuccess
    | UserLoadedSuccess(user: UserRecord)
    | AuthenticatedFail
    | UserLoadedFail
    | LoginFail
    | SignupFail
    | Logout
    | ActivationSuccess
    | ActivationFail
    | PasswordResetSuccess
    | PasswordResetFail
    | SellerLoadedSuccess(sellerId: int)
    | SellerLoadedFail
    | OtherAction

  /** The state before any action: tokens read from storage, nobody signed in. */
  function InitialState(stored: StoredTokens): (s: AuthState)
    ensures !s.isAuthenticated && s.user == None && s.loading
    ensures s.access == stored.access && s.refresh == stored.refresh
  {
    AuthState(stored.access, stored.refresh, false, None, true)
  }

  predicate EndsSession(a: Action) {
    a.LoginFail? || a.SignupFail? || a.Logout?
  }

  predicate OnlyStopsLoading(a: Action) {
    a.ActivationSuccess? || a.ActivationFail? || a.PasswordResetSuccess? || a.PasswordResetFail?
  }

  /** The user record with its seller fields set; a missing user becomes a record of
      just those two fields. */
  function WithSellerFields(user: Option<UserRecord>, isSeller: bool, sellerId: Value): UserRecord {
    user.GetOr(map[])["is_seller" := Flag(isSeller)]["seller_id" := sellerId]
  }

  function Reduce(s: AuthState, a: Action): AuthState {
    match a
    case AuthenticatedSuccess => s.(isAuthenticated := true, loading := false)
    case LoginSuccess(acc, ref) =>
      s.(isAuthenticated := true, access := Some(acc), refresh := Some(ref), loading := false)
    case SignupSuccess => s.(isAuthenticated := false, loading := false)
    case UserLoadedSuccess(u) => s.(user := Some(u), isAuthenticated := true, loading := false)
    case AuthenticatedFail => s.(isAuthenticated := false, loading := false)
    case UserLoadedFail => s.(user := None, isAuthenticated := false, loading := false)
    case LoginFail => AuthState(None, None, false, None, false)
    case SignupFail => AuthState(None, None, false, None, false)
    case Logout => AuthState(None, None, false, None, false)
    case ActivationSuccess => s.(loading := false)
    case ActivationFail => s.(loading := false)
    case PasswordResetSuccess => s.(loading := false)
    case PasswordResetFail => s.(loading := false)
    case SellerLoadedSuccess(id) => s.(user := Some(WithSellerFields(s.user, true, Num(id))))
    case SellerLoadedFail => s.(user := Some(WithSellerFields(s.user, false, Null)))
    case OtherAction => s
  }

  /** What the reducer writes to (or removes from) browser storage. */
  function Storage(stored: StoredTokens, a: Action): StoredTokens {
    match a
    case LoginSuccess(acc, ref) => StoredTokens(Some(acc), Some(ref))
    case LoginFail => StoredTokens(None, None)
    case SignupFail => StoredTokens(None, None)
    case Logout => StoredTokens(None, None)
    case _ => stored
  }

  /** The authentication check and a successful sign-up set only the
      authenticated flag, and stop loading. */
  lemma AuthenticationChecks(s: AuthState, a: Action)
    requires a.AuthenticatedSuccess? || a.AuthenticatedFail? || a.SignupSuccess?
    ensures var r := Reduce(s, a);
      r.access == s.access && r.refresh == s.refresh && r.user == s.user && !r.loading
    ensures Reduce(s, a).isAuthenticated <==> a.AuthenticatedSuccess?
  {
  }

  /** A successful login installs both tokens and leaves the user record alone. */
  lemma LoginSuccessKeepsUser(s: AuthState, acc: string, ref: string)
    ensures var r := Reduce(s, LoginSuccess(acc, ref));
      r.access == Some(acc) && r.refresh == Some(ref) && r.isAuthenticated && !r.loading
      && r.user == s.user
  {
  }

  /** Loading the user signs the session in with that user; failing signs it out. */
  lemma UserLoadedOutcomes(s: AuthState, u: UserRecord)
    ensures Reduce(s, UserLoadedSuccess(u)).user == Some(u) && Reduce(s, UserLoadedSuccess(u)).isAuthenticated
    ensures Reduce(s, UserLoadedFail).user == None && !Reduce(s, UserLoadedFail).isAuthenticated
    ensures Reduce(s, UserLoadedSuccess(u)).access == s.access && Reduce(s, UserLoadedFail).access == s.access
  {
  }

  /** Login failure, signup failure and logout forget everything: the result does
      not depend on the state before. */
  lemma EndsSessionForgets(s1: AuthState, s2: AuthState, a: Action)
    requires EndsSession(a)
    ensures Reduce(s1, a) == Reduce(s2, a)
    ensures var r := Reduce(s1, a);
      r.access == None && r.refresh == None && !r.isAuthenticated && r.user == None && !r.loading
  {
  }

  /** Activation and password-reset results only stop the spinner. */
  lemma OnlyStopsLoadingExactly(s: AuthState, a: Action)
    requires OnlyStopsLoading(a)
    ensures Reduce(s, a) == s.(loading := false)
  {
  }

  /** Seller results touch only `is_seller` and `seller_id` of the user. */
  lemma SellerLoadedFrame(s: AuthState, a: Action)
    requires a.SellerLoadedSuccess? || a.SellerLoadedFail?
    ensures var r := Reduce(s, a);
      r.access == s.access && r.refresh == s.refresh && r.isAuthenticated == s.isAuthenticated
      && r.loading == s.loading && r.user.Some?
      && r.user.value["is_seller"] == Flag(a.SellerLoadedSuccess?)
      && r.user.value["seller_id"] == (if a.SellerLoadedSuccess? then Num(a.sellerId) else Null)
      && (s.user.Some? ==> forall k :: k in s.user.value && k != "is_seller" && k != "seller_id" ==>
                             k in r.user.value && r.user.value[k] == s.user.value[k])
      && r.user.value.Keys == s.user.GetOr(map[]).Keys + {"is_seller", "seller_id"}
  {
  }

  /** An unknown action leaves the state as it was. */
  lemma OtherActionIsIdentity(s: AuthState)
    ensures Reduce(s, OtherAction) == s
  {
  }

  /** Every action has the same effect when dispatched twice in a row. */
  lemma ReduceIdempotent(s: AuthState, a: Action)
    ensures Reduce(Reduce(s, a), a) == Reduce(s, a)
  {
    if a.SellerLoadedSuccess? || a.SellerLoadedFail? {
      var r := Reduce(s, a);
      assert r.user.value["is_seller"] == Flag(a.SellerLoadedSuccess?);
      var v := if a.SellerLoadedSuccess? then Num(a.sellerId) else Null;
      assert WithSellerFields(r.user, a.SellerLoadedSuccess?, v) == r.user.value;
    }
  }

  /** After a token-changing action, storage and state hold the same tokens. */
  lemma StorageMirrorsTokens(s: AuthState, stored: StoredTokens, a: Action)
    requires a.LoginSuccess? || EndsSession(a)
    ensures Storage(stored, a).access == Reduce(s, a).access
    ensures Storage(stored, a).refresh == Reduce(s, a).refresh
  {
  }

  /** Storage and state that agree keep agreeing, whatever the action. */
  lemma StorageAgreementPreserved(s: AuthState, stored: StoredTokens, a: Action)
    requires stored.access == s.access && stored.refresh == s.refresh
    ensures Storage(stored, a).access == Reduce(s, a).access
    ensures Storage(stored, a).refresh == Reduce(s, a).refresh
  {
  }
}
