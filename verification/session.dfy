/**
 * The `useAuth` hook: a three-field state that starts pending and is derived,
 * once the mount effect has run, from three `localStorage` keys.
 */
module Session {
  import opened Wrappers
  import opened Js

  /**
   * `isAuthenticated` is the hook's `boolean | null`: None until the effect
   * has run.
   */
  datatype AuthState = AuthState(isAuthenticated: Option<bool>, isAdmin: bool, isLoading: bool)

  /** The state the hook renders with before its effect runs. */
  const Initial := AuthState(None, false, true)

  /** The session the store holds: a non-empty token and the authorization flag "true". */
  predicate SignedIn(s: Store) {
    && AccessToken in s && s[AccessToken] != ""
    && Authorization in s && s[Authorization] == "true"
  }

  /** The state after the mount effect has read the store. */
  function Evaluate(s: Store): (r: AuthState)
    ensures !r.isLoading && r.isAuthenticated.Some?
    ensures r.isAuthenticated == Some(SignedIn(s))
    ensures r.isAdmin <==> UserIsAdmin in s && s[UserIsAdmin] == "true"
  {
    var token := GetItem(s, AccessToken);
    var isAuth := GetItem(s, Authorization) == Some("true");
    var userIsAdmin := GetItem(s, UserIsAdmin) == Some("true");
    AuthState(Some(Truthy(token) && isAuth), userIsAdmin, false)
  }

  /** An empty store evaluates to a signed-out, non-admin session. */
  lemma EmptyStoreIsAnonymous()
    ensures Evaluate(map[]) == AuthState(Some(false), false, false)
  {
  }

  /**
   * Evaluation reads only the token, the authorization flag and the admin
   * flag: stores that agree on those three keys evaluate alike, so two
   * evaluations with no write in between agree.
   */
  lemma EvaluateReadsThreeKeys(s: Store, t: Store)
    requires forall k :: k in {AccessToken, Authorization, UserIsAdmin} ==> GetItem(s, k) == GetItem(t, k)
    ensures Evaluate(s) == Evaluate(t)
  {
    assert GetItem(s, AccessToken) == GetItem(t, AccessToken);
    assert GetItem(s, Authorization) == GetItem(t, Authorization);
    assert GetItem(s, UserIsAdmin) == GetItem(t, UserIsAdmin);
  }

  /**
   * The admin flag is taken from `user_isAdmin` alone: a store holding only
   * that key reports an admin who is not signed in.
   */
  lemma AdminWithoutSession()
    ensures Evaluate(map[UserIsAdmin := "true"]) == AuthState(Some(false), true, false)
  {
  }
}
