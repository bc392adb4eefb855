/**
 * `AuthInitializer`: on start-up, a store that does not hold a complete
 * session record is wiped entirely.
 */
module AuthInit {
  import opened Wrappers
  import opened Js
  import opened Session

  /**
   * The start-up check: token and email and name non-empty, the
   * authorization flag "true", and the admin flag present with any value.
   */
  predicate Complete(s: Store) {
    && Truthy(GetItem(s, AccessToken))
    && GetItem(s, Authorization) == Some("true")
    && Truthy(GetItem(s, UserEmail))
    && Truthy(GetItem(s, UserName))
    && GetItem(s, UserIsAdmin) != None
  }

  /** `initializeAuth`: keep a complete record, `localStorage.clear()` anything else. */
  function InitializeAuth(s: Store): (r: Store)
    ensures r == s || r == map[]
    ensures r == map[] <==>
      || AccessToken !in s || s[AccessToken] == ""
      || Authorization !in s || s[Authorization] != "true"
      || UserEmail !in s || s[UserEmail] == ""
      || UserName !in s || s[UserName] == ""
      || UserIsAdmin !in s
  {
    if !Complete(s) then map[] else s
  }

  /** Running the check twice is running it once. */
  lemma InitializeIdempotent(s: Store)
    ensures InitializeAuth(InitializeAuth(s)) == InitializeAuth(s)
  {
  }

  /** Only the absence of `user_isAdmin` fails the role check; "false" and "" pass. */
  lemma AnyAdminFlagPasses(s: Store, flag: string)
    requires Complete(s)
    ensures InitializeAuth(s[UserIsAdmin := flag]) == s[UserIsAdmin := flag]
    ensures InitializeAuth(s - {UserIsAdmin}) == map[]
  {
    assert UserIsAdmin !in s - {UserIsAdmin};
  }

  /**
   * After start-up the store is either empty or signed in, and an admin flag
   * can only be reported together with a session: the `useAuth`
   * admin-without-session state cannot survive initialisation.
   */
  lemma InitializedStoreIsConsistent(s: Store)
    ensures InitializeAuth(s) != map[] ==> Evaluate(InitializeAuth(s)).isAuthenticated == Some(true)
    ensures InitializeAuth(s) == map[] ==> Evaluate(InitializeAuth(s)) == AuthState(Some(false), false, false)
    ensures Evaluate(InitializeAuth(s)).isAdmin ==> Evaluate(InitializeAuth(s)).isAuthenticated == Some(true)
  {
  }
}
