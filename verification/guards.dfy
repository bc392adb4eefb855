/**
 * The route guard components: `AuthRoute` (used by the route table),
 * `ProtectedRoute` and `PublicRoute` (older variants). Each maps the
 * session state and the current location to a spinner, the nested routes,
 * or a `<Navigate replace>`.
 */
module Guards {
  import opened Wrappers
  import opened Js
  import opened Session

  /** `AuthRoute`'s `routeType` prop. */
  datatype RouteType = Admin | User | Public

  /**
   * What a guard renders. `carriesFrom` is whether the redirect passes
   * `state={{ from: location }}`.
   */
  datatype Outcome = Spinner | Content | Redirect(to: string, carriesFrom: bool)

  const LoginPath := "/login"
  const RegisterPath := "/register"
  const HomePath := "/"
  const AdminHomePath := "/admin/product"

  /** `AuthRoute`. */
  function AuthRoute(routeType: RouteType, st: AuthState, pathname: string): (r: Outcome)
    // The spinner wins over everything while loading, and appears only then.
    ensures r == Spinner <==> st.isLoading
    // admin: signed-out goes to /login with the origin; signed-in non-admin goes home without it.
    ensures routeType == Admin && !st.isLoading ==>
      (r == Content <==> st.isAuthenticated != Some(false) && st.isAdmin)
    ensures routeType == Admin && !st.isLoading && st.isAuthenticated == Some(false) ==>
      r == Redirect(LoginPath, true)
    ensures routeType == Admin && !st.isLoading && st.isAuthenticated != Some(false) && !st.isAdmin ==>
      r == Redirect(HomePath, false)
    // user: content unless known signed-out.
    ensures routeType == User && !st.isLoading ==>
      r == (if st.isAuthenticated == Some(false) then Redirect(LoginPath, true) else Content)
    // public: redirects only a signed-in visitor of /login or /register.
    ensures routeType == Public && !st.isLoading ==>
      (r.Redirect? <==> st.isAuthenticated == Some(true) && (pathname == LoginPath || pathname == RegisterPath))
    ensures routeType == Public && r.Redirect? ==>
      r == Redirect(if st.isAdmin then AdminHomePath else HomePath, true)
  {
    if st.isLoading then Spinner
    else
      match routeType
      case Admin =>
        if st.isAuthenticated == Some(false) then Redirect(LoginPath, true)
        else if !st.isAdmin then Redirect(HomePath, false)
        else Content
      case User =>
        if st.isAuthenticated == Some(false) then Redirect(LoginPath, true)
        else Content
      case Public =>
        if st.isAuthenticated == Some(true) && (pathname == LoginPath || pathname == RegisterPath) then
          Redirect(if st.isAdmin then AdminHomePath else HomePath, true)
        else Content
  }

  /**
   * `ProtectedRoute` keeps only `isAuthenticated` (null until its effect runs)
   * and `isAdmin`; `requireAdmin` defaults to false.
   */
  function ProtectedRoute(isAuthenticated: Option<bool>, isAdmin: bool, requireAdmin: bool := false): (r: Outcome)
    ensures r == Spinner <==> isAuthenticated.None?
    ensures isAuthenticated == Some(false) ==> r == Redirect(LoginPath, true)
    ensures isAuthenticated == Some(true) && requireAdmin && !isAdmin ==> r == Redirect(HomePath, false)
    ensures r == Content <==> isAuthenticated == Some(true) && (!requireAdmin || isAdmin)
  {
    if isAuthenticated.None? then Spinner
    else if !isAuthenticated.value then Redirect(LoginPath, true)
    else if requireAdmin && !isAdmin then Redirect(HomePath, false)
    else Content
  }

  /** `PublicRoute`: sends any signed-in visitor away, whatever the path. */
  function PublicRoute(st: AuthState): (r: Outcome)
    ensures r == Spinner <==> st.isLoading
    ensures !st.isLoading ==>
      (r.Redirect? <==> st.isAuthenticated == Some(true))
    ensures r.Redirect? ==> r == Redirect(if st.isAdmin then AdminHomePath else HomePath, true)
  {
    if st.isLoading then Spinner
    else if st.isAuthenticated == Some(true) then
      Redirect(if st.isAdmin then AdminHomePath else HomePath, true)
    else Content
  }

  /** Before any effect has run, every guard shows the spinner. */
  lemma PendingShowsSpinner(routeType: RouteType, pathname: string, requireAdmin: bool)
    ensures AuthRoute(routeType, Initial, pathname) == Spinner
    ensures ProtectedRoute(Initial.isAuthenticated, Initial.isAdmin, requireAdmin) == Spinner
    ensures PublicRoute(Initial) == Spinner
  {
  }

  /**
   * Combined with `useAuth`, a signed-out store never reaches admin or user
   * content: the evaluated session is always a definite boolean.
   */
  lemma NoGuardedContentWhenSignedOut(s: Store, routeType: RouteType, pathname: string)
    requires routeType != Public
    requires AuthRoute(routeType, Evaluate(s), pathname) == Content
    ensures SignedIn(s)
    ensures routeType == Admin ==> UserIsAdmin in s && s[UserIsAdmin] == "true"
  {
  }

  /**
   * After evaluation, `ProtectedRoute` and `AuthRoute` agree: the plain
   * variant behaves as `user`, the `requireAdmin` variant as `admin`.
   */
  lemma ProtectedMatchesAuthRoute(s: Store, pathname: string)
    ensures ProtectedRoute(Evaluate(s).isAuthenticated, Evaluate(s).isAdmin) == AuthRoute(User, Evaluate(s), pathname)
    ensures ProtectedRoute(Evaluate(s).isAuthenticated, Evaluate(s).isAdmin, true) == AuthRoute(Admin, Evaluate(s), pathname)
  {
  }

  /**
   * `PublicRoute` and `AuthRoute`'s public branch agree on /login and
   * /register, but on any other path (the home page, say) `AuthRoute`
   * renders for a signed-in visitor where `PublicRoute` redirects.
   */
  lemma PublicVariantsDiffer(s: Store, pathname: string)
    ensures pathname == LoginPath || pathname == RegisterPath ==>
      PublicRoute(Evaluate(s)) == AuthRoute(Public, Evaluate(s), pathname)
    ensures SignedIn(s) && pathname != LoginPath && pathname != RegisterPath ==>
      PublicRoute(Evaluate(s)).Redirect? && AuthRoute(Public, Evaluate(s), pathname) == Content
  {
  }
}
