/**
 * The shared axios instance's interceptors and `authAPI.checkToken`. The
 * older instance in `src/api/inteceptor.ts` has the same two decisions
 * (only its console output differs), so one definition serves both.
 */
module Api {
  import opened Wrappers
  import opened Js
  import opened Text
  import opened Session
  import opened AuthInit
  import opened Login

  const BearerPrefix := "Bearer "
  const InvalidTokenError := "Token is not valid"
  const SessionExpiredMessage := "Phiên đăng nhập đã hết hạn, vui lòng đăng nhập lại"

  /** The request interceptor: the `Authorization` header it sets, if any. */
  function AuthorizationHeader(s: Store): (r: Option<string>)
    ensures r.Some? <==> AccessToken in s && s[AccessToken] != ""
    ensures r.Some? ==> StartsWith(r.value, BearerPrefix) && r.value[|BearerPrefix|..] == s[AccessToken]
  {
    var token := GetItem(s, AccessToken);
    if Truthy(token) then
      var h := BearerPrefix + token.value;
      assert h[..|BearerPrefix|] == BearerPrefix && h[|BearerPrefix|..] == token.value;
      Some(h)
    else None
  }

  /** The part of an axios error the response interceptor reads. */
  datatype ErrorResponse = ErrorResponse(status: int, error: Option<string>)

  /** An axios error: `response` is missing for a network failure. */
  datatype ApiError = ApiError(response: Option<ErrorResponse>)

  /** The interceptor's test for a dead session. */
  predicate SessionExpired(e: ApiError) {
    && e.response.Some?
    && (e.response.value.status == 401
        || (e.response.value.status == 400 && e.response.value.error == Some(InvalidTokenError)))
  }

  /** What the error path does before rejecting: clear, warn, and leave for /login. */
  const ExpiryTrace := [Clear, ToastError(SessionExpiredMessage), HardRedirect("/login")]

  /** The response interceptor's error handler: its effects, and the error it rejects with. */
  function OnResponseError(e: ApiError): (r: (seq<Effect>, ApiError))
    // The error is passed on unchanged, cleared store or not.
    ensures r.1 == e
    ensures Clear in r.0 <==>
      e.response.Some? &&
      (e.response.value.status == 401 || (e.response.value.status == 400 && e.response.value.error == Some("Token is not valid")))
    ensures r.0 == [] || r.0 == ExpiryTrace
  {
    if SessionExpired(e) then (ExpiryTrace, e) else ([], e)
  }

  /** After the error path the store is empty on expiry and untouched otherwise. */
  lemma ErrorPathStore(s: Store, e: ApiError)
    ensures SessionExpired(e) ==> Run(s, OnResponseError(e).0) == map[]
    ensures !SessionExpired(e) ==> Run(s, OnResponseError(e).0) == s
    ensures SessionExpired(e) ==> Evaluate(Run(s, OnResponseError(e).0)) == AuthState(Some(false), false, false)
  {
    if SessionExpired(e) {
      assert ExpiryTrace == [Clear] + [ToastError(SessionExpiredMessage), HardRedirect("/login")];
      ClearThenReadOnly(s, [ToastError(SessionExpiredMessage), HardRedirect("/login")]);
    }
  }

  /**
   * A 400 that is not about the token, a 403, or a network error all leave
   * the session in place.
   */
  lemma OtherErrorsKeepSession(s: Store, status: int, error: Option<string>)
    requires status != 401 && (status != 400 || error != Some(InvalidTokenError))
    ensures Run(s, OnResponseError(ApiError(Some(ErrorResponse(status, error)))).0) == s
    ensures Run(s, OnResponseError(ApiError(None)).0) == s
  {
    ErrorPathStore(s, ApiError(Some(ErrorResponse(status, error))));
    ErrorPathStore(s, ApiError(None));
  }

  /**
   * A sign-in request answered 401 goes through the interceptor first and
   * then the form's `catch`: the store ends empty and the form shows its
   * generic error.
   */
  lemma SignInRejectedWith401(s: Store, error: Option<string>)
    ensures Run(s, OnResponseError(ApiError(Some(ErrorResponse(401, error)))).0 + PasswordLogin(PasswordThrew)) == map[]
  {
    var t := [ToastError(SessionExpiredMessage), HardRedirect("/login")] + PasswordLogin(PasswordThrew);
    assert OnResponseError(ApiError(Some(ErrorResponse(401, error)))).0 + PasswordLogin(PasswordThrew) == [Clear] + t;
    ClearThenReadOnly(s, t);
  }

  /** `authAPI.checkToken`. */
  datatype TokenCheck = TokenCheck(isAuthenticated: bool, token: Option<string>)

  function CheckToken(s: Store): (r: TokenCheck)
    ensures r.token == (if AccessToken in s then Some(s[AccessToken]) else None)
    ensures r.isAuthenticated <==> AccessToken in s && s[AccessToken] != ""
    ensures r.isAuthenticated <==> AuthorizationHeader(s).Some?
  {
    var token := GetItem(s, AccessToken);
    TokenCheck(Truthy(token), token)
  }

  /**
   * `checkToken` looks at the token only: with the authorization flag
   * missing it still reports a session that `useAuth` does not.
   */
  lemma CheckTokenIgnoresFlag(s: Store)
    requires AccessToken in s && s[AccessToken] != "" && Authorization !in s
    ensures CheckToken(s).isAuthenticated
    ensures Evaluate(s).isAuthenticated == Some(false)
  {
  }

  /** Whenever `useAuth` sees a session, so does `checkToken`. */
  lemma SignedInPassesCheckToken(s: Store)
    requires SignedIn(s)
    ensures CheckToken(s).isAuthenticated
  {
  }
}
