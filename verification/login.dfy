/**
 * The two sign-in handlers: the password form's `handleLogin` and the
 * Google button's `onSuccess`. Each turns the server's answer into a trace
 * of effects; the store after sign-in is that trace run on the store before.
 */
module Login {
  import opened Wrappers
  import opened Js
  import opened Session
  import opened AuthInit

  /** The `user` object of a sign-in answer; any field may be missing. */
  datatype UserRecord = UserRecord(
    id: Option<string>,
    email: Option<string>,
    name: Option<string>,
    isAdmin: Option<bool>,
    phone: Option<string>,
    address: Option<string>)

  /** The `data` object of a sign-in answer: the user and the token. */
  datatype Payload = Payload(user: Option<UserRecord>, token: Option<string>)

  /** What `authAPI.login` gives the form: a rejection, or a response. */
  datatype PasswordAnswer =
    | PasswordThrew
    | PasswordResponse(status: int, payload: Option<Payload>)

  /** What `authAPI.googleLogin` gives the button: a rejection carrying the
      server's message, or a response whose body may be missing. */
  datatype GoogleAnswer =
    | GoogleThrew(serverMessage: Option<string>)
    | GoogleResponse(body: Option<GoogleBody>)

  datatype GoogleBody = GoogleBody(success: bool, message: Option<string>, payload: Option<Payload>)

  const AuthFailed := "Authentication failed!"
  const UserDataNotFound := "User data not found!"
  const SomethingWentWrong := "Something went wrong!"
  const AuthSucceeded := "Authentication successful!"
  const GoogleFailed := "Đăng nhập với Google thất bại"
  const GoogleSucceeded := "Đăng nhập với Google thành công!"

  /** Where a signed-in user is sent: the admin home for an administrator, else the home page. */
  function LandingPath(isAdmin: bool): string {
    if isAdmin then "/admin/product" else "/"
  }

  /** The first two writes, which need nothing from the user object. */
  function TokenWrites(token: Option<string>): seq<Effect> {
    [SetItem(AccessToken, ToStr(token)), SetItem(Authorization, "true")]
  }

  /** The three writes reading `_id`, `email` and `name`. */
  function IdentityWrites(u: UserRecord): seq<Effect> {
    [SetItem(UserId, ToStr(u.id)), SetItem(UserEmail, ToStr(u.email)), SetItem(UserName, ToStr(u.name))]
  }

  /** The last three writes: the role and the two contact fields as given. */
  function ProfileWrites(isAdmin: bool, phone: string, address: string): seq<Effect> {
    [SetItem(UserIsAdmin, BoolStr(isAdmin)), SetItem(UserPhone, phone), SetItem(UserAddress, address)]
  }

  /** Whether a trace leaves the store untouched by writing or clearing. */
  predicate WritesNothing(t: seq<Effect>) {
    ReadOnly(t)
  }

  /** The trace ends by navigating to `p`. */
  predicate EndsAt(t: seq<Effect>, p: string) {
    |t| > 0 && t[|t| - 1] == Navigate(p)
  }

  /** A password answer carrying a user with a role flag: the only one that completes. */
  predicate PasswordCompletes(a: PasswordAnswer) {
    && a.PasswordResponse? && a.status == 200
    && a.payload.Some? && a.payload.value.user.Some?
    && a.payload.value.user.value.isAdmin.Some?
  }

  /** `handleLogin`. */
  function PasswordLogin(a: PasswordAnswer): (r: seq<Effect>)
    // Nothing is written unless a 200 response carries a user.
    ensures WritesNothing(r) <==>
      a.PasswordThrew? || a.status != 200 || a.payload.None? || a.payload.value.user.None?
    // A rejection, a non-200 status and a missing user each end in their own error.
    ensures a.PasswordThrew? ==> r == [ToastError(SomethingWentWrong), SetError(SomethingWentWrong)]
    ensures a.PasswordResponse? && a.status != 200 ==> r == [ToastError(AuthFailed), SetError(AuthFailed)]
    ensures a.PasswordResponse? && a.status == 200 && (a.payload.None? || a.payload.value.user.None?) ==>
      r == [ToastError(UserDataNotFound), SetError(UserDataNotFound)]
    // Navigation happens exactly when the whole record was written, to the role's landing page.
    ensures (exists p :: EndsAt(r, p)) <==> PasswordCompletes(a)
    ensures PasswordCompletes(a) ==> EndsAt(r, LandingPath(a.payload.value.user.value.isAdmin.value))
  {
    match a
    case PasswordThrew => [ToastError(SomethingWentWrong), SetError(SomethingWentWrong)]
    case PasswordResponse(status, payload) =>
      if status != 200 then [ToastError(AuthFailed), SetError(AuthFailed)]
      else if payload.None? || payload.value.user.None? then [ToastError(UserDataNotFound), SetError(UserDataNotFound)]
      else
        var u := payload.value.user.value;
        var written := TokenWrites(payload.value.token) + IdentityWrites(u);
        match u.isAdmin
        // `isAdmin.toString()` throws on a missing flag, after five writes.
        case None =>
          var r := written + [ToastError(SomethingWentWrong), SetError(SomethingWentWrong)];
          assert r[0].SetItem?;
          r
        case Some(b) =>
          var r := written + ProfileWrites(b, ToStr(u.phone), ToStr(u.address))
            + [ToastSuccess(AuthSucceeded), Navigate(LandingPath(b))];
          assert r[0].SetItem? && EndsAt(r, LandingPath(b));
          r
  }

  /** The Google answer's user when the handler gets through every write. */
  predicate GoogleCompletes(a: GoogleAnswer) {
    && a.GoogleResponse? && a.body.Some? && a.body.value.success
    && a.body.value.payload.Some? && a.body.value.payload.value.user.Some?
    && a.body.value.payload.value.user.value.isAdmin.Some?
  }

  /** The error toast of the Google handler's `catch`: the server's message if any. */
  function GoogleCatch(serverMessage: Option<string>): seq<Effect> {
    [ToastError(if Truthy(serverMessage) then serverMessage.value else GoogleFailed)]
  }

  /** The Google button's `onSuccess`. */
  function GoogleLogin(a: GoogleAnswer): (r: seq<Effect>)
    // Only a successful body writes anything.
    ensures !(a.GoogleResponse? && a.body.Some? && a.body.value.success) ==> WritesNothing(r)
    ensures a.GoogleThrew? ==> r == GoogleCatch(a.serverMessage)
    // The session change is announced only after all eight writes.
    ensures DispatchAuthChange in r <==> GoogleCompletes(a)
    ensures forall j :: 0 <= j < |r| && r[j] == DispatchAuthChange ==> j >= 8 && forall i :: 0 <= i < 8 ==> r[i].SetItem?
    ensures (exists p :: EndsAt(r, p)) <==> GoogleCompletes(a)
    ensures GoogleCompletes(a) ==> EndsAt(r, LandingPath(a.body.value.payload.value.user.value.isAdmin.value))
  {
    match a
    case GoogleThrew(m) => GoogleCatch(m)
    case GoogleResponse(body) =>
      if body.None? || !body.value.success then
        [ToastError(if body.Some? && Truthy(body.value.message) then body.value.message.value else GoogleFailed)]
      // Reading `data.user` of a missing `data` throws before any write.
      else if body.value.payload.None? then GoogleCatch(None)
      else
        var p := body.value.payload.value;
        match p.user
        // Reading `_id` of a missing user throws after the first two writes.
        case None => TokenWrites(p.token) + GoogleCatch(None)
        case Some(u) =>
          match u.isAdmin
          case None => TokenWrites(p.token) + IdentityWrites(u) + GoogleCatch(None)
          case Some(b) =>
            var w := TokenWrites(p.token) + IdentityWrites(u) + ProfileWrites(b, OrEmpty(u.phone), OrEmpty(u.address));
            assert |w| == 8 && forall i :: 0 <= i < 8 ==> w[i].SetItem?;
            var r := w + [ToastSuccess(GoogleSucceeded), DispatchAuthChange, Navigate(LandingPath(b))];
            assert EndsAt(r, LandingPath(b));
            r
  }

  /** The store a completed sign-in leaves behind. */
  function Record(s: Store, token: Option<string>, u: UserRecord, isAdmin: bool, phone: string, address: string): Store {
    s[AccessToken := ToStr(token)][Authorization := "true"]
     [UserId := ToStr(u.id)][UserEmail := ToStr(u.email)][UserName := ToStr(u.name)]
     [UserIsAdmin := BoolStr(isAdmin)][UserPhone := phone][UserAddress := address]
  }

  lemma RunTwo(s: Store, e1: Effect, e2: Effect)
    ensures Run(s, [e1, e2]) == Step(Step(s, e1), e2)
  {
    assert [e1, e2][1..] == [e2];
    assert [e2][1..] == [];
    assert Run(Step(s, e1), [e2]) == Run(Step(Step(s, e1), e2), []);
  }

  lemma RunThree(s: Store, e1: Effect, e2: Effect, e3: Effect)
    ensures Run(s, [e1, e2, e3]) == Step(Step(Step(s, e1), e2), e3)
  {
    assert [e1, e2, e3][1..] == [e2, e3];
    RunTwo(Step(s, e1), e2, e3);
  }

  /** Running the eight writes stores the record, and the effects after them change nothing. */
  lemma RunRecord(s: Store, token: Option<string>, u: UserRecord, isAdmin: bool, phone: string, address: string, tail: seq<Effect>)
    requires ReadOnly(tail)
    ensures Run(s, TokenWrites(token) + IdentityWrites(u) + ProfileWrites(isAdmin, phone, address) + tail)
      == Record(s, token, u, isAdmin, phone, address)
  {
    var w1 := TokenWrites(token);
    var w2 := IdentityWrites(u);
    var w3 := ProfileWrites(isAdmin, phone, address);
    RunAppend(s, w1 + w2 + w3, tail);
    RunAppend(s, w1 + w2, w3);
    RunAppend(s, w1, w2);
    RunReadOnly(Run(s, w1 + w2 + w3), tail);
    RunTwo(s, w1[0], w1[1]);
    RunThree(Run(s, w1), w2[0], w2[1], w2[2]);
    RunThree(Run(s, w1 + w2), w3[0], w3[1], w3[2]);
  }

  /** The stored record passes the start-up check and reads as a signed-in session with the given role. */
  lemma RecordSignsIn(s: Store, token: Option<string>, u: UserRecord, isAdmin: bool, phone: string, address: string)
    requires token != Some("") && u.email != Some("") && u.name != Some("")
    ensures InitializeAuth(Record(s, token, u, isAdmin, phone, address)) == Record(s, token, u, isAdmin, phone, address)
    ensures Evaluate(Record(s, token, u, isAdmin, phone, address)) == AuthState(Some(true), isAdmin, false)
  {
    var r := Record(s, token, u, isAdmin, phone, address);
    assert r[AccessToken] == ToStr(token) && r[Authorization] == "true";
    assert r[UserEmail] == ToStr(u.email) && r[UserName] == ToStr(u.name);
    assert r[UserIsAdmin] == BoolStr(isAdmin);
    assert Complete(r);
  }

  /**
   * A completed password sign-in leaves a store that passes the start-up
   * check and evaluates as signed in, with the admin flag equal to the
   * user's role, whatever the store held before.
   */
  lemma PasswordLoginSignsIn(s: Store, a: PasswordAnswer)
    requires PasswordCompletes(a)
    requires a.payload.value.token != Some("")
    requires a.payload.value.user.value.email != Some("") && a.payload.value.user.value.name != Some("")
    ensures InitializeAuth(Run(s, PasswordLogin(a))) == Run(s, PasswordLogin(a))
    ensures Evaluate(Run(s, PasswordLogin(a))) ==
      AuthState(Some(true), a.payload.value.user.value.isAdmin.value, false)
  {
    var p := a.payload.value;
    var u := p.user.value;
    var b := u.isAdmin.value;
    var tail := [ToastSuccess(AuthSucceeded), Navigate(LandingPath(b))];
    assert PasswordLogin(a) == TokenWrites(p.token) + IdentityWrites(u) + ProfileWrites(b, ToStr(u.phone), ToStr(u.address)) + tail;
    RunRecord(s, p.token, u, b, ToStr(u.phone), ToStr(u.address), tail);
    RecordSignsIn(s, p.token, u, b, ToStr(u.phone), ToStr(u.address));
  }

  /**
   * A completed Google sign-in leaves the same kind of store: it passes the
   * start-up check and evaluates as signed in with the user's role.
   */
  lemma GoogleLoginSignsIn(s: Store, a: GoogleAnswer)
    requires GoogleCompletes(a)
    requires a.body.value.payload.value.token != Some("")
    requires a.body.value.payload.value.user.value.email != Some("") && a.body.value.payload.value.user.value.name != Some("")
    ensures InitializeAuth(Run(s, GoogleLogin(a))) == Run(s, GoogleLogin(a))
    ensures Evaluate(Run(s, GoogleLogin(a))) ==
      AuthState(Some(true), a.body.value.payload.value.user.value.isAdmin.value, false)
  {
    var p := a.body.value.payload.value;
    var u := p.user.value;
    var b := u.isAdmin.value;
    var tail := [ToastSuccess(GoogleSucceeded), DispatchAuthChange, Navigate(LandingPath(b))];
    assert GoogleLogin(a) == TokenWrites(p.token) + IdentityWrites(u) + ProfileWrites(b, OrEmpty(u.phone), OrEmpty(u.address)) + tail;
    RunRecord(s, p.token, u, b, OrEmpty(u.phone), OrEmpty(u.address), tail);
    RecordSignsIn(s, p.token, u, b, OrEmpty(u.phone), OrEmpty(u.address));
  }

  /**
   * The two handlers store the same record for the same user, except that
   * the Google button writes "" where the password form writes a missing
   * phone or address as "undefined".
   */
  lemma HandlersAgree(s: Store, token: Option<string>, u: UserRecord, status: int)
    requires status == 200 && u.isAdmin.Some?
    ensures Run(s, PasswordLogin(PasswordResponse(status, Some(Payload(Some(u), token)))))
      == Record(s, token, u, u.isAdmin.value, ToStr(u.phone), ToStr(u.address))
    ensures Run(s, GoogleLogin(GoogleResponse(Some(GoogleBody(true, None, Some(Payload(Some(u), token)))))))
      == Record(s, token, u, u.isAdmin.value, OrEmpty(u.phone), OrEmpty(u.address))
    ensures Truthy(u.phone) && Truthy(u.address) ==>
      Run(s, PasswordLogin(PasswordResponse(status, Some(Payload(Some(u), token)))))
      == Run(s, GoogleLogin(GoogleResponse(Some(GoogleBody(true, None, Some(Payload(Some(u), token)))))))
  {
    var b := u.isAdmin.value;
    var a := PasswordResponse(status, Some(Payload(Some(u), token)));
    var g := GoogleResponse(Some(GoogleBody(true, None, Some(Payload(Some(u), token)))));
    assert PasswordCompletes(a) && GoogleCompletes(g);
    RunRecord(s, token, u, b, ToStr(u.phone), ToStr(u.address), [ToastSuccess(AuthSucceeded), Navigate(LandingPath(b))]);
    RunRecord(s, token, u, b, OrEmpty(u.phone), OrEmpty(u.address), [ToastSuccess(GoogleSucceeded), DispatchAuthChange, Navigate(LandingPath(b))]);
  }

  /**
   * A user object without a role flag makes the password form throw after
   * five writes: the store keeps a token and the authorization flag, so the
   * session reads as signed in, yet the start-up check wipes it.
   */
  lemma MissingRoleLeavesPartialSession(s: Store, token: string, u: UserRecord)
    requires token != "" && u.isAdmin.None? && UserIsAdmin !in s
    ensures Evaluate(Run(s, PasswordLogin(PasswordResponse(200, Some(Payload(Some(u), Some(token))))))).isAuthenticated == Some(true)
    ensures InitializeAuth(Run(s, PasswordLogin(PasswordResponse(200, Some(Payload(Some(u), Some(token))))))) == map[]
  {
    var w := TokenWrites(Some(token)) + IdentityWrites(u);
    var tail := [ToastError(SomethingWentWrong), SetError(SomethingWentWrong)];
    assert PasswordLogin(PasswordResponse(200, Some(Payload(Some(u), Some(token))))) == w + tail;
    RunAppend(s, w, tail);
    RunReadOnly(Run(s, w), tail);
    RunAppend(s, TokenWrites(Some(token)), IdentityWrites(u));
    RunTwo(s, SetItem(AccessToken, token), SetItem(Authorization, "true"));
    var w2 := IdentityWrites(u);
    RunThree(Run(s, TokenWrites(Some(token))), w2[0], w2[1], w2[2]);
  }
}
