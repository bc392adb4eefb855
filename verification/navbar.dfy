/**
 * The storefront's navigation bar, in its current form and in the older
 * module it replaced: the session it reads on mount, the highlighted menu
 * entry, the cart badge, the logout handler and the change-password form.
 */
module NavBar {
  import opened Wrappers
  import opened Js
  import opened Text
  import opened Session

  /** The `user` object the bar builds from the store. */
  datatype UserInfo = UserInfo(id: string, email: string, name: string, isAdmin: bool, phone: string, address: string)

  /** The bar's state. */
  datatype BarState = BarState(current: string, badge: int, isAuthenticated: bool, user: Option<UserInfo>)

  /** The state before any effect has run. */
  const Fresh := BarState("home", 0, false, None)

  /** The user record read from the store, every missing text field as "". */
  function ReadUser(s: Store): (r: UserInfo)
    ensures r.isAdmin <==> UserIsAdmin in s && s[UserIsAdmin] == "true"
    ensures r.name == OrEmpty(GetItem(s, UserName)) && r.email == OrEmpty(GetItem(s, UserEmail))
    ensures r.id == OrEmpty(GetItem(s, UserId))
  {
    UserInfo(
      OrEmpty(GetItem(s, UserId)),
      OrEmpty(GetItem(s, UserEmail)),
      OrEmpty(GetItem(s, UserName)),
      GetItem(s, UserIsAdmin) == Some("true"),
      OrEmpty(GetItem(s, UserPhone)),
      OrEmpty(GetItem(s, UserAddress)))
  }

  /** The mount effect, the same in both bars. */
  function Mount(st: BarState, s: Store): (r: BarState)
    // Signed in exactly when the store holds a non-empty token and the flag "true".
    ensures r.isAuthenticated <==> SignedIn(s)
    ensures r.user == Some(ReadUser(s))
    ensures r.current == st.current && r.badge == st.badge
  {
    var token := GetItem(s, AccessToken);
    var isAuth := GetItem(s, Authorization) == Some("true");
    st.(isAuthenticated := Truthy(token) && isAuth, user := Some(ReadUser(s)))
  }

  /** The bar and the `useAuth` hook read the same session from the same store. */
  lemma MountAgreesWithUseAuth(st: BarState, s: Store)
    ensures Some(Mount(st, s).isAuthenticated) == Evaluate(s).isAuthenticated
    ensures Mount(st, s).user.value.isAdmin == Evaluate(s).isAdmin
  {
  }

  /** The prefixes the menu recognises, in the order it tries them, with their keys. */
  const MenuPrefixes: seq<(string, string)> :=
    [("/products", "products"), ("/contact", "contact"), ("/cart", "cart"), ("/login", "login"), ("/register", "register")]

  /** The key of the first prefix of `table` that `pathname` starts with. */
  function FirstPrefix(pathname: string, table: seq<(string, string)>): (r: Option<string>)
    ensures r.Some? <==> exists i :: 0 <= i < |table| && StartsWith(pathname, table[i].0)
    ensures r.Some? ==> exists i :: 0 <= i < |table| && StartsWith(pathname, table[i].0) && r.value == table[i].1
    decreases |table|
  {
    if |table| == 0 then None
    else if StartsWith(pathname, table[0].0) then Some(table[0].1)
    else
      var rest := FirstPrefix(pathname, table[1..]);
      assert forall i :: 0 <= i < |table[1..]| ==> table[1..][i] == table[i + 1];
      rest
  }

  /** The location effect: the highlighted entry after a navigation to `pathname`. */
  function MenuKey(pathname: string, previous: string): (r: string)
    // The highlight is "home", a menu prefix's key, or what was highlighted before.
    ensures r == "home" || r == previous || exists i :: 0 <= i < |MenuPrefixes| && r == MenuPrefixes[i].1
    // It moves only for the home page or a path under one of the menu's prefixes.
    ensures r != previous ==> pathname == "/" || exists i :: 0 <= i < |MenuPrefixes| && StartsWith(pathname, MenuPrefixes[i].0)
  {
    if pathname == "/" then "home"
    else if StartsWith(pathname, "/products") then assert MenuPrefixes[0] == ("/products", "products"); "products"
    else if StartsWith(pathname, "/contact") then assert MenuPrefixes[1] == ("/contact", "contact"); "contact"
    else if StartsWith(pathname, "/cart") then assert MenuPrefixes[2] == ("/cart", "cart"); "cart"
    else if StartsWith(pathname, "/login") then assert MenuPrefixes[3] == ("/login", "login"); "login"
    else if StartsWith(pathname, "/register") then assert MenuPrefixes[4] == ("/register", "register"); "register"
    else previous
  }

  /**
   * The chain of tests is the table lookup: "home" for exactly "/", else the
   * first matching prefix in table order, else the previous entry.
   */
  lemma MenuKeyIsTableLookup(pathname: string, previous: string)
    ensures pathname == "/" ==> MenuKey(pathname, previous) == "home"
    ensures pathname != "/" ==> MenuKey(pathname, previous) == FirstPrefix(pathname, MenuPrefixes).GetOr(previous)
  {
    var t := MenuPrefixes;
    assert t[1..] == [t[1], t[2], t[3], t[4]];
    assert t[1..][1..] == [t[2], t[3], t[4]];
    assert t[1..][1..][1..] == [t[3], t[4]];
    assert t[1..][1..][1..][1..] == [t[4]];
    assert t[1..][1..][1..][1..][1..] == [];
  }

  /** Navigating twice to the same path highlights the same entry as navigating once. */
  lemma MenuKeyIdempotent(pathname: string, previous: string)
    ensures MenuKey(pathname, MenuKey(pathname, previous)) == MenuKey(pathname, previous)
  {
  }

  /** A path no prefix matches, such as an admin or orders page, keeps whatever was highlighted. */
  lemma UnmatchedKeepsPrevious(pathname: string, previous: string)
    requires pathname != "/"
    requires forall i :: 0 <= i < |MenuPrefixes| ==> !StartsWith(pathname, MenuPrefixes[i].0)
    ensures MenuKey(pathname, previous) == previous
  {
    MenuKeyIsTableLookup(pathname, previous);
  }

  /** What the cart request came back with: `success` and `data.items`, each item's quantity. */
  datatype CartAnswer = CartThrew | CartAnswered(success: bool, items: Option<seq<int>>)

  /** `items.reduce((total, item) => total + item.quantity, 0)`, from the left. */
  function QuantitySum(quantities: seq<int>): int
    decreases |quantities|
  {
    if |quantities| == 0 then 0
    else QuantitySum(quantities[..|quantities| - 1]) + quantities[|quantities| - 1]
  }

  /** The sum over two runs of items is the two sums added. */
  lemma {:induction false} QuantitySumConcat(a: seq<int>, b: seq<int>)
    ensures QuantitySum(a + b) == QuantitySum(a) + QuantitySum(b)
    decreases |b|
  {
    if |b| == 0 {
      assert a + b == a;
    } else {
      var init := b[..|b| - 1];
      assert (a + b)[..|a + b| - 1] == a + init;
      assert (a + b)[|a + b| - 1] == b[|b| - 1];
      QuantitySumConcat(a, init);
    }
  }

  /** With no negative quantity the badge never shows a negative count. */
  lemma {:induction false} QuantitySumNonNegative(quantities: seq<int>)
    requires forall i :: 0 <= i < |quantities| ==> quantities[i] >= 0
    ensures QuantitySum(quantities) >= 0
    decreases |quantities|
  {
    if |quantities| > 0 {
      QuantitySumNonNegative(quantities[..|quantities| - 1]);
    }
  }

  /** `getCartCount`: the new badge and whether a request went out. */
  function CartCount(isAuthenticated: bool, badge: int, answer: CartAnswer): (r: (int, bool))
    // Signed out: the badge drops to 0 and nothing is fetched.
    ensures !isAuthenticated ==> r == (0, false)
    ensures isAuthenticated ==> r.1
    // A successful answer sets the badge to the total quantity, no items counting as 0.
    ensures isAuthenticated && answer.CartAnswered? && answer.success ==>
      r.0 == (if answer.items.Some? then QuantitySum(answer.items.value) else 0)
    // Any other answer leaves the badge as it was.
    ensures isAuthenticated && !(answer.CartAnswered? && answer.success) ==> r.0 == badge
  {
    if !isAuthenticated then (0, false)
    else match answer
      case CartAnswered(success, items) =>
        if success then (if items.Some? then QuantitySum(items.value) else 0, true) else (badge, true)
      case CartThrew => (badge, true)
  }

  /** The count the badge shows for a cart is the same however the items are split into runs. */
  lemma BadgeCountsEveryItem(a: seq<int>, b: seq<int>)
    ensures CartCount(true, 0, CartAnswered(true, Some(a + b))).0
      == CartCount(true, 0, CartAnswered(true, Some(a))).0 + CartCount(true, 0, CartAnswered(true, Some(b))).0
  {
    QuantitySumConcat(a, b);
  }

  const LoggedOut := "Đăng xuất thành công"

  /** `handleLogout` of the current bar: the state afterwards and the effects in order. */
  function Logout(st: BarState): (r: (BarState, seq<Effect>))
    // The bar reads as signed out, with no user, no badge and no admin entry; the highlight stays.
    ensures !r.0.isAuthenticated && r.0.user.None? && r.0.badge == 0 && r.0.current == st.current
    ensures !AdminEntryShown(r.0)
    // The store is cleared first, the other listeners are told, and the last effect goes to /login.
    ensures |r.1| > 0 && r.1[0] == Clear && DispatchAuthChange in r.1 && r.1[|r.1| - 1] == Navigate("/login")
  {
    (st.(isAuthenticated := false, user := None, badge := 0),
     [Clear, DispatchAuthChange, ToastSuccess(LoggedOut), Navigate("/login")])
  }

  /** `handleLogout` of the older bar: it clears the store but keeps its own session state. */
  function LegacyLogout(st: BarState): (r: (BarState, seq<Effect>))
    // Only the badge is reset: the session and the admin entry stay as they were.
    ensures r.0.isAuthenticated == st.isAuthenticated && r.0.user == st.user && r.0.badge == 0
    ensures AdminEntryShown(r.0) == AdminEntryShown(st)
    // The store is cleared first and the page goes to /login, but no listener is told.
    ensures |r.1| > 0 && r.1[0] == Clear && Navigate("/login") in r.1 && DispatchAuthChange !in r.1
  {
    (st.(badge := 0), [Clear, Navigate("/login"), ToastSuccess(LoggedOut)])
  }

  /** The admin entry in the user menu: the menu shows when signed in, the entry when the user is an admin. */
  predicate AdminEntryShown(st: BarState) {
    st.isAuthenticated && st.user.Some? && st.user.value.isAdmin
  }

  /** Right after mount, the admin entry shows exactly for a signed-in store whose admin flag is "true". */
  lemma AdminEntryAfterMount(st: BarState, s: Store)
    ensures AdminEntryShown(Mount(st, s)) <==> SignedIn(s) && UserIsAdmin in s && s[UserIsAdmin] == "true"
  {
  }

  /**
   * After the current bar's logout the store is empty, the bar agrees with
   * what a fresh mount would read, the admin entry is gone, and the next
   * badge refresh fetches nothing.
   */
  lemma LogoutIsConsistent(st: BarState, s: Store, answer: CartAnswer)
    ensures Run(s, Logout(st).1) == map[]
    ensures Logout(st).0.isAuthenticated == Mount(st, Run(s, Logout(st).1)).isAuthenticated
    ensures !AdminEntryShown(Logout(st).0)
    ensures CartCount(Logout(st).0.isAuthenticated, Logout(st).0.badge, answer) == (0, false)
    ensures DispatchAuthChange in Logout(st).1 && Logout(st).1[|Logout(st).1| - 1] == Navigate("/login")
  {
    var t := Logout(st).1;
    assert ReadOnly(t[1..]);
    assert [Clear] + t[1..] == t;
    ClearThenReadOnly(s, t[1..]);
  }

  /**
   * After the older bar's logout the store is empty, yet a bar that was
   * signed in still believes it is: it keeps the admin entry of an admin and
   * the next badge refresh still asks the server for the cart.
   */
  lemma LegacyLogoutIsStale(st: BarState, s: Store, answer: CartAnswer)
    requires st.isAuthenticated
    ensures Run(s, LegacyLogout(st).1) == map[]
    ensures LegacyLogout(st).0.isAuthenticated && !Mount(st, Run(s, LegacyLogout(st).1)).isAuthenticated
    ensures AdminEntryShown(LegacyLogout(st).0) == AdminEntryShown(st)
    ensures CartCount(LegacyLogout(st).0.isAuthenticated, 0, answer).1
    ensures DispatchAuthChange !in LegacyLogout(st).1 && Navigate("/login") in LegacyLogout(st).1
  {
    var t := LegacyLogout(st).1;
    assert ReadOnly(t[1..]);
    assert [Clear] + t[1..] == t;
    ClearThenReadOnly(s, t[1..]);
  }

  /** The current and new password fields: required, at least six characters. */
  predicate PasswordFieldValid(value: Option<string>) {
    Required(value) && |value.value| >= 6
  }

  /** The confirmation's own validator: an empty value, or one equal to the new password. */
  predicate ConfirmValidator(value: Option<string>, newPassword: Option<string>) {
    !Truthy(value) || newPassword == value
  }

  /** The confirmation field: required, and its validator passes. */
  predicate ConfirmFieldValid(value: Option<string>, newPassword: Option<string>) {
    Required(value) && ConfirmValidator(value, newPassword)
  }

  /** The form submits exactly when all three fields pass. */
  predicate PasswordFormValid(current: Option<string>, newPassword: Option<string>, confirm: Option<string>) {
    PasswordFieldValid(current) && PasswordFieldValid(newPassword) && ConfirmFieldValid(confirm, newPassword)
  }

  /**
   * A submitted form carries a current and a new password of at least six
   * characters and a confirmation equal to the new one; and every such
   * triple is accepted.
   */
  lemma PasswordFormExact(current: Option<string>, newPassword: Option<string>, confirm: Option<string>)
    ensures PasswordFormValid(current, newPassword, confirm) <==>
      && current.Some? && |current.value| >= 6
      && newPassword.Some? && |newPassword.value| >= 6
      && confirm == newPassword
  {
  }

  /** The validator alone lets an empty confirmation through; the required rule is what stops it. */
  lemma EmptyConfirmationNeedsRequired(newPassword: Option<string>)
    ensures ConfirmValidator(Some(""), newPassword) && ConfirmValidator(None, newPassword)
    ensures !ConfirmFieldValid(Some(""), newPassword) && !ConfirmFieldValid(None, newPassword)
  {
  }

  /** What the change-password request came back with. */
  datatype PasswordAnswer = PasswordThrew(serverMessage: Option<string>) | PasswordAnswered(success: bool, message: Option<string>)

  const PasswordChanged := "Đổi mật khẩu thành công"
  const PasswordChangeFailed := "Đổi mật khẩu thất bại"

  /** `handleChangePassword`: whether the dialog stays open, and the toast. */
  function ChangePassword(answer: PasswordAnswer): (r: (bool, Effect))
    // The dialog closes exactly on a successful answer, with the success toast.
    ensures !r.0 <==> answer.PasswordAnswered? && answer.success
    ensures !r.0 ==> r.1 == ToastSuccess(PasswordChanged)
    // Otherwise one error toast with the server's message, or the fixed one; never blank.
    ensures r.0 ==> r.1.ToastError? && r.1.message != ""
    // That message is the answer's own when it carries a non-empty one, otherwise the fixed text.
    ensures r.0 && answer.PasswordAnswered? ==>
      r.1.message == if Truthy(answer.message) then answer.message.value else PasswordChangeFailed
    ensures r.0 && answer.PasswordThrew? ==>
      r.1.message == if Truthy(answer.serverMessage) then answer.serverMessage.value else PasswordChangeFailed
  {
    match answer
    case PasswordAnswered(success, message) =>
      if success then (false, ToastSuccess(PasswordChanged))
      else (true, ToastError(if Truthy(message) then message.value else PasswordChangeFailed))
    case PasswordThrew(serverMessage) =>
      (true, ToastError(if Truthy(serverMessage) then serverMessage.value else PasswordChangeFailed))
  }
}
