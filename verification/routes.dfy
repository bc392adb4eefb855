/**
 * The route table of `App`: which page each path shows and which
 * `AuthRoute` class guards it. Paths are matched segment by segment;
 * `:id` matches any one non-empty segment; an unmatched path shows the
 * not-found page with no guard.
 */
module Routes {
  import opened Wrappers
  import opened Js
  import opened Seqs
  import opened Text
  import opened Session
  import opened Guards

  datatype Page =
    | LoginPage | RegisterPage | HomePage
    | ProductListPage | ProductDetailsPage | CartPage | ContactPage | OrderListPage | OrderDetailPage
    | AdminProductPage | AdminCategoryPage | AdminOrdersPage | AdminOrderDetailPage
    | NotFoundPage

  /** The guard a route sits under: an `AuthRoute` class, or none (the catch-all). */
  datatype Guard = Guarded(routeType: RouteType) | Unguarded

  predicate NonEmpty(s: string) {
    s != ""
  }

  /** The non-empty segments of a pathname. */
  function Segments(path: string): seq<string> {
    Keep(Split(path, '/'), NonEmpty)
  }

  /** The `AuthRoute` class each page's element sits under. */
  function GuardOf(p: Page): Guard {
    match p
    case LoginPage | RegisterPage | HomePage => Guarded(Public)
    case ProductListPage | ProductDetailsPage | CartPage | ContactPage | OrderListPage | OrderDetailPage => Guarded(User)
    case AdminProductPage | AdminCategoryPage | AdminOrdersPage | AdminOrderDetailPage => Guarded(Admin)
    case NotFoundPage => Unguarded
  }

  /** The `<Routes>` table, by segment list. */
  function RouteOf(segs: seq<string>): (r: (Page, Guard))
    ensures r.0 == NotFoundPage <==> r.1 == Unguarded
    ensures r.1 == GuardOf(r.0)
  {
    if |segs| == 0 then (HomePage, Guarded(Public))
    else if |segs| == 1 then
      if segs[0] == "login" then (LoginPage, Guarded(Public))
      else if segs[0] == "register" then (RegisterPage, Guarded(Public))
      else if segs[0] == "products" then (ProductListPage, Guarded(User))
      else if segs[0] == "cart" then (CartPage, Guarded(User))
      else if segs[0] == "contact" then (ContactPage, Guarded(User))
      else if segs[0] == "orders" then (OrderListPage, Guarded(User))
      else (NotFoundPage, Unguarded)
    else if |segs| == 2 then
      if segs[0] == "products" then (ProductDetailsPage, Guarded(User))
      else if segs[0] == "orders" then (OrderDetailPage, Guarded(User))
      else if segs[0] == "admin" && segs[1] == "product" then (AdminProductPage, Guarded(Admin))
      else if segs[0] == "admin" && segs[1] == "category" then (AdminCategoryPage, Guarded(Admin))
      else if segs[0] == "admin" && segs[1] == "orders" then (AdminOrdersPage, Guarded(Admin))
      else (NotFoundPage, Unguarded)
    else if |segs| == 3 && segs[0] == "admin" && segs[1] == "orders" then (AdminOrderDetailPage, Guarded(Admin))
    else (NotFoundPage, Unguarded)
  }

  /** The page a pathname shows and the guard in front of it. */
  function Resolve(path: string): (r: (Page, Guard))
    // Every page has one guard, wherever it is reached from.
    ensures r.1 == GuardOf(r.0)
    // The home page is exactly the path without segments; admin pages sit under /admin.
    ensures r.0 == HomePage <==> Segments(path) == []
    ensures r.1 == Guarded(Admin) ==> |Segments(path)| >= 2 && Segments(path)[0] == "admin"
    // Nothing is deeper than three segments.
    ensures |Segments(path)| > 3 ==> r == (NotFoundPage, Unguarded)
  {
    RouteOf(Segments(path))
  }

  /** What a visit to `path` renders, given the guard's session state. */
  function Visit(st: AuthState, path: string): (r: Outcome)
    // The not-found page always renders; every other page waits for the session check.
    ensures Resolve(path).0 == NotFoundPage ==> r == Content
    ensures Resolve(path).0 != NotFoundPage ==> (r == Spinner <==> st.isLoading)
    // User and admin pages render only for a session not known to be signed out; admin pages only for an admin.
    ensures r == Content && Resolve(path).1 in {Guarded(User), Guarded(Admin)} ==> st.isAuthenticated != Some(false)
    ensures r == Content && Resolve(path).1 == Guarded(Admin) ==> st.isAdmin
    // A redirect to /login is only ever for a visitor known to be signed out.
    ensures r == Redirect(LoginPath, true) ==> st.isAuthenticated == Some(false)
  {
    match Resolve(path).1
    case Unguarded => Content
    case Guarded(rt) => AuthRoute(rt, st, path)
  }

  /** "/" followed by the segments joined by "/" (just "/" for none). */
  function PathOf(segs: seq<string>): string {
    if |segs| == 0 then "/" else SlashJoin(segs)
  }

  function SlashJoin(segs: seq<string>): string
    decreases |segs|
  {
    if |segs| == 0 then "" else "/" + segs[0] + SlashJoin(segs[1..])
  }

  predicate PlainSegment(s: string) {
    s != "" && '/' !in s
  }

  /** A slash, the first segment, and the rest of the path. */
  lemma SlashJoinCons(segs: seq<string>)
    requires |segs| > 0
    ensures SlashJoin(segs) == ['/'] + (segs[0] + SlashJoin(segs[1..]))
  {
    var x := segs[0];
    var y := SlashJoin(segs[1..]);
    assert "/" == ['/'];
    assert "/" + x + y == ['/'] + (x + y);
  }

  /** A path of one plain segment has that one segment. */
  lemma SegmentsOfOne(a: string)
    requires PlainSegment(a)
    ensures Keep(Split(SlashJoin([a]), '/'), NonEmpty) == [a]
  {
    assert [a][1..] == [];
    assert SlashJoin([a]) == ['/'] + a;
    SplitSeparatorFirst(a, '/');
    SplitNoSeparator(a, '/');
    KeepCons("", [a], NonEmpty);
    KeepCons(a, [], NonEmpty);
  }

  /** The pieces of a path with a plain first segment and a non-empty rest. */
  lemma SplitOfCons(a: string, tail: seq<string>)
    requires PlainSegment(a) && |tail| > 0
    ensures
      var more := tail[0] + SlashJoin(tail[1..]);
      && Split(SlashJoin([a] + tail), '/') == [""] + ([a] + Split(more, '/'))
      && Split(SlashJoin(tail), '/') == [""] + Split(more, '/')
  {
    var more := tail[0] + SlashJoin(tail[1..]);
    assert ([a] + tail)[1..] == tail;
    SlashJoinCons([a] + tail);
    SlashJoinCons(tail);
    ConcatAssoc(a, ['/'], more);
    SplitSeparatorFirst(a + ['/'] + more, '/');
    SplitAppend(a, more, '/');
    SplitNoSeparator(a, '/');
    SplitSeparatorFirst(more, '/');
  }

  /** The empty piece before a leading slash is dropped; a plain segment is kept. */
  lemma KeepAfterSlash(a: string, x: seq<string>)
    requires a != ""
    ensures Keep([""] + x, NonEmpty) == Keep(x, NonEmpty)
    ensures Keep([""] + ([a] + x), NonEmpty) == [a] + Keep(x, NonEmpty)
  {
    KeepCons("", x, NonEmpty);
    KeepCons("", [a] + x, NonEmpty);
    KeepCons(a, x, NonEmpty);
  }

  /** A plain segment in front of a path adds itself in front of the path's segments. */
  lemma SegmentsOfCons(a: string, tail: seq<string>)
    requires PlainSegment(a) && |tail| > 0
    ensures Keep(Split(SlashJoin([a] + tail), '/'), NonEmpty) == [a] + Keep(Split(SlashJoin(tail), '/'), NonEmpty)
  {
    SplitOfCons(a, tail);
    KeepAfterSlash(a, Split(tail[0] + SlashJoin(tail[1..]), '/'));
  }

  lemma {:induction false} SegmentsOfSlashJoin(segs: seq<string>)
    requires forall i :: 0 <= i < |segs| ==> PlainSegment(segs[i])
    ensures Keep(Split(SlashJoin(segs), '/'), NonEmpty) == segs
    decreases |segs|
  {
    if |segs| == 0 {
      assert Split("", '/') == [""];
    } else if |segs| == 1 {
      SegmentsOfOne(segs[0]);
      assert [segs[0]] == segs;
    } else {
      SegmentsOfSlashJoin(segs[1..]);
      SegmentsOfCons(segs[0], segs[1..]);
      assert [segs[0]] + segs[1..] == segs;
    }
  }

  /** A path built from plain segments has exactly those segments. */
  lemma SegmentsOfPath(segs: seq<string>)
    requires forall i :: 0 <= i < |segs| ==> PlainSegment(segs[i])
    ensures Segments(PathOf(segs)) == segs
  {
    if |segs| == 0 {
      assert "/" == "" + ['/'] + "";
      SplitAppend("", "", '/');
      assert Split("/", '/') == ["", ""];
      assert Keep(["", ""], NonEmpty) == [];
    } else {
      SegmentsOfSlashJoin(segs);
    }
  }

  lemma PathOfTwo(a: string, b: string)
    ensures PathOf([a, b]) == "/" + a + "/" + b
  {
    assert [a, b][1..] == [b];
    assert SlashJoin([b]) == "/" + b + SlashJoin([]);
  }

  lemma PathOfThree(a: string, b: string, c: string)
    ensures PathOf([a, b, c]) == "/" + a + "/" + b + "/" + c
  {
    assert [a, b, c][1..] == [b, c];
    PathOfTwo(b, c);
  }

  /** A path built from plain segments resolves by its segment list. */
  lemma ResolvePath(segs: seq<string>)
    requires forall i :: 0 <= i < |segs| ==> PlainSegment(segs[i])
    ensures Resolve(PathOf(segs)) == RouteOf(segs)
  {
    SegmentsOfPath(segs);
  }

  lemma ResolvesLogin()
    ensures Resolve("/login") == (LoginPage, Guarded(Public))
  {
    assert PathOf(["login"]) == "/login";
    ResolvePath(["login"]);
  }

  lemma ResolvesRegister()
    ensures Resolve("/register") == (RegisterPage, Guarded(Public))
  {
    assert PathOf(["register"]) == "/register";
    ResolvePath(["register"]);
  }

  lemma ResolvesProductList()
    ensures Resolve("/products") == (ProductListPage, Guarded(User))
  {
    assert PathOf(["products"]) == "/products";
    ResolvePath(["products"]);
  }

  lemma ResolvesCart()
    ensures Resolve("/cart") == (CartPage, Guarded(User))
  {
    assert PathOf(["cart"]) == "/cart";
    ResolvePath(["cart"]);
  }

  lemma ResolvesContact()
    ensures Resolve("/contact") == (ContactPage, Guarded(User))
  {
    assert PathOf(["contact"]) == "/contact";
    ResolvePath(["contact"]);
  }

  lemma ResolvesOrderList()
    ensures Resolve("/orders") == (OrderListPage, Guarded(User))
  {
    assert PathOf(["orders"]) == "/orders";
    ResolvePath(["orders"]);
  }

  lemma ResolvesProductDetails(id: string)
    requires PlainSegment(id)
    ensures Resolve("/products/" + id) == (ProductDetailsPage, Guarded(User))
  {
    PathOfTwo("products", id);
    assert "/" + "products" + "/" + id == "/products/" + id;
    ResolvePath(["products", id]);
  }

  lemma ResolvesOrderDetail(id: string)
    requires PlainSegment(id)
    ensures Resolve("/orders/" + id) == (OrderDetailPage, Guarded(User))
  {
    PathOfTwo("orders", id);
    assert "/" + "orders" + "/" + id == "/orders/" + id;
    ResolvePath(["orders", id]);
  }

  /** A path with two segments under /admin resolves by those segments. */
  lemma ResolvesAdminSection(b: string)
    requires PlainSegment(b)
    ensures Resolve("/admin/" + b) == RouteOf(["admin", b])
  {
    PathOfTwo("admin", b);
    assert "/" + "admin" + "/" + b == "/admin/" + b;
    ResolvePath(["admin", b]);
  }

  lemma ResolvesAdminProduct()
    ensures Resolve("/admin/product") == (AdminProductPage, Guarded(Admin))
  {
    assert Resolve("/admin/product") == RouteOf(["admin", "product"]) by {
      ResolvesAdminSection("product");
      assert "/admin/" + "product" == "/admin/product";
    }
  }

  lemma ResolvesAdminCategory()
    ensures Resolve("/admin/category") == (AdminCategoryPage, Guarded(Admin))
  {
    assert Resolve("/admin/category") == RouteOf(["admin", "category"]) by {
      ResolvesAdminSection("category");
      assert "/admin/" + "category" == "/admin/category";
    }
  }

  lemma ResolvesAdminOrders()
    ensures Resolve("/admin/orders") == (AdminOrdersPage, Guarded(Admin))
  {
    assert Resolve("/admin/orders") == RouteOf(["admin", "orders"]) by {
      ResolvesAdminSection("orders");
      assert "/admin/" + "orders" == "/admin/orders";
    }
  }

  lemma ResolvesAdminOrderDetail(id: string)
    requires PlainSegment(id)
    ensures Resolve("/admin/orders/" + id) == (AdminOrderDetailPage, Guarded(Admin))
  {
    PathOfThree("admin", "orders", id);
    assert "/" + "admin" + "/" + "orders" + "/" + id == "/admin/orders/" + id;
    ResolvePath(["admin", "orders", id]);
  }

  /** /login and /register sit under the public guard. */
  lemma AuthPagesArePublic()
    ensures Resolve("/login") == (LoginPage, Guarded(Public))
    ensures Resolve("/register") == (RegisterPage, Guarded(Public))
  {
    ResolvesLogin();
    ResolvesRegister();
  }

  /** The home page sits under the public guard. */
  lemma HomeIsPublic()
    ensures Resolve("/") == (HomePage, Guarded(Public))
  {
    ResolvePath([]);
  }

  /** The shop and order pages sit under the user guard. */
  lemma ShopPagesAreUser(id: string)
    requires PlainSegment(id)
    ensures Resolve("/products") == (ProductListPage, Guarded(User))
    ensures Resolve("/products/" + id) == (ProductDetailsPage, Guarded(User))
    ensures Resolve("/cart") == (CartPage, Guarded(User))
    ensures Resolve("/contact") == (ContactPage, Guarded(User))
    ensures Resolve("/orders") == (OrderListPage, Guarded(User))
    ensures Resolve("/orders/" + id) == (OrderDetailPage, Guarded(User))
  {
    ResolvesProductList();
    ResolvesProductDetails(id);
    ResolvesCart();
    ResolvesContact();
    ResolvesOrderList();
    ResolvesOrderDetail(id);
  }

  /** The admin pages sit under the admin guard. */
  lemma AdminPagesAreAdmin(id: string)
    requires PlainSegment(id)
    ensures Resolve("/admin/product") == (AdminProductPage, Guarded(Admin))
    ensures Resolve("/admin/category") == (AdminCategoryPage, Guarded(Admin))
    ensures Resolve("/admin/orders") == (AdminOrdersPage, Guarded(Admin))
    ensures Resolve("/admin/orders/" + id) == (AdminOrderDetailPage, Guarded(Admin))
  {
    ResolvesAdminProduct();
    ResolvesAdminCategory();
    ResolvesAdminOrders();
    ResolvesAdminOrderDetail(id);
  }

  /** Paths outside the table show the not-found page unguarded. */
  lemma UnknownPathIsNotFound(segs: seq<string>)
    requires forall i :: 0 <= i < |segs| ==> PlainSegment(segs[i])
    requires |segs| > 3 || (|segs| == 1 && segs[0] == "checkout")
    ensures Resolve(PathOf(segs)) == (NotFoundPage, Unguarded)
  {
    ResolvePath(segs);
  }

  /** An empty store, evaluated, visiting /orders is sent to /login with its origin. */
  lemma SignedOutVisitToOrders()
    ensures Visit(Evaluate(map[]), "/orders") == Redirect("/login", true)
  {
    ShopPagesAreUser("x");
  }

  /** A signed-in admin visiting /login is sent to the admin home. */
  lemma AdminVisitToLogin()
    ensures Visit(Evaluate(map[AccessToken := "abc", Authorization := "true", UserIsAdmin := "true", UserEmail := "a@b.com"]), "/login")
      == Redirect("/admin/product", true)
  {
    AuthPagesArePublic();
  }

  /** A signed-in user on the home page sees it: the public guard does not redirect there. */
  lemma SignedInHomeRenders(s: Store)
    requires SignedIn(s)
    ensures Visit(Evaluate(s), "/") == Content
  {
    HomeIsPublic();
  }
}
