# Storefront decision logic in Dafny

This project models the decision logic of a React storefront. Rendering, layout and network transport are not modelled. The parts modelled are:

- the browser's `localStorage` as a map from strings to strings;
- the `useAuth` hook and the three route guard components;
- the start-up sanitiser, the two sign-in handlers and the axios interceptors;
- the Redux cart slice and the cart page's handlers;
- the order status mappings, statistics, filters and status update on the order pages;
- the product detail page's image, feature list and add-to-cart handler;
- the admin products form: editing features as one comma-separated line and saving them back;
- both navigation bars: session on mount, highlighted menu entry, cart badge, logout and the change-password form.

The modules and their files:

| module | file | models |
|---|---|---|
| `Wrappers` | wrappers.dfy | `Option` |
| `Js` | js.dfy | the store, JavaScript truthiness of optional strings, effect traces and running them on the store |
| `Seqs` | seqs.dfy | `Array.prototype.filter` and the subsequence relation |
| `Text` | text.dfy | `split` on one character, `trim`, `join`, `startsWith`, `includes`, ASCII `toLowerCase` |
| `Session` | session.dfy | `useAuth` |
| `Guards` | guards.dfy | `AuthRoute`, `ProtectedRoute`, `PublicRoute` |
| `AuthInit` | auth_init.dfy | `AuthInitializer` |
| `Api` | api.dfy | the request and response interceptors of both axios instances, `authAPI.checkToken` |
| `Login` | login.dfy | the password form's `handleLogin` and the Google button's `onSuccess` |
| `Routes` | routes.dfy | the route table of `App` |
| `CartSlice` | cart_slice.dfy | the Redux `cart` slice |
| `CartPage` | cart_page.dfy | the cart page |
| `OrderStatus` | order_status.dfy | `ORDER_STATUS`, the step and colour mappings, the admin detail panel, the order source |
| `OrderStats` | order_stats.dfy | `calculateStats` of both admin order pages and their local status update |
| `OrderFilter` | order_filter.dfy | the admin orders list's filter effect and status options |
| `Features` | features.dfy | feature text: comma split/trim on save, `", "` join on edit, newline split for display |
| `ProductDetail` | product_detail.dfy | the product detail page |
| `AdminProducts` | admin_products.dfy | the admin products page |
| `NavBar` | navbar.dfy | `src/components/NavBar.tsx` and the older `src/modules/nav-bar.tsx` |

## Modelling conventions

- **Event handlers.** A handler returns its observable effects in program order, as a `seq<Js.Effect>`: store writes, `localStorage.clear()`, toasts, navigations, the `auth-change` event and the cart badge refresh. The store after a handler is `Js.Run(store, trace)`, so an ordering claim is a statement about the trace.
- **Server answers.** A server answer, or the exception a call throws, is a parameter of the handler's function.
- **Undefined values.** `undefined` is `None`. `Js.Truthy` is `!!v` for an optional string.
- **Absent `ORDER_STATUS` keys.** Reading an absent key gives `None`. JavaScript's `===` between two `undefined` values holds, so code written with those constants tests for a missing status.
- **Money.** Amounts are integer cents.
- **Dates.** Timestamps are integers.
- **`_id`.** A Dafny identifier cannot begin with an underscore, so the field `_id` is named `mongoId` or `underscoreId`.

## Behaviour worth knowing

- **`useAuth`** derives `isAdmin` from `user_isAdmin` alone, even without a session (`Session.AdminWithoutSession`).
- **`AuthRoute`'s public branch** redirects a signed-in visitor only on `/login` and `/register`. On the home page it renders (`Guards.PublicVariantsDiffer`, `Routes.SignedInHomeRenders`).
- **The start-up check** needs the token, `authorization == "true"`, a non-empty email, a non-empty name and the presence of `user_isAdmin`. Any value of `user_isAdmin` passes.
- **`authAPI.checkToken`** looks at the token only. The cart page and the admin products page gate on it rather than on the session flag (`Api.CheckTokenIgnoresFlag`, `AdminProducts.TokenAloneLoads`).
- **Checkout** navigates to `/checkout`, which is not in the route table, so the visit lands on the not-found page (`CartPage.CheckoutPathIsNotFound`).
- **Id precedence.** The admin save sends the update to `id || _id`. Everywhere else `_id || id` is used.
- **The older navigation bar's logout** clears the store but leaves its own session state as it was (`NavBar.LegacyLogoutIsStale`).

## Model

| member | source | states |
|---|---|---|
| Js.RunAppend | src/page/auth/index.tsx:38-50 | A handler's effects applied in two pieces leave the same store as applied at once. This is what lets a sign-in's writes be separated from the toast and navigation that follow. |
| Js.RunReadOnly | src/page/auth/index.tsx:47-50 | Toasts, navigations and events after the writes leave the store unchanged. |
| Js.ClearThenReadOnly | src/components/NavBar.tsx:114-131 | Clearing the store and then only reading ends with an empty store, whatever the store held. |
| Session.Evaluate | src/hooks/useAuth.tsx:23-32 | After the mount effect the hook is no longer loading and `isAuthenticated` is a definite boolean. That boolean holds exactly when the token is non-empty and `authorization` is "true". `isAdmin` holds exactly when `user_isAdmin` is "true". |
| Session.EmptyStoreIsAnonymous | src/hooks/useAuth.tsx:25-30 | An empty store evaluates to signed out and not admin. |
| Session.EvaluateReadsThreeKeys | src/hooks/useAuth.tsx:23-32 | Two stores that agree on the token, the flag and the admin key evaluate alike, so repeated evaluation of an unchanged store agrees. |
| Session.AdminWithoutSession | src/hooks/useAuth.tsx:27-30 | A store holding only `user_isAdmin = "true"` reports an administrator who is not signed in. |
| Guards.AuthRoute | src/components/AuthRoute.tsx:26-70 | The spinner is shown exactly while loading. The admin route renders exactly when not known to be signed out and admin: a signed-out visitor goes to /login with the origin, and a signed-in non-admin goes to / without it. The user route renders unless signed out. The public route redirects exactly a signed-in visitor of /login or /register, to the admin home or the home page by role. |
| Guards.ProtectedRoute | src/components/ProtectedRoute.tsx:8-43 | The spinner is shown exactly while the session is unknown. Signed out goes to /login with the origin whatever `requireAdmin` is. Content is shown exactly when signed in and either no admin is required or the user is an admin. A non-admin goes to /. |
| Guards.PublicRoute | src/components/PublicRoute.tsx:27-42 | The spinner is shown exactly while loading. Any signed-in visitor is redirected, on any path, with the origin, to the admin home or the home page by role. A signed-out visitor sees the page. |
| Guards.PendingShowsSpinner | src/hooks/useAuth.tsx:19-21 | Before any effect runs, all three guards show the spinner. |
| Guards.NoGuardedContentWhenSignedOut | src/components/AuthRoute.tsx:36-59 | Once the hook has evaluated a store, admin or user content is shown only for a signed-in store. Admin content additionally needs `user_isAdmin = "true"`. |
| Guards.ProtectedMatchesAuthRoute | src/components/ProtectedRoute.tsx:13-43 | For an evaluated store, `ProtectedRoute` behaves as `AuthRoute`'s user branch, and its `requireAdmin` variant as the admin branch. |
| Guards.PublicVariantsDiffer | src/components/AuthRoute.tsx:61-70 | The two public guards agree on /login and /register. On any other path a signed-in visitor sees the page under `AuthRoute` but is redirected by `PublicRoute`. |
| AuthInit.InitializeAuth | src/components/AuthInitializer.tsx:5-17 | The result is the store unchanged or the empty store. It is empty exactly when the token, email or name is missing or empty, the flag is not "true", or `user_isAdmin` is absent. |
| AuthInit.InitializeIdempotent | src/components/AuthInitializer.tsx:5-17 | Running the check twice is running it once. |
| AuthInit.AnyAdminFlagPasses | src/components/AuthInitializer.tsx:10-13 | A complete store passes whatever `user_isAdmin` holds. Removing the key makes the check wipe the store. |
| AuthInit.InitializedStoreIsConsistent | src/components/AuthInitializer.tsx:13-17 | After start-up the store is empty and reads as signed out, or it reads as signed in. An admin flag is never reported without a session. |
| Api.AuthorizationHeader | src/services/api.ts:13-29 | A header is set exactly when the token is non-empty. It is "Bearer " followed by the token. |
| Api.OnResponseError | src/services/api.ts:41-63 | The error is rejected unchanged in every case. The store is cleared exactly on a 401, or on a 400 whose error is "Token is not valid". The clear comes with the expiry toast and a redirect to /login, and nothing is done otherwise. The older instance in src/api/inteceptor.ts:27-50 makes the same decision. |
| Api.ErrorPathStore | src/api/inteceptor.ts:29-48 | After the error path the store is empty on expiry and unchanged otherwise. An expired store reads as signed out. |
| Api.OtherErrorsKeepSession | src/services/api.ts:45-62 | Any other status, a 400 with another message, and a network error all keep the store. |
| Api.SignInRejectedWith401 | src/services/api.ts:45-60 | A sign-in rejected with 401 goes through the interceptor and then the form's catch, and the store ends empty. |
| Api.CheckToken | src/services/api.ts:82-88 | `isAuthenticated` holds exactly when the token is non-empty, which is exactly when a request would carry a header. The token is returned as read. |
| Api.CheckTokenIgnoresFlag | src/services/api.ts:82-88 | With a token but no authorization flag, `checkToken` reports a session that `useAuth` does not. |
| Api.SignedInPassesCheckToken | src/services/api.ts:82-88 | Every store `useAuth` reads as signed in passes `checkToken`. |
| Login.PasswordLogin | src/page/auth/index.tsx:12-56 | Nothing is written unless a 200 answer carries a user. A rejection, a non-200 status and a missing user each end in their own error toast and message. Navigation happens exactly when all eight keys were written, and goes to the role's landing page. |
| Login.GoogleLogin | src/components/GoogleLoginButton.tsx:12-50 | Only a successful answer writes. A thrown error shows the server's message or the fixed one. The auth-change event is dispatched exactly when all eight writes happened, and only after them. Navigation happens exactly then, to the role's landing page. |
| Login.RunRecord | src/page/auth/index.tsx:38-45 | The eight writes store the session record over the previous store. The effects after them change nothing. |
| Login.RecordSignsIn | src/page/auth/index.tsx:38-45 | A record with a non-empty token, email and name passes the start-up check, and reads as signed in with the written role. |
| Login.PasswordLoginSignsIn | src/page/auth/index.tsx:38-50 | A completed password sign-in leaves a store that survives start-up and reads as signed in with the user's role. |
| Login.GoogleLoginSignsIn | src/components/GoogleLoginButton.tsx:22-43 | The same holds for a completed Google sign-in. |
| Login.HandlersAgree | src/components/GoogleLoginButton.tsx:27-34 | Both handlers store the same record. The exception is a missing phone or address: the password form stores it as "undefined" and the Google button as "". When both are present the two stores are equal. |
| Login.MissingRoleLeavesPartialSession | src/page/auth/index.tsx:38-43 | A user without a role flag makes the form throw after five writes. The store then reads as signed in, yet the start-up check wipes it. |
| Routes.RouteOf | src/App.tsx:35-72 | Exactly the not-found page is unguarded. |
| Routes.SegmentsOfPath | src/App.tsx:35-72 | A path built from plain segments splits back into exactly those segments, so matching by segments is matching the path. |
| Routes.Resolve | src/App.tsx:35-72 | Each page sits under one guard wherever it is reached from. The home page is exactly the path without segments, admin pages lie under /admin, and a path of more than three segments is the unguarded not-found page. |
| Routes.Visit | src/App.tsx:35-72 | The not-found page always renders, and every other page shows the spinner exactly while loading. User and admin pages render only for a session not known to be signed out, and admin pages only for an admin. A redirect to /login is only for a visitor known to be signed out. |
| Routes.ResolvePath | src/App.tsx:35-72 | A path built from plain segments resolves by its segment list. |
| Routes.AuthPagesArePublic | src/App.tsx:37-40 | /login and /register sit under the public guard. |
| Routes.HomeIsPublic | src/App.tsx:43-47 | / sits under the public guard. |
| Routes.ShopPagesAreUser | src/App.tsx:50-59 | /products, /products/:id, /cart, /contact, /orders and /orders/:id sit under the user guard. |
| Routes.AdminPagesAreAdmin | src/App.tsx:62-69 | The four admin paths sit under the admin guard. |
| Routes.UnknownPathIsNotFound | src/App.tsx:72 | Any plain path of more than three segments, and /checkout, shows the not-found page with no guard. |
| Routes.SignedOutVisitToOrders | src/components/AuthRoute.tsx:51-56 | An empty store visiting /orders is sent to /login with its origin. |
| Routes.AdminVisitToLogin | src/components/AuthRoute.tsx:61-66 | A signed-in administrator visiting /login is sent to the admin home. |
| Routes.SignedInHomeRenders | src/components/AuthRoute.tsx:68-70 | A signed-in visitor of / sees the home page. |
| CartSlice.SetCart | src/redux/cart.ts:18-33 | The payload's length and order are kept. Quantity falls back to 1 when missing or 0, and is never 0. An item is gone only when the payload says `false`. |
| CartSlice.SetCartUnique | src/redux/cart.ts:18-33 | A loaded cart has unique ids exactly when the payload's entries have distinct `_id \|\| id` values. |
| CartSlice.LoadThenEdit | src/redux/cart.ts:18-57 | After loading a payload with distinct ids, adding a product adds exactly one unit, and removing an id afterwards leaves the ids unique. |
| CartSlice.FindIndex | src/redux/cart.ts:36-38 | `find`: the first item with the id, or none exactly when no item has it. |
| CartSlice.AddToCart | src/redux/cart.ts:34-52 | For an id already present, that one item gains one unit and nothing else changes. Otherwise one new item with quantity 1 that exists is appended at the end. |
| CartSlice.RemoveFromCart | src/redux/cart.ts:53-57 | No item with the id remains. Every copy of every other item is kept, in order. |
| CartSlice.UpdateQuantity | src/redux/cart.ts:58-65 | Only the first item with the id takes the new quantity. Without a match nothing changes, and the length never changes. |
| CartSlice.TotalAfterUpdate | src/redux/cart.ts:62-64 | Changing one item's quantity changes the total by the difference. |
| CartSlice.TotalAfterAppend | src/redux/cart.ts:41-50 | Appending an item adds its quantity to the total. |
| CartSlice.AddToCartAddsOne | src/redux/cart.ts:34-52 | Adding raises the total quantity by exactly one and keeps ids unique. |
| CartSlice.RemoveAbsentIsNoOp | src/redux/cart.ts:53-57 | Removing an absent id changes nothing. |
| CartSlice.RemoveKeepsUnique | src/redux/cart.ts:53-57 | Removal keeps ids unique. |
| CartSlice.UpdateKeepsIds | src/redux/cart.ts:58-65 | Updating a quantity keeps every id in place, so unique ids stay unique. |
| CartPage.SelectedTotal | src/page/cart/index.tsx:49-58 | The loop's total is the sum of `(price or 0) × quantity` over the ticked rows. It equals the filter-then-reduce the page writes. |
| CartPage.LineSumAppend | src/page/cart/index.tsx:52-55 | The reduce over one more row adds that row's amount. |
| CartPage.FilterThenReduce | src/page/cart/index.tsx:50-55 | The back-to-front subtotal is the front-to-back reduce of the filtered rows. |
| CartPage.EmptySelectionTotalsZero | src/page/cart/index.tsx:49-58 | With nothing ticked the total is 0. |
| CartPage.QuantityChange | src/page/cart/index.tsx:61-86 | A value missing or below 1 sends nothing and changes nothing. Otherwise a request is sent. Only a successful answer changes rows: exactly the rows with the record's key take the new value. The selection is never changed. |
| CartPage.QuantityChangeIdempotent | src/page/cart/index.tsx:61-86 | Sending the same change again with the same answer leaves the rows and the selection where the first change put them. |
| CartPage.RemoveItem | src/page/cart/index.tsx:89-106 | A successful removal drops every row and every ticked key equal to the record's key, keeps every copy of every other row and ticked key, in order, and shows the success toast. Any other answer changes nothing and shows the server's message or the fallback. |
| CartPage.RemovalSplitsTotal | src/page/cart/index.tsx:96-97 | The subtotal before a removal is the subtotal of the remaining rows under the remaining selection plus the ticked amount of the removed rows. |
| CartPage.RemoveItemTotal | src/page/cart/index.tsx:89-106 | When one row has the key, a successful removal lowers the subtotal by that row's amount if it was ticked and leaves it unchanged otherwise. |
| CartPage.RemoveAbsentKeepsTotal | src/page/cart/index.tsx:89-106 | Removing a key no row has leaves the subtotal unchanged. |
| CartPage.SelectAll | src/page/cart/index.tsx:109-115 | Select-all ticks exactly the keys of rows whose product is not marked gone. |
| CartPage.SelectAllSkipsMissingProducts | src/page/cart/index.tsx:112-114 | A row marked gone is never ticked by select-all, unless another row shares its key. |
| CartPage.Checkout | src/page/cart/index.tsx:192-199 | The page warns exactly when nothing is ticked. Otherwise it navigates to /checkout carrying exactly the ticked keys. |
| CartPage.MountGoesToLogin | src/page/cart/index.tsx:17-24 | The page leaves for /login exactly when the token is missing or empty. |
| CartPage.ExpiredSessionRemountsToLogin | src/page/cart/index.tsx:19-24 | After a cart request is rejected as expired, the next mount goes to /login. |
| CartPage.CheckoutPathIsNotFound | src/page/cart/index.tsx:198 | A checkout navigation lands on the not-found page, because /checkout is not in the route table. |
| OrderStatus.Constant | src/services/api.ts:137-143 | Reading `ORDER_STATUS` gives a value exactly for the keys the object has. |
| OrderStatus.ConstantsResolve | src/services/api.ts:137-143 | The object maps the five keys PENDING, PROCESSING, SHIPPED, DELIVERED and COMPLETED to their strings. CANCELLED and PAYMENT_FAILED are absent. |
| OrderStatus.StepByLiterals | src/page/admin/orders/order-detail.tsx:64-85 | The four forward statuses map to steps 0 to 3. Step -1 is given exactly for 'cancelled' and 'payment_failed'. Anything else gives 0. |
| OrderStatus.StepByConstants | src/page/orders/order-detail.tsx:51-72 | The four forward statuses map to steps 0 to 3. Only a missing status reaches -1, and the page throws on such an order before it shows a step. |
| OrderStatus.StepMappingsDiffer | src/page/orders/order-detail.tsx:65-67 | The two step mappings agree exactly on present statuses other than the two failure strings. A cancelled order is at step 0 on the customer's page and -1 on the admin's. |
| OrderStatus.ColorByLiterals | src/page/admin/order.tsx:108-118 | Red exactly for the two failure strings. Blue, orange, cyan and green exactly for the four forward statuses. 'default' for everything else. The same mapping is at src/page/admin/orders/order-detail.tsx:107-117. |
| OrderStatus.ColorByConstants | src/page/orders/index.tsx:35-51 | Red only for a missing status. The four forward colours as above. 'default' for every other string, 'cancelled' included. The same mapping is at src/page/orders/order-detail.tsx:75-91 and src/page/admin/orders/index.tsx:138-148. |
| OrderStatus.RedIffFailureStep | src/page/admin/orders/order-detail.tsx:64-117 | On each page the tag is red exactly when the step is the failure step. |
| OrderStatus.ColorMappingsDiffer | src/page/orders/order-detail.tsx:85-87 | The two colour mappings agree exactly on present statuses other than the failure strings. 'cancelled' is red on the admin pages and 'default' on the customer's. |
| OrderStatus.DetailPanel | src/page/admin/orders/order-detail.tsx:223-263 | The progress steps are shown exactly for a non-failure status, at its step. The failure panel reads "Order Cancelled" exactly for 'cancelled'. An order without a status never reaches the panel: the page throws at line 196. |
| OrderStatus.DetailOptionsAreForward | src/page/admin/orders/order-detail.tsx:215-218 | The selector offers the four forward statuses, each at its own step, and no failure. "Add Tracking" (line 271) is offered only for the processing option. |
| OrderStatus.SourceOfOrder | src/page/orders/order-detail.tsx:24-38 | Navigation state wins. A fetch is attempted exactly when there is no state and a non-empty id, and it fetches that id. |
| OrderStatus.ItemsColumn | src/page/orders/index.tsx:71 | The items column is the number of items, or 0 without items. |
| OrderStatus.OrderListView | src/page/orders/index.tsx:103-125 | While loading, the spinner shows. After loading, the empty state with "You haven't placed any orders yet" shows exactly when there are no orders, and the table of the orders shows otherwise. |
| OrderStatus.EmptyStateOpensShop | src/page/orders/index.tsx:111-125 | The empty state's button leads to /products, the product list, which is guarded for signed-in users. |
| OrderStats.Count | src/page/admin/orders/index.tsx:69-79 | A bucket never counts more orders than there are. |
| OrderStats.Tally | src/page/admin/orders/index.tsx:58-82 | The `forEach` loop: the total is the number of orders, each bucket counts the orders with its status, and revenue is the sum of the chosen amount over delivered orders. |
| OrderStats.ListStats | src/page/admin/orders/index.tsx:58-82 | The admin orders list's statistics. Its cancelled bucket counts the orders without a status, and revenue adds `totalAmount`. |
| OrderStats.DashboardStats | src/page/admin/order.tsx:56-80 | The admin order page's statistics. Its cancelled bucket counts 'cancelled', and revenue adds `totalPrice` or 0. |
| OrderStats.DistinctCountsBounded | src/page/admin/order.tsx:67-77 | Buckets for five distinct statuses add up to at most the number of orders. |
| OrderStats.BucketsBounded | src/page/admin/orders/index.tsx:69-79 | On both pages the five buckets are disjoint and together never exceed the total. |
| OrderStats.CountAbsent | src/page/admin/orders/index.tsx:69-79 | A status no order has is counted zero times. |
| OrderStats.CountAll | src/page/admin/orders/index.tsx:69-79 | A status every order has is counted once per order. |
| OrderStats.ListMissesCancelled | src/page/admin/orders/index.tsx:78 | When every order is 'cancelled', the list's cancelled bucket stays 0 while the admin order page counts them all. |
| OrderStats.UpdateStatus | src/page/admin/orders/index.tsx:115-135 | The length never changes. A successful answer with a status sets exactly the orders with the id to it. A failed or thrown request changes nothing, and so does an undefined status, which throws in the success message before the update. The same update is at src/page/admin/order.tsx:83-105. |
| OrderStats.UpdatedOrdersCarryNewStatus | src/page/admin/orders/index.tsx:122-127 | In the list after a successful update, each status is held by the orders with other ids that already had it, and the new status is also held by every order with the id: those orders leave their old statuses. |
| OrderStats.UpdateMovesOneOrder | src/page/admin/orders/index.tsx:122-127 | When exactly one order has the id, a successful update adds exactly one order to the new status's count beyond the orders with other ids. |
| OrderFilter.Filter | src/page/admin/orders/index.tsx:85-112 | The shown list is an order-preserving subsequence of the fetched one. An order is shown exactly when it passes every active filter: search text, status and a complete date range. |
| OrderFilter.KeepWhenIsKeep | src/page/admin/orders/index.tsx:89-109 | A filter applied only when active is one filter by "inactive or passes". |
| OrderFilter.FilterIsOneKeep | src/page/admin/orders/index.tsx:86-111 | The three filters in a row are one filter by their conjunction. |
| OrderFilter.NoFilterShowsAll | src/page/admin/orders/index.tsx:89-111 | With no search text, every status and no complete range, the whole list is shown. |
| OrderFilter.StatusFilterExact | src/page/admin/orders/index.tsx:98-100 | A status filter alone keeps exactly the orders with that status, as many as the bucket for it counts. |
| OrderFilter.KeepStatusCount | src/page/admin/orders/index.tsx:98-100 | Filtering by a status keeps as many orders as the status's bucket counts. |
| OrderFilter.CancelledOptionShowsNoCancelled | src/page/admin/orders/index.tsx:308-313 | The "Cancelled" option's value is undefined. Picking it keeps only orders without a status, which the table cannot render, and never a cancelled order. |
| OrderFilter.CorrectedCancelledOption | src/page/admin/orders/index.tsx:98-100 | With the option spelled 'cancelled', the filter shows exactly the cancelled orders, as many as the corrected bucket counts. |
| OrderFilter.IdMatchesItself | src/page/admin/orders/index.tsx:89-94 | A search for an order's own id finds that order. |
| Features.ParseFeatures | src/page/admin/index.tsx:134-135 | Saving gives one feature per comma, plus one. Feature i is the i-th comma-separated piece with the whitespace at both ends cut away, so no feature contains a comma or has whitespace at either end. |
| Features.ParseSpacedPair | src/page/admin/index.tsx:134-135 | Two features typed with a space on each side of the comma save as the two bare features. |
| Features.JoinThenParse | src/page/admin/index.tsx:83 | For a non-empty list of trimmed, comma-free features, saving the edit text gives the list back. |
| Features.EditThenSave | src/page/admin/index.tsx:83 | The same round trip through the form's own join of the product's `feature`. |
| Features.EmptyListSavesOneBlank | src/page/admin/index.tsx:83 | An empty or missing list has the empty edit text, which the save handler would read back as one empty feature. The form's required rule refuses that text before the handler runs (`AdminProducts.FeaturelessEditRefused`). |
| Features.ParseIsStable | src/page/admin/index.tsx:135 | A saved list is a fixed point: editing and saving it again gives it back. |
| Features.ParseCons | src/page/admin/index.tsx:135 | Text that starts with a clean feature and a comma saves as that feature followed by the rest's features. |
| Features.ParseDropsLeadingSpace | src/page/admin/index.tsx:135 | A leading space before the text does not change what is saved. |
| Features.FormatOne | src/page/product-list/product-detail.tsx:75-80 | An entry without a line break passes through. A multi-line entry becomes its lines in order, with no line break in any of them. Every copy of a line that is not blank after trimming is kept, and no blank line is. |
| Features.FlatFormat | src/page/product-list/product-detail.tsx:75-80 | No displayed entry contains a line break. |
| Features.FormatFeatures | src/page/product-list/product-detail.tsx:71-81 | A missing or empty list shows nothing. No displayed entry contains a line break. |
| Features.SingleLinesPassThrough | src/page/product-list/product-detail.tsx:75-80 | Entries without line breaks are shown unchanged and in order. |
| Features.FormatConcat | src/page/product-list/product-detail.tsx:75 | The display list of two runs of entries is the two display lists in a row. |
| Features.TwoLines | src/page/product-list/product-detail.tsx:76-78 | A two-line entry with both lines filled shows as those two lines. |
| ProductDetail.ProductImage | src/page/product-list/product-detail.tsx:58 | There is always an image. The product's own picture is used when non-empty, and the placeholder otherwise. |
| ProductDetail.CallToAction | src/page/product-list/product-detail.tsx:197-207 | "Add to Cart" is offered exactly when the stock count is present and positive. |
| ProductDetail.FeatureLines | src/page/product-list/product-detail.tsx:86-96 | The list always has an entry. It shows the formatted features, or "No features available" exactly when they format to nothing: none, an empty list, or only blank multi-line entries. |
| ProductDetail.PlainFeaturesListed | src/page/product-list/product-detail.tsx:84-96 | Plain features are listed one per line, in order. |
| ProductDetail.AddToCart | src/page/product-list/product-detail.tsx:98-148 | A request for one unit of `_id || id` is sent exactly when that id is non-empty. Without an id the only effect is the "Product ID not found" toast. An exception escapes the catch exactly for a rejection whose response has no body. Otherwise exactly one toast is shown. It is a success, followed by the badge refresh, exactly when the server reported success. No error toast is blank. |
| ProductDetail.UnderscoreIdFirst | src/page/product-list/product-detail.tsx:101 | `_id` wins over `id`, which is used only when `_id` is missing or empty. |
| ProductDetail.NoIdIgnoresAnswer | src/page/product-list/product-detail.tsx:101-105 | Without an id the server's answer plays no part. |
| ProductDetail.StatusNamedInToast | src/page/product-list/product-detail.tsx:137-139 | A rejection body with neither error nor message gives a toast naming the status. |
| AdminProducts.SelectedCategory | src/page/admin/index.tsx:75-77 | A category object gives `_id`, or `id` when `_id` is missing or empty. A plain value is used as is. |
| AdminProducts.AddProduct | src/page/admin/index.tsx:66-72 | Adding opens a blank dialog that creates, with no image. |
| AdminProducts.EditProduct | src/page/admin/index.tsx:74-91 | Editing opens the dialog on the product. It shows the product's fields, the features joined with ", " ("" without features), the selected category and the picture or "". |
| AdminProducts.SaveProduct | src/page/admin/index.tsx:126-157 | An update is sent exactly when the dialog was opened on a product, to its `id \|\| _id`. Otherwise a create is sent. Either way the body carries the form's fields, the parsed features (one per comma, plus one) and the dialog's image. |
| AdminProducts.AddThenSaveCreates | src/page/admin/index.tsx:66-72 | Saving a fresh dialog always creates, with an empty picture. |
| AdminProducts.EditThenSaveUnchanged | src/page/admin/index.tsx:74-157 | Opening a product with clean features and saving without changes sends the product back to its own id, unchanged. |
| AdminProducts.EditThenSaveWithoutFeatures | src/page/admin/index.tsx:83-135 | The save handler, called on the unchanged dialog of a product without features, would send one empty feature. The form never calls it with that text (`AdminProducts.FeaturelessEditRefused`). |
| AdminProducts.Submit | src/page/admin/index.tsx:258-347 | The form calls the save handler exactly when every rule passes: name, description, features and category non-empty, price and amount present, and an image held or picked. The request sent is the handler's, and its body carries every required field. |
| AdminProducts.EditedFeaturesRule | src/page/admin/index.tsx:287-291 | The dialog opened on a product (its features joined at line 83) passes the features rule exactly when the product has a list other than [] and [""]. |
| AdminProducts.FeaturelessEditRefused | src/page/admin/index.tsx:287-291 | The unchanged dialog of a product with no features, an empty list or one empty feature is refused, so nothing is sent. |
| AdminProducts.EditThenSubmitUnchanged | src/page/admin/index.tsx:74-157 | A product with every required field, clean non-blank features and a picture (or a picked file) is submitted as opened and goes back unchanged to its own id. |
| AdminProducts.OnMount | src/page/admin/index.tsx:26-38 | The page loads exactly when a request would carry a token. Otherwise it leaves for /login with its message. |
| AdminProducts.SignedInLoads | src/page/admin/index.tsx:26-38 | Every signed-in store loads the page, whatever its admin flag says. |
| AdminProducts.TokenAloneLoads | src/page/admin/index.tsx:27-36 | A bare token without a session flag is enough for the page itself. |
| NavBar.ReadUser | src/components/NavBar.tsx:47-54 | The user record has the admin flag exactly when `user_isAdmin` is "true". Every missing text field is "". |
| NavBar.Mount | src/components/NavBar.tsx:41-59 | After mount the bar is signed in exactly when the token is non-empty and the flag is "true". It holds the user record, and the menu and badge are untouched. The older bar at src/modules/nav-bar.tsx:32-50 is the same. |
| NavBar.MountAgreesWithUseAuth | src/components/NavBar.tsx:43-57 | The bar and `useAuth` read the same session and the same admin flag from the same store. |
| NavBar.FirstPrefix | src/components/NavBar.tsx:66-75 | The table lookup: a key is found exactly when some prefix matches, and it is the key of a matching prefix. |
| NavBar.MenuKey | src/components/NavBar.tsx:62-77 | The highlighted entry after a navigation is "home" (always for "/"), a menu prefix's key, or the previous one. It changes only for "/" or a path under one of the menu's prefixes. |
| NavBar.MenuKeyIsTableLookup | src/components/NavBar.tsx:62-77 | The chain of tests gives "home" for exactly "/". Otherwise it gives the first matching prefix's key in the order /products, /contact, /cart, /login, /register, or the previous key. The same chain is at src/modules/nav-bar.tsx:53-68. |
| NavBar.MenuKeyIdempotent | src/components/NavBar.tsx:62-77 | Navigating to the same path twice highlights the same entry as once. |
| NavBar.UnmatchedKeepsPrevious | src/modules/nav-bar.tsx:53-68 | A path that matches no prefix keeps the previous entry. |
| NavBar.QuantitySumConcat | src/components/NavBar.tsx:91 | The reduce over two runs of items is the two sums added. |
| NavBar.QuantitySumNonNegative | src/components/NavBar.tsx:91 | Without negative quantities the badge is never negative. |
| NavBar.CartCount | src/components/NavBar.tsx:80-97 | Signed out, the badge drops to 0 and nothing is fetched. Signed in, a request is made. A successful answer sets the badge to the total quantity, counting missing items as none. Any other answer keeps the badge. The older bar at src/modules/nav-bar.tsx:71-88 is the same. |
| NavBar.BadgeCountsEveryItem | src/components/NavBar.tsx:89-92 | The badge counts every item's quantity, however the items are split. |
| NavBar.AdminEntryAfterMount | src/components/NavBar.tsx:190-221 | Right after mount, the admin entry shows exactly for a signed-in store whose admin flag is "true". |
| NavBar.Logout | src/components/NavBar.tsx:114-131 | The bar reads as signed out, with no user, no badge and no admin entry. The store is cleared first, the auth-change event is dispatched, and the last effect goes to /login. |
| NavBar.LegacyLogout | src/modules/nav-bar.tsx:105-119 | Only the badge is reset: the session and the admin entry stay as they were. The store is cleared and the page goes to /login, but no auth-change event is sent. |
| NavBar.LogoutIsConsistent | src/components/NavBar.tsx:114-131 | After logout the store is empty, the bar agrees with a fresh mount, the admin entry is gone and the next badge refresh fetches nothing. The auth-change event is dispatched, and the last effect is the navigation to /login. |
| NavBar.LegacyLogoutIsStale | src/modules/nav-bar.tsx:105-119 | After the older bar's logout the store is empty, yet a bar that was signed in still is. It keeps the admin entry, and its next refresh still fetches. No auth-change event is sent. |
| NavBar.PasswordFormExact | src/components/NavBar.tsx:293-335 | The change-password form submits exactly when the current and new passwords have at least six characters and the confirmation equals the new password. |
| NavBar.EmptyConfirmationNeedsRequired | src/components/NavBar.tsx:326-333 | The confirmation's validator alone lets an empty value through. The required rule is what rejects it. |
| NavBar.ChangePassword | src/components/NavBar.tsx:134-156 | The dialog closes exactly on a successful answer, with the success toast. Otherwise one error toast shows the server's message or the fixed one, and it is never blank. |
| Text.SplitFacts | src/page/admin/index.tsx:135 | `split` gives one piece per separator, plus one, and no piece contains the separator. |
| Text.SplitAppend | src/page/admin/index.tsx:135 | Splitting at one separator splits the two sides independently. |
| Text.Trim | src/page/admin/index.tsx:135 | `trim` returns a slice of the input with only whitespace cut away before and after it, and no whitespace at either end of the slice. |
| Text.TrimDetermined | src/page/admin/index.tsx:135 | Any slice with only whitespace around it and none at its ends is the trim, so the trim of every input is fixed. |
| Seqs.KeepMembers | src/page/admin/orders/index.tsx:90-108 | `filter` keeps exactly the elements that pass. |
| Seqs.KeepIsSubsequence | src/page/admin/orders/index.tsx:90-108 | `filter` keeps the order of the elements it keeps. |
| Seqs.KeepKeep | src/page/admin/orders/index.tsx:90-108 | Filtering twice is filtering once by the conjunction. |
| Seqs.KeepCounts | src/redux/cart.ts:53-57 | `filter` keeps every copy of an element that passes and no copy of one that fails. |
| Seqs.KeepSingle | src/page/cart/index.tsx:96 | A filter that exactly one element passes returns that element alone. |

## Left out

- **Rendering.** JSX, layout, Ant Design widgets and toast display are left out. Toasts are effects in the trace.
- **Network calls.** Every server call is a parameter of its handler. The fetches themselves, the loading flags and the pages' not-found states are not modelled. The one exception is the customer order list, whose loading spinner is modelled (`OrderStatus.OrderListView`).
- **Re-fetches.** The re-fetch after a status change (src/page/admin/order.tsx:96) is not modelled. The admin order detail page's status change only re-fetches, so it has no local state to model.
- **Timers.** The bars' 30-second badge polling is an interval timer, so only one refresh is modelled.
- **Console output.** It has no observable effect on the model.
- **`setItem` of null.** The value is stored as the text "undefined" or "null", as `String(v)` gives. Only "undefined" arises from the handlers modelled.
- **Floating-point money.** Prices, totals and revenue are integer cents. Revenue summed over an undefined `totalAmount` would be NaN, and that case is not modelled.
- **Fractional quantities.** The order detail's `toFixed` line total and the quantity input's fractional values are not modelled.
- **Route matching.** React Router's case-insensitive matching and trailing-slash handling are left out. `Routes.Resolve` matches segments exactly, case-sensitively.
- **`Text.ToLower`:** maps the ASCII letters only. `toLowerCase` on other letters is Unicode case mapping, which has no counterpart here.
- **`OrderFilter.Filter`:** the order's id is always a string here. In the source a missing `_id` makes the search throw.
- **`ProductDetail.FeatureLines`:** `feature` is a list or missing. The source's non-array check has no counterpart in the types.
- **`Js.Required`:** Ant Design's `required` rule is modelled as "present and not the empty string", for text fields. A number field needs only to be present. The upload field's value is a file object, so it is a boolean parameter of `AdminProducts.Submit`.
- **`Api.OnResponseError`:** assumes the CommonJS `require('react-toastify')` inside both interceptors (src/services/api.ts:53, src/api/inteceptor.ts:39) resolves in the ES-module build. The build configuration is not part of this model. If `require` is undefined there, the handler throws right after `localStorage.clear()`: no toast, no redirect, and the rejection carries that error instead. The store ends empty either way, so `Api.ErrorPathStore` holds in both cases.
- **`OrderStatus.DetailPanel`:** its result for a missing status is never displayed. Every order view calls `status.toUpperCase()` (src/page/admin/orders/index.tsx:190, src/page/orders/index.tsx:85, src/page/orders/order-detail.tsx:144, src/page/admin/orders/order-detail.tsx:196), so an order without a status throws during render. The missing-status cases of `OrderStatus.StepByConstants`, `OrderStatus.ColorByConstants` and `OrderFilter.CancelledOptionShowsNoCancelled` likewise state what the code computes, not what a page shows.
- **Admin pages outside the core.** Product deletion and image upload are pass-through calls. The uploaded URL is the dialog's `imageUrl`.
- **The auth-change event.** It is recorded in the trace. No listener for it is modelled.

## Findings

| source | as written | input that shows it | evidently intended | confidence | as-written member | corrected member |
|---|---|---|---|---|---|---|
| src/page/admin/orders/index.tsx:78 | The cancelled bucket compares with `ORDER_STATUS.CANCELLED`, which is undefined, so it counts orders without a status. | Orders all with status 'cancelled': the bucket shows 0. | Count the orders whose status is 'cancelled', as src/page/admin/order.tsx:76 does. | not executed | OrderStats.ListStats, OrderStats.ListMissesCancelled | OrderStats.DashboardStats |
| src/page/orders/order-detail.tsx:65-67 | The failure cases use `ORDER_STATUS.CANCELLED` and `PAYMENT_FAILED`, which are undefined, so a cancelled order falls to the default step. | Status 'cancelled': step 0, shown as just placed. | Step -1 for 'cancelled' and 'payment_failed', as on the admin detail page. | not executed | OrderStatus.StepByConstants, OrderStatus.StepMappingsDiffer | OrderStatus.StepByLiterals |
| src/page/orders/index.tsx:45-47 | The red cases use the undefined constants, so a cancelled order gets the default colour. The same code is at src/page/orders/order-detail.tsx:85-86 and src/page/admin/orders/index.tsx:144-145. | Status 'cancelled': colour 'default'. | Red for 'cancelled' and 'payment_failed', as on src/page/admin/order.tsx:114-115. | not executed | OrderStatus.ColorByConstants, OrderStatus.ColorMappingsDiffer | OrderStatus.ColorByLiterals |
| src/page/admin/orders/index.tsx:313 | The "Cancelled" option's value is the undefined `ORDER_STATUS.CANCELLED`. | Any list containing a cancelled order, filtered by "Cancelled": that order is never shown. | Filter on 'cancelled'. | not executed | OrderFilter.CancelledOptionShowsNoCancelled | OrderFilter.CorrectedCancelledOption |
