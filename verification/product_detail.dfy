/**
 * The product detail page's decisions: the image it shows, the features it
 * lists, whether it offers "Add to Cart", and what the add-to-cart handler
 * does with the product's id and the server's answer.
 */
module ProductDetail {
  import opened Wrappers
  import opened Js
  import opened Features

  const PlaceholderImage := "https://via.placeholder.com/400x400?text=No+Image"

  /** `product.pictureURL || placeholder`. */
  function ProductImage(pictureURL: Option<string>): (r: string)
    // The page always has an image to show.
    ensures r != ""
    // A picture of its own is shown as is; an empty or missing one gives way to the placeholder.
    ensures Truthy(pictureURL) ==> r == pictureURL.value
    ensures !Truthy(pictureURL) ==> r == PlaceholderImage
  {
    if Truthy(pictureURL) then pictureURL.value else PlaceholderImage
  }

  /** The call-to-action button under the description. */
  datatype Button = AddToCartButton | OutOfStockButton

  /** `product.amountInStore > 0`: a missing stock count compares as false. */
  function CallToAction(amountInStore: Option<int>): (r: Button)
    ensures r == AddToCartButton <==> amountInStore.Some? && amountInStore.value >= 1
    ensures amountInStore.None? ==> r == OutOfStockButton
  {
    if amountInStore.Some? && amountInStore.value > 0 then AddToCartButton else OutOfStockButton
  }

  const NoFeatures := "No features available"

  /** The "Key Features" list: the display entries, or one placeholder line. */
  function FeatureLines(features: Option<seq<string>>): (r: seq<string>)
    ensures |r| > 0
    ensures |FormatFeatures(features)| > 0 ==> r == FormatFeatures(features)
    ensures features.None? || |features.value| == 0 ==> r == [NoFeatures]
    // Entries that format to nothing, such as blank multi-line ones, also show the placeholder.
    ensures |FormatFeatures(features)| == 0 ==> r == [NoFeatures]
  {
    var shown := FormatFeatures(features);
    if |shown| > 0 then shown else [NoFeatures]
  }

  /** Plain entries show one line each, in order. */
  lemma PlainFeaturesListed(fs: seq<string>)
    requires |fs| > 0
    requires forall i :: 0 <= i < |fs| ==> '\n' !in fs[i]
    ensures FeatureLines(Some(fs)) == fs
  {
    SingleLinesPassThrough(fs);
  }

  /** The body of the add-to-cart answer, or of a rejection's response. */
  datatype AddBody = AddBody(success: bool, error: Option<string>, message: Option<string>)

  /** A rejection's `err.response`: the status and the body, which may be missing. */
  datatype ErrorResponse = ErrorResponse(status: nat, data: Option<AddBody>)

  /** What `cartAPI.addToCart` came back with. */
  datatype AddAnswer =
    | Resolved(data: Option<AddBody>)
    | Rejected(response: Option<ErrorResponse>, message: Option<string>)

  /** The request the handler sends. */
  datatype CartRequest = CartRequest(productId: string, quantity: int)

  /**
   * What the handler did: the request it sent, if any, the effects in order,
   * and whether an exception escaped the `catch` block (reading `.error` of
   * a missing response body throws there).
   */
  datatype AddResult = AddResult(request: Option<CartRequest>, effects: seq<Effect>, escaped: bool)

  const NoProductId := "Product ID not found"
  const AddedToCart := "Product added to cart successfully"
  const AddFailed := "Failed to add product to cart"

  /** The decimal digits of `n`. */
  function Decimal(n: nat): (r: string)
    ensures |r| > 0
    ensures forall i :: 0 <= i < |r| ==> '0' <= r[i] <= '9'
  {
    var d := ['0' + (n % 10) as char];
    if n < 10 then d
    else
      var rest := Decimal(n / 10);
      assert forall i :: |rest| <= i < |rest + d| ==> (rest + d)[i] == d[i - |rest|];
      rest + d
  }

  /** `a || b || fallback` for the server's two message fields. */
  function FirstMessage(a: Option<string>, b: Option<string>, fallback: string): (r: string)
    ensures Truthy(a) ==> r == a.value
    ensures !Truthy(a) && Truthy(b) ==> r == b.value
    ensures !Truthy(a) && !Truthy(b) ==> r == fallback
    ensures fallback != "" ==> r != ""
  {
    if Truthy(a) then a.value else if Truthy(b) then b.value else fallback
  }

  /** The message for a rejection whose body names no error: it carries the status. */
  function StatusFailure(status: nat): string {
    "Error (" + Decimal(status) + "): " + AddFailed
  }

  /** The answer is a resolved, successful one. */
  predicate AddSucceeded(answer: AddAnswer) {
    answer.Resolved? && answer.data.Some? && answer.data.value.success
  }

  /** The answer is a rejection whose response has no body. */
  predicate BodilessRejection(answer: AddAnswer) {
    answer.Rejected? && answer.response.Some? && answer.response.value.data.None?
  }

  /** `handleAddToCart`. */
  function AddToCart(mongoId: Option<string>, id: Option<string>, answer: AddAnswer): (r: AddResult)
    // A request goes out exactly when `_id || id` is non-empty, for that id and one unit.
    ensures r.request.Some? <==> Truthy(Or(mongoId, id))
    ensures r.request.Some? ==> r.request.value == CartRequest(Or(mongoId, id).value, 1)
    ensures r.request.None? ==> r == AddResult(None, [ToastError(NoProductId)], false)
    // Only a body-less rejection escapes, and it shows nothing.
    ensures r.escaped <==> r.request.Some? && BodilessRejection(answer)
    ensures r.escaped ==> r.effects == []
    // Otherwise exactly one toast, a success exactly when the server said so, and only then the badge refresh.
    ensures !r.escaped ==> |r.effects| >= 1 && (r.effects[0].ToastSuccess? || r.effects[0].ToastError?)
    ensures r.effects != [] && r.effects[0].ToastSuccess? <==> r.request.Some? && AddSucceeded(answer)
    ensures RefreshCartCount in r.effects <==> r.request.Some? && AddSucceeded(answer)
    // A success is the success toast then the refresh; any other outcome is its one toast alone.
    ensures r.request.Some? && AddSucceeded(answer) ==> r.effects == [ToastSuccess(AddedToCart), RefreshCartCount]
    ensures !r.escaped && !(r.request.Some? && AddSucceeded(answer)) ==> |r.effects| == 1
    // No error toast is ever blank: every fallback chain ends in a fixed message.
    ensures forall i :: 0 <= i < |r.effects| && r.effects[i].ToastError? ==> r.effects[i].message != ""
  {
    var productId := Or(mongoId, id);
    if !Truthy(productId) then AddResult(None, [ToastError(NoProductId)], false)
    else
      var request := Some(CartRequest(productId.value, 1));
      match answer
      case Resolved(data) =>
        if data.Some? && data.value.success then
          AddResult(request, [ToastSuccess(AddedToCart), RefreshCartCount], false)
        else if data.Some? then
          AddResult(request, [ToastError(FirstMessage(data.value.error, data.value.message, AddFailed))], false)
        else
          AddResult(request, [ToastError(AddFailed)], false)
      case Rejected(response, message) =>
        if response.Some? then
          if response.value.data.None? then AddResult(request, [], true)
          else
            var body := response.value.data.value;
            AddResult(request, [ToastError(FirstMessage(body.error, body.message, StatusFailure(response.value.status)))], false)
        else
          AddResult(request, [ToastError(FirstMessage(message, None, AddFailed))], false)
  }

  /** `_id` wins over `id`; `id` is used only when `_id` is missing or empty. */
  lemma UnderscoreIdFirst(mongoId: Option<string>, id: Option<string>, answer: AddAnswer)
    ensures Truthy(mongoId) ==> AddToCart(mongoId, id, answer).request.value.productId == mongoId.value
    ensures !Truthy(mongoId) && Truthy(id) ==> AddToCart(mongoId, id, answer).request.value.productId == id.value
  {
  }

  /** Without an id the server's answer plays no part. */
  lemma NoIdIgnoresAnswer(mongoId: Option<string>, id: Option<string>, a: AddAnswer, b: AddAnswer)
    requires !Truthy(mongoId) && !Truthy(id)
    ensures AddToCart(mongoId, id, a) == AddToCart(mongoId, id, b)
  {
  }

  /** A rejection that carries a status but no message names the status in its toast. */
  lemma StatusNamedInToast(status: nat)
    ensures AddToCart(Some("p"), None, Rejected(Some(ErrorResponse(status, Some(AddBody(false, None, None)))), None)).effects
      == [ToastError(StatusFailure(status))]
  {
  }
}
