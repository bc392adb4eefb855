/**
 * The admin products page: the token check on mount, the edit dialog's
 * field values for a product, and the request the save handler sends. The
 * product list, deletion and image upload are server calls and are not
 * modelled beyond the values they hand over.
 */
module AdminProducts {
  import opened Wrappers
  import opened Js
  import opened Text
  import opened Session
  import opened Api
  import opened Features

  /** `product.category`: an object with `_id`/`id`, or a plain value. */
  datatype Category = CategoryObject(mongoId: Option<string>, id: Option<string>) | CategoryValue(value: Option<string>)

  /** The fields the dialog copies through unchanged. */
  datatype Details = Details(name: Option<string>, price: Option<int>, description: Option<string>, amountInStore: Option<int>)

  /** A product as the list holds it. */
  datatype Product = Product(
    mongoId: Option<string>,
    id: Option<string>,
    details: Details,
    feature: Option<seq<string>>,
    category: Category,
    pictureURL: Option<string>)

  /** The dialog's form: the copied fields, the features text and the chosen category. */
  datatype Form = Form(details: Details, features: string, category: Option<string>)

  /** The dialog's state. */
  datatype Editor = Editor(isEditing: bool, editing: Option<Product>, imageUrl: string, form: Form)

  /** What the form holds after `resetFields`. */
  const BlankForm := Form(Details(None, None, None, None), "", None)

  /** The category the form selects: `_id || id` of an object, the value itself otherwise. */
  function SelectedCategory(c: Category): (r: Option<string>)
    ensures c.CategoryObject? && Truthy(c.mongoId) ==> r == c.mongoId
    ensures c.CategoryObject? && !Truthy(c.mongoId) ==> r == c.id
    ensures c.CategoryValue? ==> r == c.value
  {
    match c
    case CategoryObject(mongoId, id) => Or(mongoId, id)
    case CategoryValue(v) => v
  }

  /** `handleAddProduct`: a blank dialog that creates. */
  function AddProduct(): (r: Editor)
    ensures !r.isEditing && r.editing.None? && r.imageUrl == "" && r.form == BlankForm
  {
    Editor(false, None, "", BlankForm)
  }

  /** `handleEditProduct`: the dialog filled from the product. */
  function EditProduct(p: Product): (r: Editor)
    ensures r.isEditing && r.editing == Some(p)
    ensures r.form.details == p.details
    // The features are shown as one comma-separated line; a product without features shows an empty one.
    ensures r.form.features == JoinFeatures(p.feature)
    ensures r.form.category == SelectedCategory(p.category)
    ensures r.imageUrl == OrEmpty(p.pictureURL)
  {
    Editor(true, Some(p), OrEmpty(p.pictureURL), Form(p.details, JoinFeatures(p.feature), SelectedCategory(p.category)))
  }

  /** The body the save handler sends. */
  datatype ProductData = ProductData(details: Details, category: Option<string>, feature: seq<string>, pictureURL: string)

  /** The request the save handler sends. The update id may be missing. */
  datatype SaveRequest = Update(id: Option<string>, data: ProductData) | Create(data: ProductData)

  /** `handleSaveProduct`: the features text split and trimmed, the uploaded image attached. */
  function SaveProduct(e: Editor, values: Form): (r: SaveRequest)
    // An update exactly when the dialog was opened on a product; its id is `id || _id`.
    ensures r.Update? <==> e.isEditing && e.editing.Some?
    ensures r.Update? ==> r.id == Or(e.editing.value.id, e.editing.value.mongoId)
    // Either way the body carries the form's fields, the parsed features and the dialog's image.
    ensures r.data.details == values.details && r.data.category == values.category
    ensures r.data.feature == ParseFeatures(values.features)
    ensures |r.data.feature| == Occurrences(values.features, ',') + 1
    ensures r.data.pictureURL == e.imageUrl
  {
    var data := ProductData(values.details, values.category, ParseFeatures(values.features), e.imageUrl);
    if e.isEditing && e.editing.Some? then
      Update(Or(e.editing.value.id, e.editing.value.mongoId), data)
    else Create(data)
  }

  /**
   * The dialog's `rules`, which Ant Design checks before it calls the save
   * handler: name, description, features and category filled in, price and
   * amount present (0 passes), and an image: the one the dialog already
   * holds, or a file picked in the upload field.
   */
  predicate SaveAllowed(e: Editor, values: Form, filePicked: bool) {
    && Required(values.details.name)
    && values.details.price.Some?
    && Required(values.details.description)
    && Required(Some(values.features))
    && Required(values.category)
    && (e.imageUrl != "" || filePicked)
    && values.details.amountInStore.Some?
  }

  /** Submitting the dialog: nothing is sent while a rule fails, otherwise the save handler runs. */
  function Submit(e: Editor, values: Form, filePicked: bool): (r: Option<SaveRequest>)
    ensures r.Some? <==> SaveAllowed(e, values, filePicked)
    // What is sent is the handler's request, and its body has every required field.
    ensures r.Some? ==> r.value == SaveProduct(e, values)
    ensures r.Some? ==>
      && Truthy(r.value.data.details.name) && r.value.data.details.price.Some?
      && Truthy(r.value.data.details.description) && Truthy(r.value.data.category)
      && r.value.data.details.amountInStore.Some?
      && (r.value.data.pictureURL != "" || filePicked)
  {
    if SaveAllowed(e, values, filePicked) then Some(SaveProduct(e, values)) else None
  }

  /** The dialog opened on a product has a features text exactly when the product has a non-blank list. */
  lemma EditedFeaturesRule(p: Product)
    ensures Required(Some(EditProduct(p).form.features)) <==>
      p.feature.Some? && p.feature.value != [] && p.feature.value != [""]
  {
    if p.feature.Some? {
      JoinEmpty(p.feature.value);
    }
  }

  /** So the unchanged dialog of a product without features is refused, whatever else it holds. */
  lemma FeaturelessEditRefused(p: Product, filePicked: bool)
    requires p.feature.None? || p.feature == Some([]) || p.feature == Some([""])
    ensures Submit(EditProduct(p), EditProduct(p).form, filePicked).None?
  {
    EditedFeaturesRule(p);
  }

  /**
   * A product with every required field, clean non-blank features and a
   * picture (or a picked file) goes back unchanged when its dialog is
   * submitted as opened.
   */
  lemma EditThenSubmitUnchanged(p: Product, filePicked: bool)
    requires p.feature.Some? && CleanFeatures(p.feature.value) && p.feature.value != [""]
    requires Truthy(p.details.name) && p.details.price.Some? && Truthy(p.details.description)
    requires p.details.amountInStore.Some? && Truthy(SelectedCategory(p.category))
    requires Truthy(p.pictureURL) || filePicked
    ensures
      var e := EditProduct(p);
      Submit(e, e.form, filePicked)
        == Some(Update(Or(p.id, p.mongoId), ProductData(p.details, SelectedCategory(p.category), p.feature.value, OrEmpty(p.pictureURL))))
  {
    EditedFeaturesRule(p);
    EditThenSaveUnchanged(p);
  }

  /** The save of a fresh dialog always creates. */
  lemma AddThenSaveCreates(values: Form)
    ensures SaveProduct(AddProduct(), values).Create?
    ensures SaveProduct(AddProduct(), values).data.pictureURL == ""
  {
  }

  /** A feature list the form can show and read back unchanged. */
  predicate CleanFeatures(fs: seq<string>) {
    |fs| > 0 && forall i :: 0 <= i < |fs| ==> ',' !in fs[i] && IsTrimmed(fs[i])
  }

  /**
   * Opening a product and saving without touching the form sends the
   * product back as it was: the same details, features, category and
   * picture, to the product's own id.
   */
  lemma EditThenSaveUnchanged(p: Product)
    requires p.feature.Some? && CleanFeatures(p.feature.value)
    ensures
      var e := EditProduct(p);
      SaveProduct(e, e.form)
        == Update(Or(p.id, p.mongoId), ProductData(p.details, SelectedCategory(p.category), p.feature.value, OrEmpty(p.pictureURL)))
  {
    EditThenSave(p.feature.value);
  }

  /**
   * The save handler, called on the unchanged dialog of a product without
   * features, would send one empty feature. The form's required rule stops
   * that text before the handler runs (`FeaturelessEditRefused`).
   */
  lemma EditThenSaveWithoutFeatures(p: Product)
    requires p.feature.None? || p.feature == Some([])
    ensures
      var e := EditProduct(p);
      SaveProduct(e, e.form).data.feature == [""]
  {
    assert JoinFeatures(p.feature) == "";
    EmptyListSavesOneBlank();
  }

  /** The page's mount effect: sent to /login with an error, or allowed to load. */
  datatype Mount = SentToLogin(message: string) | Load

  const MustLogIn := "You must be logged in to access this page"

  /** The mount effect: `authAPI.checkToken()` decides, which looks at the token alone. */
  function OnMount(s: Store): (r: Mount)
    ensures r.Load? <==> AuthorizationHeader(s).Some?
    ensures r.SentToLogin? ==> r.message == MustLogIn
  {
    if CheckToken(s).isAuthenticated then Load else SentToLogin(MustLogIn)
  }

  /** Every signed-in store loads the page, whatever its admin flag says. */
  lemma SignedInLoads(s: Store)
    requires SignedIn(s)
    ensures OnMount(s).Load?
    ensures OnMount(s[UserIsAdmin := "false"]).Load?
  {
    SignedInPassesCheckToken(s);
    assert s[UserIsAdmin := "false"][AccessToken] == s[AccessToken];
  }

  /** A bare token with no session flag is enough for the page itself. */
  lemma TokenAloneLoads(token: string)
    requires token != ""
    ensures OnMount(map[AccessToken := token]).Load?
    ensures !SignedIn(map[AccessToken := token])
  {
  }
}
