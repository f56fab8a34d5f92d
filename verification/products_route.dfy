/** The product endpoints (`app/api/products/route.ts`). `GET` returns one
    product by id or the whole table; `POST` updates an existing product field
    by field or creates a new one, uploading the image first, and maps
    failures to status codes. The image upload is an outside service: the form
    carries its outcome. A form field that is absent reads as `""`; the handler
    treats both alike. */
module ProductsRoute {
  import opened Common
  import opened Tables

  // ---------------------------------------------------------------------------
  // GET

  datatype GetReply =
    | GetUnauthorized                       // 401
    | InvalidId                             // 400, "Not a valid Product id!!"
    | Absent                                // 404, "Product not found!!"
    | One(product: Product)                 // 200
    | All(products: map<ProductId, Product>) // 200

  function GetStatus(r: GetReply): int {
    match r
    case GetUnauthorized => 401
    case InvalidId => 400
    case Absent => 404
    case _ => 200
  }

  /** The `GET` handler. `id` is the query parameter (`""` when absent) and
      `isValidId` the object-id syntax check of the database driver. */
  function Get(signedIn: bool, id: string, products: map<ProductId, Product>,
               isValidId: string -> bool): GetReply {
    if !signedIn then GetUnauthorized
    else if id != "" then
      if !isValidId(id) then InvalidId
      else if id !in products then Absent
      else One(products[id])
    else All(products)
  }

  /** Without a session every request is refused with 401. */
  lemma GetNeedsSession(id: string, products: map<ProductId, Product>, isValidId: string -> bool)
    ensures GetStatus(Get(false, id, products, isValidId)) == 401
  {
  }

  /** A single product is answered exactly when a well-formed id names a stored
      product, and then it is that product; a malformed id gives 400 and a
      well-formed unknown one 404. */
  lemma GetById(id: string, products: map<ProductId, Product>, isValidId: string -> bool, p: Product)
    ensures Get(true, id, products, isValidId) == One(p) <==>
      id != "" && isValidId(id) && id in products && products[id] == p
    ensures id != "" && !isValidId(id) ==> GetStatus(Get(true, id, products, isValidId)) == 400
    ensures id != "" && isValidId(id) && id !in products ==> GetStatus(Get(true, id, products, isValidId)) == 404
  {
  }

  /** Without an id the whole table is answered. */
  lemma GetWithoutIdListsAll(products: map<ProductId, Product>, isValidId: string -> bool)
    ensures Get(true, "", products, isValidId) == All(products)
  {
  }

  // ---------------------------------------------------------------------------
  // POST

  /** What became of the image upload. */
  datatype Upload = Uploaded(url: string) | UploadFailed(code: Option<int>)

  /** The submitted form; `image` is `None` when no file was sent. */
  datatype ProductForm = ProductForm(id: string, name: string, productNo: string, price: string,
                                     darkQuantity: string, lightQuantity: string,
                                     image: Option<Upload>)

  datatype PostReply =
    | PostUnauthorized       // 401
    | PostNotFound           // 404, "Product not found"
    | MissingFields          // 400, "All fields are required"
    | Saved(product: Product) // 200
    | Conflict               // 409, "Product with this number already exists"
    | ServerError            // 500, "Something went wrong. Please try again."

  function PostStatus(r: PostReply): int {
    match r
    case PostUnauthorized => 401
    case PostNotFound => 404
    case MissingFields => 400
    case Saved(_) => 200
    case Conflict => 409
    case ServerError => 500
  }

  /** The database's duplicate-key error code. */
  const DuplicateKey := 11000

  /** The `catch` block: a duplicate key is a conflict, anything else a server error. */
  function ErrorReply(code: Option<int>): PostReply {
    if code == Some(DuplicateKey) then Conflict else ServerError
  }

  lemma ErrorStatuses(code: Option<int>)
    ensures PostStatus(ErrorReply(code)) == 409 <==> code == Some(DuplicateKey)
    ensures PostStatus(ErrorReply(code)) == 500 <==> code != Some(DuplicateKey)
  {
  }

  predicate CanWrite(session: Option<Session>) {
    session.Some? && session.value.isAdmin
  }

  /** A product about to be saved; a number that did not parse is `None`. */
  datatype Draft = Draft(name: string, productNo: string, price: Option<int>, img: string,
                         dark: Option<int>, light: Option<int>)

  /** The update rule for a text field: a non-empty submission replaces the value. */
  function Keep(submitted: string, current: string): string {
    if submitted != "" then submitted else current
  }

  /** The update rule for a number field: a non-empty submission is parsed. */
  function KeepNumber(submitted: string, current: int): Option<int> {
    if submitted != "" then ParseInt(submitted) else Some(current)
  }

  /** The stored product with the submitted fields merged in and `img` as its image. */
  function Merged(p: Product, f: ProductForm, img: string): Draft {
    Draft(Keep(f.name, p.name), Keep(f.productNo, p.productNo), KeepNumber(f.price, p.price), img,
          KeepNumber(f.darkQuantity, p.dark), KeepNumber(f.lightQuantity, p.light))
  }

  /** The image after the update: the uploaded one if a file was sent. */
  function NewImage(current: string, image: Option<Upload>): string {
    if image.Some? && image.value.Uploaded? then image.value.url else current
  }

  /** A create request lacks one of the required fields. */
  predicate MissingForCreate(f: ProductForm) {
    f.name == "" || f.productNo == "" || f.price == "" || f.darkQuantity == "" ||
    f.lightQuantity == "" || f.image.None?
  }

  /** The product a create request describes, with the uploaded image. */
  function Fresh(f: ProductForm, url: string): Draft {
    Draft(f.name, f.productNo, ParseInt(f.price), url, ParseInt(f.darkQuantity), ParseInt(f.lightQuantity))
  }

  /** The product schema's validation: required strings non-empty, numbers
      present and not below their minimum 0. */
  predicate Acceptable(d: Draft) {
    d.name != "" && d.productNo != "" && d.img != "" &&
    d.price.Some? && d.price.value >= 0 &&
    d.dark.Some? && d.dark.value >= 0 && d.light.Some? && d.light.value >= 0
  }

  function Admit(d: Draft): Product
    requires Acceptable(d)
  {
    Product(d.name, d.productNo, d.price.value, d.img, d.dark.value, d.light.value)
  }

  /** Another stored product already has this number. */
  predicate NumberTaken(products: map<ProductId, Product>, id: ProductId, productNo: string) {
    exists k :: k in products && k != id && products[k].productNo == productNo
  }

  /** `save()`: validation first (an error without a code), then the unique index
      on `productNo` (error code 11000). Returns the new table and the reply. */
  function Save(products: map<ProductId, Product>, id: ProductId, d: Draft): (r: (map<ProductId, Product>, PostReply))
    ensures r.1.Saved? ==> Acceptable(d) && r.1.product == Admit(d) && r.0 == products[id := r.1.product]
    ensures !r.1.Saved? ==> r.0 == products
    ensures r.1 == ServerError <==> !Acceptable(d)
    ensures r.1 == Conflict <==> Acceptable(d) && NumberTaken(products, id, d.productNo)
    ensures r.1.Saved? || r.1 == Conflict || r.1 == ServerError
    ensures StockNonNegative(products) ==> StockNonNegative(r.0)
    ensures DistinctProductNos(products) ==> DistinctProductNos(r.0)
  {
    if !Acceptable(d) then (products, ErrorReply(None))
    else if NumberTaken(products, id, d.productNo) then (products, ErrorReply(Some(DuplicateKey)))
    else
      var p := Admit(d);
      (products[id := p], Saved(p))
  }

  /** Each field of the update keeps the stored value when nothing was submitted
      for it and takes the submission otherwise. */
  lemma MergeKeepsUnlessSubmitted(p: Product, f: ProductForm, img: string)
    ensures var d := Merged(p, f, img);
      (f.name == "" ==> d.name == p.name) && (f.name != "" ==> d.name == f.name) &&
      (f.productNo == "" ==> d.productNo == p.productNo) && (f.productNo != "" ==> d.productNo == f.productNo) &&
      (f.price == "" ==> d.price == Some(p.price)) && (f.price != "" ==> d.price == ParseInt(f.price)) &&
      (f.darkQuantity == "" ==> d.dark == Some(p.dark)) && (f.darkQuantity != "" ==> d.dark == ParseInt(f.darkQuantity)) &&
      (f.lightQuantity == "" ==> d.light == Some(p.light)) && (f.lightQuantity != "" ==> d.light == ParseInt(f.lightQuantity))
  {
  }

  /** The image changes only when a file was sent and uploaded. */
  lemma ImageReplacedOnlyByUpload(current: string, image: Option<Upload>)
    ensures image.None? ==> NewImage(current, image) == current
    ensures image.Some? && image.value.Uploaded? ==> NewImage(current, image) == image.value.url
  {
  }

  /** An update that submits nothing leaves a valid table exactly as it was, and
      answers with the stored product. */
  lemma EmptyUpdateChangesNothing(products: map<ProductId, Product>, id: ProductId)
    requires id in products && StockNonNegative(products) && DistinctProductNos(products)
    requires products[id].name != "" && products[id].productNo != "" && products[id].img != ""
    requires products[id].price >= 0
    ensures var p := products[id];
      Save(products, id, Merged(p, ProductForm(id, "", "", "", "", "", None), NewImage(p.img, None))) ==
      (products, Saved(p))
  {
    var p := products[id];
    var d := Merged(p, ProductForm(id, "", "", "", "", "", None), p.img);
    assert Admit(d) == p;
    assert !NumberTaken(products, id, d.productNo);
    assert products[id := p] == products;
  }

  /** Re-submitting the stored numbers as decimal text, as the edit form does,
      also leaves them as they were. */
  lemma ResubmittedNumbersKept(p: Product, f: ProductForm, img: string)
    requires f.price == IntToString(p.price)
    requires f.darkQuantity == IntToString(p.dark) && f.lightQuantity == IntToString(p.light)
    ensures var d := Merged(p, f, img);
      d.price == Some(p.price) && d.dark == Some(p.dark) && d.light == Some(p.light)
  {
    ParseIntOfToString(p.price);
    ParseIntOfToString(p.dark);
    ParseIntOfToString(p.light);
  }

  /** The `POST` handler. `isValidId` is the object-id syntax check that
      `findById` casts with, and `newId` the id the database gives a new product. */
  method Post(db: Db, session: Option<Session>, form: ProductForm, isValidId: string -> bool,
              newId: ProductId) returns (reply: PostReply)
    requires db.Valid() && newId !in db.products
    modifies db`products
    ensures db.Valid()
    ensures !CanWrite(session) ==> reply == PostUnauthorized && db.products == old(db.products)
    ensures CanWrite(session) && form.id != "" ==>
      if !isValidId(form.id) then reply == ServerError && db.products == old(db.products)
      else if form.id !in old(db.products) then reply == PostNotFound && db.products == old(db.products)
      else if form.image.Some? && form.image.value.UploadFailed? then
        reply == ErrorReply(form.image.value.code) && db.products == old(db.products)
      else
        var p := old(db.products)[form.id];
        (db.products, reply) == Save(old(db.products), form.id, Merged(p, form, NewImage(p.img, form.image)))
    ensures CanWrite(session) && form.id == "" ==>
      if MissingForCreate(form) then reply == MissingFields && db.products == old(db.products)
      else if form.image.value.UploadFailed? then
        reply == ErrorReply(form.image.value.code) && db.products == old(db.products)
      else (db.products, reply) == Save(old(db.products), newId, Fresh(form, form.image.value.url))
  {
    if session.None? || !session.value.isAdmin {
      return PostUnauthorized;
    }
    var id: ProductId;
    var d: Draft;
    if form.id != "" {
      // `findById` fails to cast a malformed id
      if !isValidId(form.id) {
        return ErrorReply(None);
      }
      if form.id !in db.products {
        return PostNotFound;
      }
      var existing := db.products[form.id];
      var img := existing.img;
      if form.image.Some? {
        match form.image.value {
          case UploadFailed(code) => return ErrorReply(code);
          case Uploaded(url) => img := url;
        }
      }
      id, d := form.id, Merged(existing, form, img);
    } else {
      if MissingForCreate(form) {
        return MissingFields;
      }
      match form.image.value {
        case UploadFailed(code) => return ErrorReply(code);
        case Uploaded(url) => id, d := newId, Fresh(form, url);
      }
    }
    var outcome := Save(db.products, id, d);
    db.products, reply := outcome.0, outcome.1;
  }
}
