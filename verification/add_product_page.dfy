/** The product form page (`app/product/add/page.tsx`): it keeps the form in
    one state record, reads the two colour quantities from number inputs,
    refuses to submit when neither colour has stock, and posts the form to the
    product endpoint. The page is opened with `?id=` to edit a product and
    without it to create one. */
module AddProductPage {
  import opened Common
  import opened Tables
  import opened ProductsRoute

  /** The form state. The chosen image file is represented by what its upload
      will yield. */
  datatype FormState = FormState(name: string, productNo: string, price: string,
                                 dark: int, light: int, image: Option<Upload>)

  const QuantityRequired := "At least one color quantity is required."

  /** The blank form the page starts with. */
  function Blank(): FormState {
    FormState("", "", "", 0, 0, None)
  }

  /** `parseInt(value) || 0`: a number input whose text does not parse counts as 0. */
  function QuantityInput(text: string): int {
    match ParseInt(text)
    case Some(v) => v
    case None => 0
  }

  /** The dark and light `onChange` updaters. */
  function SetDark(s: FormState, text: string): FormState {
    s.(dark := QuantityInput(text))
  }

  function SetLight(s: FormState, text: string): FormState {
    s.(light := QuantityInput(text))
  }

  datatype Outcome = Rejected(error: string) | Sent(form: ProductForm)

  /** The multipart form the page posts: numbers are sent as their decimal text,
      the image only when one was chosen. */
  function Submission(s: FormState, idField: string): ProductForm {
    ProductForm(idField, s.name, s.productNo, s.price, IntToString(s.dark), IntToString(s.light), s.image)
  }

  /** `handleSubmit`: refuse when neither quantity is positive, otherwise post. */
  function HandleSubmit(s: FormState, idField: string): Outcome {
    if s.dark <= 0 && s.light <= 0 then Rejected(QuantityRequired)
    else Sent(Submission(s, idField))
  }

  // ---------------------------------------------------------------------------

  /** The submit check refuses exactly when neither quantity is positive; one
      positive quantity is enough even if the other is negative. */
  lemma SubmitRefusedIffNoStock(s: FormState, idField: string)
    ensures HandleSubmit(s, idField).Rejected? <==> s.dark <= 0 && s.light <= 0
    ensures HandleSubmit(s, idField).Rejected? ==> HandleSubmit(s, idField).error == QuantityRequired
    ensures HandleSubmit(s, idField).Sent? ==> HandleSubmit(s, idField).form == Submission(s, idField)
  {
  }

  /** The blank form cannot be submitted. */
  lemma BlankFormRefused(idField: string)
    ensures HandleSubmit(Blank(), idField) == Rejected(QuantityRequired)
  {
  }

  /** Text that does not parse is stored as 0; the decimal text of a number is
      stored as that number. */
  lemma {:induction false} QuantityInputReads(text: string, n: int)
    ensures ParseInt(text).None? ==> QuantityInput(text) == 0
    ensures QuantityInput(IntToString(n)) == n
  {
    ParseIntOfToString(n);
  }

  /** Editing one colour leaves the other colour and every other field alone. */
  lemma UpdatersTouchOneColour(s: FormState, text: string)
    ensures SetDark(s, text).(dark := s.dark) == s
    ensures SetLight(s, text).(light := s.light) == s
    ensures SetDark(s, text).light == s.light && SetLight(s, text).dark == s.dark
  {
  }

  /** The quantities the page sends parse back, on the server, to the numbers
      in the form. */
  lemma {:induction false} SentQuantitiesParseBack(s: FormState, idField: string)
    ensures var f := Submission(s, idField);
      ParseInt(f.darkQuantity) == Some(s.dark) && ParseInt(f.lightQuantity) == Some(s.light)
  {
    ParseIntOfToString(s.dark);
    ParseIntOfToString(s.light);
  }

  // ---------------------------------------------------------------------------
  // The id field of a create request

  /** As written, the id query parameter is appended as is: when the page was
      opened without one it is `null`, which the form data turns into the text
      `"null"`. */
  function IdFieldAsWritten(updateId: Option<string>): string {
    if updateId.Some? then updateId.value else "null"
  }

  /** Consequently a create request is taken by the endpoint for an update of the
      product `"null"`, which is not a well-formed object id: the lookup fails
      and the answer is 500, with nothing stored. */
  method SubmitNewAsWritten(db: Db, session: Session, s: FormState, isValidId: string -> bool,
                            newId: ProductId) returns (reply: Option<PostReply>)
    requires db.Valid() && newId !in db.products && session.isAdmin && !isValidId("null")
    modifies db`products
    ensures db.products == old(db.products)
    ensures s.dark <= 0 && s.light <= 0 ==> reply == None
    ensures !(s.dark <= 0 && s.light <= 0) ==> reply == Some(ServerError)
  {
    match HandleSubmit(s, IdFieldAsWritten(None)) {
      case Rejected(_) =>
        reply := None;
      case Sent(f) =>
        var r := Post(db, Some(session), f, isValidId, newId);
        reply := Some(r);
    }
  }

  /** Corrected: without an id the field is sent empty, and the endpoint creates. */
  function IdFieldFixed(updateId: Option<string>): string {
    if updateId.Some? then updateId.value else ""
  }

  /** With the corrected id field, a complete create request from the page whose
      image was uploaded and whose number is not taken stores exactly the product
      in the form. */
  lemma {:induction false} FixedCreateSaves(products: map<ProductId, Product>, newId: ProductId,
                                            s: FormState, url: string, price: int)
    requires s.name != "" && s.productNo != "" && url != "" && s.image == Some(Uploaded(url))
    requires s.price == IntToString(price) && price >= 0 && s.dark >= 0 && s.light >= 0
    requires !NumberTaken(products, newId, s.productNo)
    ensures var f := Submission(s, IdFieldFixed(None));
      f.id == "" && !MissingForCreate(f) &&
      Save(products, newId, Fresh(f, url)) ==
        (products[newId := Product(s.name, s.productNo, price, url, s.dark, s.light)],
         Saved(Product(s.name, s.productNo, price, url, s.dark, s.light)))
  {
    SentQuantitiesParseBack(s, "");
    ParseIntOfToString(price);
  }
}
