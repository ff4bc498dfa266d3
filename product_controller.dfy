/**
 * The product controller: add, look up, update, delete and list products.
 * Each runs inside a try whose catch answers 500, so a failed validation
 * here becomes that 500 answer, not the framework's 422.
 */
module ProductController {
  import opened Wrappers
  import opened Tables
  import opened Responses
  import opened Database

  /** name, price (in cents) and description of a request; None when missing or not of the rule's type. */
  datatype ProductFields = ProductFields(name: Option<string>, price: Option<int>, description: Option<string>)

  /** The `image` of an add request: no file, or a file that passes or fails the image, mimes and max:2048 rules. */
  datatype ImageUpload = NoUpload | Upload(acceptable: bool)

  /** The `image` of an update request: absent, a string, or a value that is not a string. */
  datatype ImageField = NoImage | ImageText(payload: string) | ImageNotText

  /** The file updateProduct writes: its name and the base64 text decoded into it. */
  datatype ImageWrite = ImageWrite(fileName: string, base64: string)

  /** The characters PHP's trim removes. */
  predicate IsTrimmed(c: char)
  {
    c == ' ' || c == '\t' || c == '\n' || c == '\r' || c == 0 as char || c == 11 as char
  }

  /** The `required` rule on a string: present and not blank once trimmed. */
  predicate Required(s: Option<string>)
  {
    s.Some? && exists i :: 0 <= i < |s.value| && !IsTrimmed(s.value[i])
  }

  /** The rules shared by add and update: name required, at most 255 characters; price required and numeric; description required. */
  predicate FieldsValid(f: ProductFields)
  {
    Required(f.name) && |f.name.value| <= 255 && f.price.Some? && Required(f.description)
  }

  /**
   * POST addproduct. Any failed rule answers 500 and writes nothing;
   * otherwise one new product, holding the uploaded file's stored name
   * `fileName` when a file came with the request, and 201.
   */
  method AddProduct(db: Store, fields: ProductFields, image: ImageUpload, fileName: string) returns (r: Response)
    requires db.Valid()
    modifies db
    ensures db.Valid()
    ensures db.nextTransactionId == old(db.nextTransactionId) && db.nextItemId == old(db.nextItemId)
    ensures !(FieldsValid(fields) && image != Upload(false)) ==>
      r == JsonResponse(NoData, Some("Error adding product"), 500) && unchanged(db)
    ensures FieldsValid(fields) && image != Upload(false) ==>
      var p := Product(old(db.nextProductId), fields.name.value, fields.price.value, fields.description.value,
                       if image.Upload? then Some(fileName) else None);
      p.id !in old(db.products) && db.products == old(db.products)[p.id := p] &&
      |db.products| == |old(db.products)| + 1 && db.nextProductId == p.id + 1 &&
      db.transactions == old(db.transactions) && db.items == old(db.items) &&
      r == JsonResponse(ProductData(p), Some("Product added successfully"), 201)
  {
    if !(FieldsValid(fields) && image != Upload(false)) {
      return JsonResponse(NoData, Some("Error adding product"), 500);
    }
    var stored := if image.Upload? then Some(fileName) else None;
    var p := db.InsertProduct(fields.name.value, fields.price.value, fields.description.value, stored);
    r := JsonResponse(ProductData(p), Some("Product added successfully"), 201);
  }

  /** GET product: the stored row, or 404; nothing changes either way. */
  function GetProduct(products: map<nat, Product>, id: nat): (r: Response)
    ensures StatusCode(r) == 200 <==> id in products
    ensures id in products ==> r == JsonResponse(ProductData(products[id]), Some("Product fetched successfully"), 200)
    ensures id !in products ==> r == JsonResponse(NoData, Some("Product not found"), 404)
  {
    if id in products then JsonResponse(ProductData(products[id]), Some("Product fetched successfully"), 200)
    else JsonResponse(NoData, Some("Product not found"), 404)
  }

  /** strpos(s, ','): the index of the first comma, None where PHP gives false. */
  function FirstComma(s: string): (r: Option<nat>)
    ensures r.None? <==> forall i :: 0 <= i < |s| ==> s[i] != ','
    ensures r.Some? ==> r.value < |s| && s[r.value] == ',' && forall i :: 0 <= i < r.value ==> s[i] != ','
  {
    if s == [] then None
    else if s[0] == ',' then Some(0)
    else
      match FirstComma(s[1..])
      case None => None
      case Some(i) => Some(i + 1)
  }

  /**
   * substr(s, strpos(s, ',') + 1). With no comma, false + 1 is 1 and the
   * first character goes (PHP drops one byte; the text here is a sequence of
   * characters, which agree with bytes on base64 and data-URL text).
   */
  function AfterFirstComma(s: string): (r: string)
  {
    match FirstComma(s)
    case Some(i) => s[i + 1..]
    case None => if s == [] then [] else s[1..]
  }

  /** str_replace(' ', '+', s). */
  function SpacesToPlus(s: string): (r: string)
    ensures |r| == |s|
    ensures forall i :: 0 <= i < |s| ==> r[i] == if s[i] == ' ' then '+' else s[i]
  {
    if s == [] then [] else [if s[0] == ' ' then '+' else s[0]] + SpacesToPlus(s[1..])
  }

  /** The image payload of an update, stripped of its data-URL prefix, with spaces restored to '+'. */
  function NormalizeImagePayload(s: string): (r: string)
    ensures forall i :: 0 <= i < |r| ==> r[i] != ' '
    ensures s != [] ==> |r| < |s|
  {
    SpacesToPlus(AfterFirstComma(s))
  }

  /** A data URL "data:...;base64," + body normalises to the body, spaces turned back into '+'. */
  lemma DataUrlPayload(prefix: string, body: string)
    requires forall i :: 0 <= i < |prefix| ==> prefix[i] != ','
    ensures NormalizeImagePayload(prefix + [','] + body) == SpacesToPlus(body)
  {
    var s := prefix + [','] + body;
    assert s[|prefix|] == ',';
    assert s[|prefix| + 1..] == body;
  }

  /** A payload without a comma loses its first character. */
  lemma PayloadWithoutCommaLosesFirstChar(s: string)
    requires s != [] && forall i :: 0 <= i < |s| ==> s[i] != ','
    ensures NormalizeImagePayload(s) == SpacesToPlus(s[1..])
  {
  }

  /**
   * PUT product update. 404 on a missing id. A failed rule answers 500 and
   * writes nothing. Otherwise name, price and description are replaced; the
   * image changes to the new file `fileName` only when the request carries
   * one, and that file gets the normalised payload.
   */
  method UpdateProduct(db: Store, id: nat, fields: ProductFields, image: ImageField, fileName: string)
    returns (r: Response, write: Option<ImageWrite>)
    requires db.Valid()
    modifies db
    ensures db.Valid()
    ensures db.nextProductId == old(db.nextProductId) && db.nextTransactionId == old(db.nextTransactionId)
    ensures db.nextItemId == old(db.nextItemId)
    ensures id !in old(db.products) ==>
      r == JsonResponse(NoData, Some("Product not found"), 404) && write == None && unchanged(db)
    ensures id in old(db.products) && !(FieldsValid(fields) && !image.ImageNotText?) ==>
      r == JsonResponse(NoData, Some("Error updating product"), 500) && write == None && unchanged(db)
    ensures id in old(db.products) && FieldsValid(fields) && !image.ImageNotText? ==>
      var was := old(db.products)[id];
      var p := was.(name := fields.name.value, price := fields.price.value, description := fields.description.value,
                    image := if image.ImageText? then Some(fileName) else was.image);
      db.products == old(db.products)[id := p] &&
      db.transactions == old(db.transactions) && db.items == old(db.items) &&
      write == (if image.ImageText? then Some(ImageWrite(fileName, NormalizeImagePayload(image.payload))) else None) &&
      r == JsonResponse(ProductData(p), Some("Product updated successfully"), 200)
  {
    write := None;
    if id !in db.products {
      return JsonResponse(NoData, Some("Product not found"), 404), None;
    }
    if !(FieldsValid(fields) && !image.ImageNotText?) {
      return JsonResponse(NoData, Some("Error updating product"), 500), None;
    }
    var p := db.products[id];
    p := p.(name := fields.name.value, price := fields.price.value, description := fields.description.value);
    if image.ImageText? {
      write := Some(ImageWrite(fileName, NormalizeImagePayload(image.payload)));
      p := p.(image := Some(fileName));
    }
    db.SaveProduct(p);
    r := JsonResponse(ProductData(p), Some("Product updated successfully"), 200);
  }

  /** DELETE product: 404 on a missing id; otherwise that row goes, and with it every item referring to it. */
  method DeleteProduct(db: Store, id: nat) returns (r: Response)
    requires db.Valid()
    modifies db
    ensures db.Valid()
    ensures db.nextProductId == old(db.nextProductId) && db.nextTransactionId == old(db.nextTransactionId)
    ensures db.nextItemId == old(db.nextItemId)
    ensures id !in old(db.products) ==> r == JsonResponse(NoData, Some("Product not found"), 404) && unchanged(db)
    ensures id in old(db.products) ==>
      r == JsonResponse(NoData, Some("Product deleted successfully"), 200) &&
      db.products == old(db.products) - {id} &&
      db.items == CascadeProductDelete(old(db.items), id) &&
      db.transactions == old(db.transactions)
  {
    if id !in db.products {
      return JsonResponse(NoData, Some("Product not found"), 404);
    }
    db.DeleteProductRow(id);
    r := JsonResponse(NoData, Some("Product deleted successfully"), 200);
  }

  /** 'images/' . $product->image: a null image concatenates as "". */
  function ImagePath(image: Option<string>): string
  {
    "images/" + match image case Some(name) => name case None => ""
  }

  /**
   * GET products: every row in id order, each image rewritten to the URL
   * `asset` builds for it. The rewrite is made on the fetched copies and
   * never saved.
   */
  method Index(db: Store, asset: string -> string) returns (r: Response)
    requires db.Valid()
    ensures r.Envelope? && StatusCode(r) == 200 && r.success
    ensures r.message == Some("Products fetched successfully") && r.data.Products?
    ensures var rows := ProductRows(db.products, db.nextProductId);
      |r.data.products| == |rows| &&
      forall i :: 0 <= i < |rows| ==> r.data.products[i] == rows[i].(image := Some(asset(ImagePath(rows[i].image))))
  {
    var rows := ProductRows(db.products, db.nextProductId);
    var listed: seq<Product> := [];
    var i := 0;
    while i < |rows|
      invariant 0 <= i <= |rows| && |listed| == i
      invariant forall k :: 0 <= k < i ==> listed[k] == rows[k].(image := Some(asset(ImagePath(rows[k].image))))
    {
      listed := listed + [rows[i].(image := Some(asset(ImagePath(rows[i].image))))];
      i := i + 1;
    }
    r := JsonResponse(Products(listed), Some("Products fetched successfully"), 200);
  }
}
