/** The request handler of the product endpoint (api/product/index.php): one
    branch per HTTP verb, run against an abstract store. The store is the rows
    a SELECT returns plus the outcome of the single write `execute()` call. */
module ProductApi {
  import opened Wrappers
  import opened ProductSanitize
  import PM = ProductModel
  import Sequences
  import opened Text

  /** A row of the product table as PDO fetches it, every column as text. */
  datatype Row = Row(sku: string, name: string, price: string, productType: string,
                     size: string, height: string, width: string, length: string, weight: string)

  /** One element of the GET listing. */
  datatype ListItem = ListItem(sku: string, name: string, price: string, description: string)

  /** What the store's `execute()` does: return a boolean or throw a
      PDOException carrying an SQLSTATE code. */
  datatype Exec = Returned(ok: bool) | Threw(code: string)

  /** An operation the handler performs on the store. */
  datatype StoreCall = SelectAll | Insert(params: seq<Value>) | DeleteBySku(sku: string)

  /** An exception that escapes the handler. */
  datatype Thrown = InvalidProductType(message: string) | PdoFailure(code: string)

  datatype Response =
    /** A JSON `{status, message}` object sent with the given HTTP code. */
    | Envelope(httpCode: int, status: int, message: string)
    /** A JSON array of products, HTTP 200. */
    | Listing(items: seq<ListItem>)
    /** A plain-text body, HTTP 200. */
    | PlainText(body: string)
    /** An uncaught exception: PHP's fatal-error text instead of JSON. With
        `display_errors` on, the status stays 200; the status is not modelled. */
    | Uncaught(thrown: Thrown)
    /** A verb the switch has no case for: an empty HTTP 200 response. */
    | Silent

  datatype Outcome = Outcome(response: Response, calls: seq<StoreCall>)

  datatype Store = Store(rows: seq<Row>, exec: Exec)

  /** The request method, the decoded JSON body and the `sku` query parameter. */
  datatype Request = Request(verb: string, body: seq<Entry>, skuParam: Option<Value>)

  /** The SQLSTATE a unique-key violation is reported with. */
  const DuplicateKeyState := "23000"

  const Created := Envelope(200, 1, "Record created successfully.")
  const NotCreated := Envelope(200, 0, "Failed to create record.")
  const DuplicateSku := Envelope(409, 409, "Duplicate SKU supplied.")
  const CreateError := Envelope(500, 0, "Failed to create record.")
  const Deleted := Envelope(200, 1, "Record deleted successfully.")
  const NotDeleted := Envelope(200, 0, "Failed to delete record.")

  // ---------------------------------------------------------------- GET

  /** The factory run on one row, projected to the listing's four fields. */
  function ListRow(row: Row): Result<ListItem, string> {
    match PM.CreateProduct(row.sku, row.name, row.price, row.productType,
                           row.size, row.height, row.width, row.length, row.weight)
    case Failure(e) => Failure(e)
    case Success(p) => Success(ListItem(p.sku, p.name, p.price, PM.Description(p)))
  }

  /** The description the factory derives for a row of a known type. */
  function RowDescription(row: Row): string
    requires PM.IsKnownType(row.productType)
  {
    if row.productType == PM.BookType then "Weight: " + row.weight + "KG"
    else if row.productType == PM.FurnitureType then
      "Dimensions: " + row.height + "x" + row.width + "x" + row.length
    else "Size: " + row.size + " MB"
  }

  /** The position of the first row whose type the factory refuses, or the
      number of rows when there is none. */
  function FirstUnknown(rows: seq<Row>): (i: nat)
    ensures i <= |rows|
    ensures forall j :: 0 <= j < i ==> PM.IsKnownType(rows[j].productType)
    ensures i < |rows| ==> !PM.IsKnownType(rows[i].productType)
  {
    if rows == [] || !PM.IsKnownType(rows[0].productType) then 0
    else 1 + FirstUnknown(rows[1..])
  }

  /** The GET loop: every row through the factory, in row order. The first row
      of an unknown type throws and no listing is produced. */
  function ListProducts(rows: seq<Row>): (r: Result<seq<ListItem>, string>)
    ensures r.Success? <==> FirstUnknown(rows) == |rows|
    ensures r.Success? ==> |r.value| == |rows| && forall i :: 0 <= i < |rows| ==>
              r.value[i] == ListItem(rows[i].sku, rows[i].name, rows[i].price, RowDescription(rows[i]))
    ensures r.Failure? ==> r.error == "Invalid product type: " + rows[FirstUnknown(rows)].productType
  {
    if rows == [] then Success([])
    else
      match ListRow(rows[0])
      case Failure(e) => Failure(e)
      case Success(item) =>
        match ListProducts(rows[1..])
        case Failure(e) => Failure(e)
        case Success(items) => Success([item] + items)
  }

  function HandleGet(rows: seq<Row>): (o: Outcome)
    ensures o.calls == [SelectAll]
    ensures o.response.Listing? <==> forall i :: 0 <= i < |rows| ==> PM.IsKnownType(rows[i].productType)
    ensures o.response.Listing? ==> o.response.items == ListProducts(rows).value
    ensures o.response.Listing? ==> |o.response.items| == |rows|
    ensures !o.response.Listing? ==> o.response.Uncaught? && o.response.thrown.InvalidProductType?
  {
    match ListProducts(rows)
    case Success(items) => Outcome(Listing(items), [SelectAll])
    case Failure(e) => Outcome(Uncaught(InvalidProductType(e)), [SelectAll])
  }

  // ---------------------------------------------------------------- POST

  /** The insert's parameters, `:sku` to `:weight`, in column order. */
  const Columns: seq<string> :=
    ["sku", "name", "price", "product_type", "size", "height", "width", "length", "weight"]

  /** `$stmt->bindParam(':col', $product['col'])` for every column; a missing
      key binds null. */
  function BindParams(product: seq<Entry>): (ps: seq<Value>)
    ensures |ps| == |Columns|
  {
    seq(|Columns|, i requires 0 <= i < |Columns| => Lookup(product, Columns[i]).GetOr(Null))
  }

  /** How the outcome of the insert becomes the response. */
  function CreateResponse(exec: Exec): (r: Response)
    ensures r == Created <==> exec == Returned(true)
    ensures r == NotCreated <==> exec == Returned(false)
    ensures r == DuplicateSku <==> exec == Threw(DuplicateKeyState)
    ensures r == CreateError <==> exec.Threw? && exec.code != DuplicateKeyState
  {
    match exec
    case Returned(ok) => if ok then Created else NotCreated
    case Threw(code) => if code == DuplicateKeyState then DuplicateSku else CreateError
  }

  /** The POST branch: sanitize the body against the product table and insert
      the sanitized values as they are; the product type is not checked. */
  function HandlePost(body: seq<Entry>, exec: Exec): (o: Outcome)
    ensures o.response == CreateResponse(exec)
    ensures |o.calls| == 1 && o.calls[0].Insert? && |o.calls[0].params| == |Columns|
    ensures var product := Sanitize(body, ProductFields, DefaultFilter, Filters, true);
            |product| == |Columns| && forall i :: 0 <= i < |Columns| ==> o.calls[0].params[i] == product[i].val
  {
    var product := Sanitize(body, ProductFields, DefaultFilter, Filters, true);
    SanitizedKeysAreColumns(body);
    Outcome(CreateResponse(exec), [Insert(BindParams(product))])
  }

  /** In an array without repeated keys, looking up the key of entry i finds entry i. */
  lemma {:induction false} LookupUnique(items: seq<Entry>, i: nat)
    requires Sequences.NoDup(Keys(items))
    requires i < |items|
    ensures Lookup(items, items[i].key) == Some(items[i].val)
  {
    if i > 0 {
      assert Keys(items)[0] != Keys(items)[i];
      assert Keys(items[1..]) == Keys(items)[1..];
      LookupUnique(items[1..], i - 1);
    }
  }

  /** The sanitized product has exactly the insert's columns as keys, so every
      binding finds its value. */
  lemma SanitizedKeysAreColumns(body: seq<Entry>)
    ensures var product := Sanitize(body, ProductFields, DefaultFilter, Filters, true);
            Keys(product) == Columns
            && forall i :: 0 <= i < |Columns| ==> BindParams(product)[i] == product[i].val
  {
    var product := Sanitize(body, ProductFields, DefaultFilter, Filters, true);
    ProductFieldsTable();
    forall i | 0 <= i < |Columns|
      ensures BindParams(product)[i] == product[i].val
    {
      LookupUnique(product, i);
    }
  }

  /** Create does not look at the product type: a body whose `product_type` is
      the string t is inserted with t escaped and trimmed, and acknowledged like
      any other. If that stored type is unknown, a store holding a row with it
      can no longer be listed. */
  lemma UnknownTypeCreatedButNotListable(t: string, rest: seq<Entry>, row: Row, before: seq<Row>, after: seq<Row>)
    ensures HandlePost([Entry("product_type", Str(t))] + rest, Returned(true)).calls[0].params[3]
            == Str(Trim(EscapeSpecialChars(t)))
    ensures HandlePost([Entry("product_type", Str(t))] + rest, Returned(true)).response == Created
    ensures !PM.IsKnownType(Trim(EscapeSpecialChars(t))) ==>
              HandleGet(before + [row.(productType := Trim(EscapeSpecialChars(t)))] + after).response.Uncaught?
  {
    var body := [Entry("product_type", Str(t))] + rest;
    assert body[0] == Entry("product_type", Str(t));
    assert Lookup(body, "product_type") == Some(Str(t));
    PostBindsType(body, t);
    assert HandlePost(body, Returned(true)).response == CreateResponse(Returned(true)) == Created;
    var stored := row.(productType := Trim(EscapeSpecialChars(t)));
    if !PM.IsKnownType(stored.productType) {
      UnknownRowBreaksListing(stored, before, after);
    }
  }

  /** One row of an unknown type anywhere in the store makes GET fail. */
  lemma UnknownRowBreaksListing(row: Row, before: seq<Row>, after: seq<Row>)
    requires !PM.IsKnownType(row.productType)
    ensures HandleGet(before + [row] + after).response.Uncaught?
  {
    assert (before + [row] + after)[|before|] == row;
  }

  /** The bound `:product_type` is the body's type string, escaped and trimmed. */
  lemma PostBindsType(body: seq<Entry>, t: string)
    requires Lookup(body, "product_type") == Some(Str(t))
    ensures HandlePost(body, Returned(true)).calls[0].params[3] == Str(Trim(EscapeSpecialChars(t)))
  {
    SanitizedType(body, t);
  }

  /** Sanitizing keeps the type as its fourth field, escaped and trimmed. */
  lemma SanitizedType(body: seq<Entry>, t: string)
    requires Lookup(body, "product_type") == Some(Str(t))
    ensures Sanitize(body, ProductFields, DefaultFilter, Filters, true)[3].val
            == Str(Trim(EscapeSpecialChars(t)))
  {
    var field := FilterField(body, "product_type", FilterFor(Filters, "string"));
    FilteredType(body, t);
    assert ProductFields[3] == ("product_type", "string");
    assert Sanitize(body, ProductFields, DefaultFilter, Filters, true)[3].val == TrimValue(field);
  }

  lemma FilteredType(body: seq<Entry>, t: string)
    requires Lookup(body, "product_type") == Some(Str(t))
    ensures FilterField(body, "product_type", FilterFor(Filters, "string")) == Str(EscapeSpecialChars(t))
  {
    assert FilterFor(Filters, "string") == FilterSpec(FullSpecialChars, false);
  }

  // ---------------------------------------------------------------- DELETE

  /** The result of `filter_input(INPUT_GET, 'sku', FILTER_SANITIZE_FULL_SPECIAL_CHARS)`:
      null when the parameter is missing, false when it is not a scalar. */
  datatype Filtered = Missing | Failed | Text(s: string)

  function FilterInput(param: Option<Value>): (r: Filtered)
    ensures r.Missing? <==> param.None?
    ensures r.Failed? <==> param.Some? && param.value.Arr?
    ensures r.Text? ==> r.s == EscapeSpecialChars(Render(param.value))
  {
    match param
    case None => Missing
    case Some(v) =>
      match FilterScalar(DefaultFilter, v)
      case None => Failed
      case Some(s) => Text(s)
  }

  /** PHP's falsiness for the filtered value: null, false, "" and "0". */
  predicate Falsy(x: Filtered) {
    match x
    case Missing => true
    case Failed => true
    case Text(s) => s == "" || s == "0"
  }

  /** String concatenation's view of the filtered value: null and false become "". */
  function AsText(x: Filtered): string {
    if x.Text? then x.s else ""
  }

  /** How the outcome of the delete becomes the response. */
  function DeleteResponse(exec: Exec): (r: Response)
    ensures r == Deleted <==> exec == Returned(true)
    ensures r == NotDeleted <==> exec == Returned(false)
    ensures r.Uncaught? <==> exec.Threw?
  {
    match exec
    case Returned(ok) => if ok then Deleted else NotDeleted
    case Threw(code) => Uncaught(PdoFailure(code))
  }

  /** The DELETE branch: a falsy sku is refused before the store is touched;
      otherwise the store deletes by the sanitized sku. */
  function HandleDelete(param: Option<Value>, exec: Exec): (o: Outcome)
    ensures o.calls == [] <==> Falsy(FilterInput(param))
    ensures Falsy(FilterInput(param)) ==>
              o.response == Envelope(200, 0, "Invalid product ID: " + AsText(FilterInput(param)))
    ensures !Falsy(FilterInput(param)) ==>
              o.calls == [DeleteBySku(EscapeSpecialChars(Render(param.value)))]
              && o.response == DeleteResponse(exec)
  {
    var sku := FilterInput(param);
    if Falsy(sku) then Outcome(Envelope(200, 0, "Invalid product ID: " + AsText(sku)), [])
    else Outcome(DeleteResponse(exec), [DeleteBySku(sku.s)])
  }

  /** Escaping maps "" and "0" to themselves and nothing else to them. */
  lemma EscapeFalsy(s: string)
    ensures EscapeSpecialChars(s) == "" <==> s == ""
    ensures EscapeSpecialChars(s) == "0" <==> s == "0"
  {
    if |s| == 1 {
      assert s == [s[0]];
      assert EscapeSpecialChars(s) == EscapeChar(s[0]) + EscapeSpecialChars([]);
    } else if |s| >= 2 {
      assert |EscapeSpecialChars(s)| >= 2;
    }
  }

  /** The store is left untouched exactly when the parameter is missing, not a
      scalar, or renders as "" or "0". A sku of blanks is not refused: this path
      does not trim. */
  lemma DeleteRefusesExactly(param: Option<Value>, exec: Exec)
    ensures HandleDelete(param, exec).calls == [] <==>
              param.None? || param.value.Arr? || Render(param.value) == "" || Render(param.value) == "0"
    ensures HandleDelete(Some(Str(" ")), exec).calls == [DeleteBySku(" ")]
  {
    if param.Some? && !param.value.Arr? {
      EscapeFalsy(Render(param.value));
    }
    assert EscapeSpecialChars(" ") == EscapeChar(' ') + EscapeSpecialChars([]);
  }

  // ---------------------------------------------------------------- dispatch

  const PutNotImplemented := "PUT not implemented yet"

  /** The `switch ($method)`. */
  function Handle(req: Request, store: Store): (o: Outcome)
    ensures |o.calls| <= 1
    ensures req.verb == "GET" ==> o == HandleGet(store.rows) && o.calls == [SelectAll]
    ensures req.verb == "POST" ==> o == HandlePost(req.body, store.exec) && |o.calls| == 1 && o.calls[0].Insert?
    ensures req.verb == "PUT" ==> o == Outcome(PlainText(PutNotImplemented), [])
    ensures req.verb == "DELETE" ==>
              o == HandleDelete(req.skuParam, store.exec)
              && (o.calls == [] <==> Falsy(FilterInput(req.skuParam)))
    ensures req.verb !in {"GET", "POST", "PUT", "DELETE"} ==> o == Outcome(Silent, [])
    ensures o.response.Envelope? && o.response.httpCode != 200 ==> req.verb == "POST" && store.exec.Threw?
  {
    match req.verb
    case "GET" => HandleGet(store.rows)
    case "POST" => HandlePost(req.body, store.exec)
    case "PUT" => Outcome(PlainText(PutNotImplemented), [])
    case "DELETE" => HandleDelete(req.skuParam, store.exec)
    case _ => Outcome(Silent, [])
  }
}
