# Product shop — Dafny model

This project models the core of a small product shop. The shop has a PHP REST
endpoint over a `product` table and a React front end with an "add product"
form and a product list that supports mass deletion.

Each product is a Book (weight in KG), a piece of Furniture (height × width ×
length) or a DVD (size in MB).

The model covers five parts of the source:

- **`ProductModel`** (`ProductModel.dfy`): the product record, the three
  variants and their description templates, and the `createProduct` factory.
  The factory dispatches on the type name and throws for an unknown type.
- **`ProductSanitize`** (`ProductSanitize.dfy`): the POST-body sanitizer.
  - It covers the field table, the filter table and the `filter_var_array`
    semantics that `sanitize` relies on.
  - Those semantics are: output keys follow the declared fields, a missing
    field becomes null, an array value becomes false, and an unknown filter
    name falls back to the raw filter.
  - It also covers the recursive `array_trim`.
  - `Text.dfy` holds PHP's `trim` with its default character list.
- **`ProductApi`** (`ProductApi.dfy`): the request dispatch of `index.php`.
  - GET lists the products and builds each one through the factory.
  - POST sanitizes the body, binds nine columns and maps the insert outcome
    to a JSON envelope, with 409 for SQLSTATE 23000.
  - PUT is not implemented.
  - DELETE reads the `sku` query parameter through `filter_input`, refuses
    falsy values, and deletes by sku otherwise.
  - The database is a `Store`: the rows a SELECT returns and the outcome the
    next `execute` reports. Each handler returns its response and the
    statements it issued.
- **`ProductAdd`** (`ProductAdd.dfy`): the form's `validate` function, which
  picks the required fields by product type, and the `numberRegex` pattern.
  The pattern is given both as a reference predicate and as a scanning
  matcher.
- **`ProductList`** (`ProductList.dfy`): the checkbox toggle of the
  selection, and the mass delete. The mass delete is written as
  `forEach` + `splice` over the product list.

`Wrappers.dfy` (Option, Result) and `Sequences.dfy` (filter, subsequence,
no-duplicates) are shared helpers.

Attribute values are kept as rendered text. Form inputs are strings, a JSON
number in a POST body keeps its literal text (`Value.Num`), and the store's
rows are read as text. PHP's number-to-string conversion is not modelled.

## Model

| member | source | states |
|---|---|---|
| ProductModel.NewBook | api/product/ProductModel.php:103-106 | A book keeps sku, name, price, type and weight as given; size, height, width and length are 0 |
| ProductModel.NewFurniture | api/product/ProductModel.php:121-124 | Furniture keeps its three dimensions; size and weight are 0 |
| ProductModel.NewDvd | api/product/ProductModel.php:134-137 | A DVD keeps its size; the four other attributes are 0 |
| ProductModel.CreateProduct | api/product/ProductModel.php:150-162 | Succeeds exactly for the type names "Book", "Furniture" and "DVD". The variant follows the name, common fields pass through, and unused attributes are zero. The description is "Weight: wKG", "Dimensions: hxwxl" or "Size: s MB". Any other name fails with "Invalid product type: " followed by the name |
| ProductModel.CaseVariantsRejected | api/product/ProductModel.php:152-161 | The switch compares exactly: "book" and "Dvd" fail with the factory's message, and "FURNITURE" fails |
| ProductModel.DescriptionIgnoresUnused | api/product/ProductModel.php:150-161 | The attributes a variant does not use have no influence on the product built |
| ProductModel.DescriptionDeterminesAttribute | api/product/ProductModel.php:113-142 | Two books (or two DVDs) with the same description have the same weight (size) |
| ProductModel.DescriptionExamples | api/product/ProductModel.php:113-142 | Concrete descriptions for one product of each variant |
| Text.Trim | api/product/ProductSanitize.php:36 | The result has no leading or trailing space, tab, newline, carriage return, NUL or vertical tab, and is no longer than the input |
| Text.TrimSplit | api/product/ProductSanitize.php:36 | trim removes only a prefix and a suffix made of trim characters; the result is a contiguous slice of the input |
| Text.TrimStrips | api/product/ProductSanitize.php:36 | Trimming p + m + q, where p and q are all trim characters and m is already trimmed, gives m |
| Text.TrimIdempotent | api/product/ProductSanitize.php:36 | trim(trim(s)) == trim(s) |
| ProductSanitize.ProductFieldsTable | api/product/ProductSanitize.php:3-25 | The nine product fields, in column order and without duplicates, each name a filter type in the filter table. price, height, width, length and weight use the float filter with fractions allowed; size uses the int filter; sku, name and product_type use the full-special-chars filter |
| ProductSanitize.EscapeSpecialChars | api/product/ProductSanitize.php:16 | No raw `"`, `'`, `<` or `>` survives; text without special characters is unchanged; escaping never shortens |
| ProductSanitize.NumericFiltersOnlyDelete | api/product/ProductSanitize.php:17-24 | The number filters only delete characters; what remains is digits and signs (plus `.` for float); filtering twice equals filtering once |
| ProductSanitize.FilterScalar | api/product/ProductSanitize.php:59 | With a per-field filter a value fails exactly when it is an array |
| ProductSanitize.FilterField | api/product/ProductSanitize.php:56-59 | A missing field is null; an array is false; a scalar is the filtered text of its rendering |
| ProductSanitize.FilterFields | api/product/ProductSanitize.php:55-59 | The output has exactly the declared field names, in order, each filtered by the filter its type names |
| ProductSanitize.FilterEach | api/product/ProductSanitize.php:60-61 | The default-filter path keeps every input key, in order, and each value is the default filter applied throughout it: a scalar becomes its filtered rendering, an array is filtered recursively with its keys kept |
| ProductSanitize.TrimValue | api/product/ProductSanitize.php:34-41 | A string becomes trim of itself; an array becomes array_trim of its entries, with its keys kept; other values are unchanged. The result is trimmed throughout |
| ProductSanitize.ArrayTrim | api/product/ProductSanitize.php:32-42 | Keeps the keys, maps each value through the closure above, and leaves no untrimmed string at any depth |
| ProductSanitize.ArrayTrimFixpoint | api/product/ProductSanitize.php:32-42 | An array that is already trimmed throughout is returned unchanged |
| ProductSanitize.ArrayTrimIdempotent | api/product/ProductSanitize.php:32-42 | array_trim applied twice equals array_trim applied once |
| ProductSanitize.Sanitize | api/product/ProductSanitize.php:53-65 | The output keys are the declared fields when the field list is non-empty, and the input keys otherwise. Without trim it is the filter output itself. With trim each value is the filter result for its field (or input key) passed through the trim closure, so the output is trimmed throughout |
| ProductSanitize.SanitizeProductFields | api/product/ProductSanitize.php:53-64 | Sanitizing with the product field table yields, per field, null, false, or a trimmed string whose characters fit the field's filter type |
| ProductSanitize.SanitizeNotIdempotent | api/product/ProductSanitize.php:53-64 | Sanitizing twice differs from sanitizing once: a missing sku is null after one pass and "" after two |
| ProductApi.ListProducts | api/product/index.php:36-58 | Fails exactly when some row has an unknown type, with the factory's message for the first such row. Otherwise there is one item per row, in order, with sku, name, price and the description built by the factory |
| ProductApi.HandleGet | api/product/index.php:24-62 | Issues one SELECT; answers with the listing exactly when every row's type is known, and otherwise with an uncaught invalid-type exception |
| ProductApi.CreateResponse | api/product/index.php:87-106 | An insert reporting true gives status 1 "Record created successfully."; false gives status 0; SQLSTATE 23000 gives HTTP 409 with status 409 "Duplicate SKU supplied."; any other exception gives HTTP 500 with status 0, each both ways |
| ProductApi.HandlePost | api/product/index.php:64-108 | Exactly one INSERT with nine parameters, which are the sanitized values in column order; the response is the one the insert outcome determines |
| ProductApi.SanitizedKeysAreColumns | api/product/index.php:69-84 | After sanitizing, each bound parameter is the sanitized value of its own column |
| ProductApi.UnknownTypeCreatedButNotListable | api/product/index.php:36-93 | A POST whose product_type is the string t binds t escaped and trimmed, and is acknowledged whatever t is. If that stored type is unknown, once a row with it exists every later GET fails |
| ProductApi.PostBindsType | api/product/index.php:69-80 | The bound `:product_type` is the body's product_type string, escaped and trimmed |
| ProductApi.UnknownRowBreaksListing | api/product/index.php:36-47 | One row of an unknown type anywhere in the store makes the listing fail with an uncaught exception |
| ProductApi.FilterInput | api/product/index.php:117 | A missing parameter gives null, an array gives false, and a scalar gives its rendering with special characters escaped |
| ProductApi.DeleteResponse | api/product/index.php:131-139 | true gives status 1 "Record deleted successfully.", false gives status 0, and an exception escapes uncaught, each both ways |
| ProductApi.HandleDelete | api/product/index.php:115-140 | No statement is issued exactly when the filtered sku is falsy, and then the answer is status 0 "Invalid product ID: " with the sku. Otherwise one DELETE is issued with the escaped sku |
| ProductApi.DeleteRefusesExactly | api/product/index.php:117-124 | A DELETE is refused exactly for a missing sku, an array sku, "" and "0"; a blank sku " " reaches the store |
| ProductApi.Handle | api/product/index.php:23-141 | GET, POST and DELETE give exactly their handlers' outcomes; PUT answers the plain text "PUT not implemented yet"; another verb gives no output and no statement; at most one statement per request; a non-200 envelope comes only from a POST whose insert threw |
| ProductAdd.Check | src/components/ProductAdd.js:7-9 | A field is reported exactly when its value is empty |
| ProductAdd.CommonErrors | src/components/ProductAdd.js:7-22 | sku, name, price and productType are reported exactly when empty |
| ProductAdd.Validate | src/components/ProductAdd.js:4-54 | A field is reported exactly when it is required for the chosen type and empty. The required fields are the four common ones plus size (DVD), height/width/length (Furniture) or weight (Book) |
| ProductAdd.ValidateEmptyIffComplete | src/components/ProductAdd.js:4-54 | No errors exactly when every field required for the chosen type is filled |
| ProductAdd.EmptyTypeOnlyCommonChecks | src/components/ProductAdd.js:20-49 | With an empty product type, only productType and the empty common fields are reported |
| ProductAdd.DvdChecksOnlySize | src/components/ProductAdd.js:25-29 | For a DVD, empty furniture and book fields are not errors |
| ProductAdd.NumberMatches | src/components/ProductAdd.js:68 | The scanner accepts exactly what the pattern `([0-9]*[.])?[0-9]+` matches as a whole: optional digits, an optional dot, then at least one digit |
| ProductAdd.NumberPatternExamples | src/components/ProductAdd.js:68 | "700", "0.5" and ".5" match; "", "5." and "1.2.3" do not |
| ProductList.Toggle | src/components/ProductList.js:58-68 | An unselected sku is appended; a selected one loses its first occurrence and everything else stays in order |
| ProductList.ToggleFlips | src/components/ProductList.js:58-68 | On a duplicate-free selection, toggling flips the clicked sku's membership only and keeps the selection duplicate-free |
| ProductList.ToggleTwiceUnselected | src/components/ProductList.js:58-68 | Clicking an unselected sku twice restores the selection exactly |
| ProductList.ToggleTwiceRestoresSet | src/components/ProductList.js:58-68 | Clicking any sku twice on a duplicate-free selection restores the selected set |
| ProductList.ToggleTwiceWithDuplicate | src/components/ProductList.js:62-66 | A selection holding a sku twice loses both copies after two clicks, so the set is not restored |
| ProductList.HandleSelectProduct | src/components/ProductList.js:58-68 | Only the selection changes, and on a duplicate-free selection exactly the clicked sku's membership flips |
| ProductList.HandleMassDelete | src/components/ProductList.js:70-81 | The selection is kept. When skus are unique, the new list is the old one without the selected products, as an order-preserving subsequence: a product survives exactly when unselected |
| ProductList.DeleteSelectedUnique | src/components/ProductList.js:72-79 | With unique skus, the splice-while-iterating loop equals filtering out the selected skus |
| ProductList.SpliceUnique | src/components/ProductList.js:73-78 | With unique skus, one pass removes the single product with the given sku and keeps the rest in order |
| ProductList.MassDeleteWithDuplicateSku | src/components/ProductList.js:73-79 | With two adjacent products sharing a selected sku, the loop leaves the second one in the list |
| ProductList.InitialListUnique | src/components/ProductList.js:5-54 | The page's initial eight products have distinct skus, so a mass delete from that list removes exactly the selected products |

## Left out

- Database access (PDO connection, SQL text, prepare/bind/execute) is replaced by a `Store`: the rows a SELECT returns and the outcome the next statement reports. A failing SELECT and a failing connection are not modelled.
- HTTP transport is left out: CORS headers, `Content-Type`, `http_response_code`, reading `php://input`, and the JSON encoding of responses. A response is the data the endpoint would encode.
- The POST body is taken as an already-decoded key/value list. A body that does not decode to an object is not modelled. Nested JSON objects (which PHP decodes to objects, not arrays) are treated as arrays; under the per-field filters both fail the scalar requirement the same way.
- An uncaught exception is modelled as a distinct `Uncaught` response. The fatal-error text PHP prints and the HTTP status it is sent with (200, since `display_errors` is on) are not modelled.
- ProductSanitize.EscapeSpecialChars: escapes only `&`, `"`, `'`, `<` and `>`. PHP's full-special-chars filter encodes every character that has a named HTML entity, does not re-encode existing entities, and blanks invalid UTF-8. `sanitize` is not idempotent on any field in the code itself either; see the notes below.
- The number filters are modelled on characters only. PHP's flag handling is reduced to the allow-fraction flag the filter table uses; the thousand and scientific flags are not used by the source.
- Rendering of PHP scalars (booleans, numbers) to text is a fixed function: true is "1", false is "", and number literals keep their text. PHP's float formatting is not modelled.
- ProductAdd.Validate: an undefined form value is read as "", which the source also treats as missing. Formik wiring and the HTML `pattern` attribute (browsers skip it on empty fields) are React/browser behaviour and are left out. The submit handler sends nothing; it only shows an alert, which is not modelled.
- The React rendering of the list and `App.js` routing are left out. The list page's initial products are its hard-coded list (`ProductList.InitialProducts`); it issues no request.
- ProductApi.HandleGet: the row-to-description step reuses `ProductModel.CreateProduct`. The JSON field names of a listed item are not modelled.

## Notes on the code

- Blank skus on DELETE. The code refuses only falsy filtered skus: missing, array, "" or "0". A sku of spaces is not refused and is sent to the store (`ProductApi.DeleteRefusesExactly`), so the model follows the code. Likewise nothing in POST checks the product type: an unknown type is stored, and afterwards the whole listing fails (`ProductApi.UnknownTypeCreatedButNotListable`).
- Mass delete with a repeated sku. The mass delete removes elements with `splice` inside `forEach`, so after each removal the element that slides into the current index is skipped. The model keeps that behaviour. It proves the loop equals a plain filter whenever skus are unique (`ProductList.DeleteSelectedUnique`). The page's hard-coded initial list has unique skus (`ProductList.InitialListUnique`). It exhibits the skip on a list with a repeated sku (`ProductList.MassDeleteWithDuplicateSku`).
- `sanitize` is not idempotent. A field missing from the body comes out as null; a second pass finds the key present with a null value and turns it into "" (`ProductSanitize.SanitizeNotIdempotent`). So sanitizing an already sanitized bag can change it, on every field type.
