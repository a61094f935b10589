/** The add-product form's client-side checks (src/components/ProductAdd.js):
    the `validate` function and the `numberRegex` input pattern. */
module ProductAdd {
  import opened Text

  /** The form's values; every input is a string, initially empty. */
  datatype FormValues = FormValues(
    sku: string, name: string, price: string, productType: string,
    size: string, height: string, width: string, length: string, weight: string)

  /** The message every failed check records. */
  const Required := "Required"

  /** `values[key]`, with a key the form does not have reading as "" (JavaScript's
      `undefined`, which is falsy like ""). */
  function Field(v: FormValues, key: string): string {
    match key
    case "sku" => v.sku
    case "name" => v.name
    case "price" => v.price
    case "productType" => v.productType
    case "size" => v.size
    case "height" => v.height
    case "width" => v.width
    case "length" => v.length
    case "weight" => v.weight
    case _ => ""
  }

  /** The fields the form demands for a product type: the four common ones and
      the type's own attributes; an unknown type adds none. */
  function RequiredFields(productType: string): set<string> {
    {"sku", "name", "price", "productType"}
    + (match productType
       case "DVD" => {"size"}
       case "Furniture" => {"height", "width", "length"}
       case "Book" => {"weight"}
       case _ => {})
  }

  /** Every recorded error is the message `Required`. */
  predicate AllRequired(errors: map<string, string>) {
    forall k :: k in errors ==> errors[k] == Required
  }

  /** `if (!values.key) errors.key = 'Required'`: a string is falsy only when empty. */
  function Check(errors: map<string, string>, value: string, key: string): (r: map<string, string>)
    requires AllRequired(errors)
    ensures AllRequired(r)
    ensures forall k :: k in r <==> k in errors || (k == key && value == "")
  {
    if value == "" then errors[key := Required] else errors
  }

  const CommonFields: set<string> := {"sku", "name", "price", "productType"}

  /** The checks every form gets, whatever its type. */
  function CommonErrors(v: FormValues): (errors: map<string, string>)
    ensures AllRequired(errors)
    ensures forall k :: k in errors <==> k in CommonFields && Field(v, k) == ""
  {
    Check(Check(Check(Check(map[], v.sku, "sku"), v.name, "name"), v.price, "price"),
          v.productType, "productType")
  }

  /** `validate`: the common checks, then the checks of the selected type. */
  function Validate(v: FormValues): (errors: map<string, string>)
    ensures forall k :: k in errors <==> k in RequiredFields(v.productType) && Field(v, k) == ""
    ensures AllRequired(errors)
  {
    var common := CommonErrors(v);
    match v.productType
    case "DVD" => Check(common, v.size, "size")
    case "Furniture" => Check(Check(Check(common, v.height, "height"), v.width, "width"), v.length, "length")
    case "Book" => Check(common, v.weight, "weight")
    case _ => common
  }

  /** No error at all exactly when every field the type demands is filled in. */
  lemma ValidateEmptyIffComplete(v: FormValues)
    ensures Validate(v) == map[] <==> forall k :: k in RequiredFields(v.productType) ==> Field(v, k) != ""
  {
    var errors := Validate(v);
    if errors != map[] {
      var k :| k in errors;
    }
  }

  /** An empty product type is reported and adds no type-specific check. */
  lemma EmptyTypeOnlyCommonChecks(v: FormValues)
    requires v.productType == ""
    ensures Validate(v).Keys == {"productType"} + (set k | k in {"sku", "name", "price"} && Field(v, k) == "")
  {
  }

  /** A type's own attributes are checked only for that type: a DVD form with
      every field empty except the common ones reports exactly `size`. */
  lemma DvdChecksOnlySize(sku: string, name: string, price: string)
    requires sku != "" && name != "" && price != ""
    ensures Validate(FormValues(sku, name, price, "DVD", "", "", "", "", "")) == map["size" := Required]
  {
    var errors := Validate(FormValues(sku, name, price, "DVD", "", "", "", "", ""));
    assert "size" in RequiredFields("DVD");
    assert errors.Keys == {"size"};
  }

  // ---------------------------------------------------------------- numberRegex

  /** The language of `([0-9]*[.])?[0-9]+` matched against a whole value: digits,
      optionally preceded by some digits and a dot. */
  predicate MatchesNumberPattern(s: string) {
    || (|s| > 0 && AllDigits(s))
    || exists k :: 0 <= k < |s| - 1 && s[k] == '.' && AllDigits(s[..k]) && AllDigits(s[k + 1..])
  }

  /** The index of the first '.', or |s| when there is none. */
  function DotIndex(s: string): (k: nat)
    ensures k <= |s|
    ensures k < |s| ==> s[k] == '.'
    ensures forall j :: 0 <= j < k ==> s[j] != '.'
  {
    if s == [] then 0
    else if s[0] == '.' then 0
    else 1 + DotIndex(s[1..])
  }

  /** A recogniser for the pattern: split at the first dot; digits before it
      and at least one digit after it, or a non-empty run of digits with no dot. */
  function NumberMatches(s: string): (ok: bool)
    ensures ok <==> MatchesNumberPattern(s)
  {
    var k := DotIndex(s);
    if k == |s| then
      |s| > 0 && AllDigits(s)
    else
      assert !AllDigits(s) by { assert !IsDigit(s[k]); }
      NumberMatchesAtDot(s, k);
      AllDigits(s[..k]) && k + 1 < |s| && AllDigits(s[k + 1..])
  }

  /** When the pattern's dot exists it is the first dot of the value. */
  lemma NumberMatchesAtDot(s: string, k: nat)
    requires k < |s| && s[k] == '.'
    requires forall j :: 0 <= j < k ==> s[j] != '.'
    ensures (exists d :: 0 <= d < |s| - 1 && s[d] == '.' && AllDigits(s[..d]) && AllDigits(s[d + 1..]))
            <==> (AllDigits(s[..k]) && k + 1 < |s| && AllDigits(s[k + 1..]))
  {
    if exists d :: 0 <= d < |s| - 1 && s[d] == '.' && AllDigits(s[..d]) && AllDigits(s[d + 1..]) {
      var d :| 0 <= d < |s| - 1 && s[d] == '.' && AllDigits(s[..d]) && AllDigits(s[d + 1..]);
      if d < k {
        assert s[d] != '.';
      } else if d > k {
        assert s[..d][k] == '.';
      }
    }
  }

  /** The pattern on the values the form's hints have in mind. */
  lemma NumberPatternExamples()
    ensures NumberMatches("700") && NumberMatches("0.5") && NumberMatches(".5")
    ensures !NumberMatches("") && !NumberMatches("5.") && !NumberMatches("1.2.3")
  {
    assert AllDigits("700");
    assert "0.5"[..1] == "0" && "0.5"[2..] == "5";
    assert ".5"[..0] == "" && ".5"[1..] == "5";
    assert DotIndex("5.") == 1;
    assert DotIndex("1.2.3") == 1 && "1.2.3"[2..] == "2.3";
    assert !IsDigit("2.3"[1]);
  }
}
