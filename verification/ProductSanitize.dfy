/** The input sanitizer (api/product/ProductSanitize.php): a declared
    field-to-type table, a type-to-filter table, PHP's `filter_var_array`
    driven by them, and the recursive `array_trim`. */
module ProductSanitize {
  import opened Wrappers
  import opened Text
  import Sequences

  /** A decoded PHP value. Numbers keep their rendered text; an array is an
      ordered list of key/value entries. */
  datatype Value = Null | Bool(b: bool) | Num(text: string) | Str(s: string) | Arr(items: seq<Entry>)
  datatype Entry = Entry(key: string, val: Value)

  /** The keys of an array, in order. */
  function Keys(items: seq<Entry>): (ks: seq<string>)
    ensures |ks| == |items| && forall i :: 0 <= i < |items| ==> ks[i] == items[i].key
  {
    seq(|items|, i requires 0 <= i < |items| => items[i].key)
  }

  /** `$items[$key]`, absent when no entry carries the key. */
  function Lookup(items: seq<Entry>, key: string): (r: Option<Value>)
    ensures r.None? <==> key !in Keys(items)
    ensures r.Some? ==> Entry(key, r.value) in items
  {
    if items == [] then None
    else if items[0].key == key then Some(items[0].val)
    else Lookup(items[1..], key)
  }

  /** PHP's conversion of a scalar to string, which every filter applies first. */
  function Render(v: Value): string {
    match v
    case Null => ""
    case Bool(b) => if b then "1" else ""
    case Num(t) => t
    case Str(s) => s
    case Arr(_) => "Array"
  }

  /** The PHP filters the sanitizer uses. `UnsafeRaw` is FILTER_DEFAULT, which
      PHP falls back to when an option entry names no filter. */
  datatype FilterId = FullSpecialChars | NumberInt | NumberFloat | UnsafeRaw

  /** A filter with its FILTER_FLAG_ALLOW_FRACTION flag. Every per-field filter
      also requires a scalar (FILTER_REQUIRE_SCALAR, explicit or implied). */
  datatype FilterSpec = FilterSpec(id: FilterId, allowFraction: bool)

  /** `$product_fields`: the product's field names and declared types, in order. */
  const ProductFields: seq<(string, string)> := [
    ("sku", "string"), ("name", "string"), ("price", "float"), ("product_type", "string"),
    ("size", "int"), ("height", "float"), ("width", "float"), ("length", "float"),
    ("weight", "float")]

  /** `FILTERS`: the filter for each declared type. */
  const Filters: map<string, FilterSpec> := map[
    "string" := FilterSpec(FullSpecialChars, false),
    "int" := FilterSpec(NumberInt, false),
    "float" := FilterSpec(NumberFloat, true)]

  /** `sanitize`'s default `$default_filter`. */
  const DefaultFilter := FilterSpec(FullSpecialChars, false)

  /** The field names of a field table, in order. */
  function FieldNames(fields: seq<(string, string)>): (ns: seq<string>)
    ensures |ns| == |fields| && forall i :: 0 <= i < |fields| ==> ns[i] == fields[i].0
  {
    seq(|fields|, i requires 0 <= i < |fields| => fields[i].0)
  }

  /** Characters HTML treats specially outside an entity. */
  predicate IsSpecial(c: char) {
    c == '&' || c == '"' || c == '\'' || c == '<' || c == '>'
  }

  function EscapeChar(c: char): string {
    if c == '&' then "&amp;"
    else if c == '"' then "&quot;"
    else if c == '\'' then "&#039;"
    else if c == '<' then "&lt;"
    else if c == '>' then "&gt;"
    else [c]
  }

  /** FILTER_SANITIZE_FULL_SPECIAL_CHARS, reduced to the five HTML-special
      characters: each becomes its entity, everything else is kept. */
  function EscapeSpecialChars(s: string): (r: string)
    ensures forall i :: 0 <= i < |r| ==> r[i] != '"' && r[i] != '\'' && r[i] != '<' && r[i] != '>'
    ensures (forall i :: 0 <= i < |s| ==> !IsSpecial(s[i])) ==> r == s
    ensures |r| >= |s|
  {
    if s == [] then [] else EscapeChar(s[0]) + EscapeSpecialChars(s[1..])
  }

  /** The characters FILTER_SANITIZE_NUMBER_INT keeps. */
  predicate IsIntChar(c: char) {
    IsDigit(c) || c == '+' || c == '-'
  }

  /** The characters FILTER_SANITIZE_NUMBER_FLOAT keeps, `.` only with the fraction flag. */
  predicate IsFloatChar(c: char, allowFraction: bool) {
    IsIntChar(c) || (allowFraction && c == '.')
  }

  /** A filter applied to the string form of a scalar. */
  function FilterString(spec: FilterSpec, s: string): string {
    match spec.id
    case FullSpecialChars => EscapeSpecialChars(s)
    case NumberInt => Sequences.Filter(s, IsIntChar)
    case NumberFloat => Sequences.Filter(s, c => IsFloatChar(c, spec.allowFraction))
    case UnsafeRaw => s
  }

  /** A filter that requires a scalar: an array fails (PHP's `false`), anything
      else is converted to string and filtered. */
  function FilterScalar(spec: FilterSpec, v: Value): (r: Option<string>)
    ensures r.None? <==> v.Arr?
  {
    if v.Arr? then None else Some(FilterString(spec, Render(v)))
  }

  /** `$filters[$type]`; a type missing from the table yields null, which PHP
      treats as FILTER_DEFAULT. */
  function FilterFor(filters: map<string, FilterSpec>, typeName: string): FilterSpec {
    if typeName in filters then filters[typeName] else FilterSpec(UnsafeRaw, false)
  }

  /** One output entry of `filter_var_array` with an options array: null for a
      missing input, false for a failed filter, the filtered string otherwise. */
  function FilterField(inputs: seq<Entry>, name: string, spec: FilterSpec): (r: Value)
    ensures name !in Keys(inputs) ==> r == Null
    ensures name in Keys(inputs) ==> (r == Bool(false) <==> Lookup(inputs, name).value.Arr?)
    ensures r.Str? ==> r.s == FilterString(spec, Render(Lookup(inputs, name).value))
    ensures name in Keys(inputs) && !Lookup(inputs, name).value.Arr? ==>
              r == Str(FilterString(spec, Render(Lookup(inputs, name).value)))
    ensures r.Null? || r == Bool(false) || r.Str?
  {
    match Lookup(inputs, name)
    case None => Null
    case Some(v) =>
      match FilterScalar(spec, v)
      case None => Bool(false)
      case Some(t) => Str(t)
  }

  /** `filter_var_array($inputs, $options)` with one option per declared field:
      the output has exactly the declared fields, in declaration order; input
      keys that are not declared are dropped. */
  function FilterFields(inputs: seq<Entry>, fields: seq<(string, string)>,
                        filters: map<string, FilterSpec>): (r: seq<Entry>)
    ensures Keys(r) == FieldNames(fields)
    ensures forall i :: 0 <= i < |fields| ==>
              r[i].val == FilterField(inputs, fields[i].0, FilterFor(filters, fields[i].1))
  {
    seq(|fields|, i requires 0 <= i < |fields| =>
      Entry(fields[i].0, FilterField(inputs, fields[i].0, FilterFor(filters, fields[i].1))))
  }

  /** `filter_var_array($inputs, $filter)` with a single filter: every scalar
      anywhere in the tree is filtered, arrays keep their keys. */
  function FilterValue(spec: FilterSpec, v: Value): (r: Value)
    ensures !v.Arr? ==> r == Str(FilterString(spec, Render(v)))
    ensures v.Arr? <==> r.Arr?
    ensures v.Arr? ==> Keys(r.items) == Keys(v.items)
    ensures v.Arr? ==> r.items == FilterEach(spec, v.items)
    decreases v, 1
  {
    match v
    case Arr(es) => Arr(FilterEach(spec, es))
    case _ => Str(FilterString(spec, Render(v)))
  }

  function FilterEach(spec: FilterSpec, items: seq<Entry>): (r: seq<Entry>)
    ensures Keys(r) == Keys(items)
    ensures forall i :: 0 <= i < |items| ==> r[i].val == FilterValue(spec, items[i].val)
    decreases Arr(items), 0
  {
    seq(|items|, i requires 0 <= i < |items| => Entry(items[i].key, FilterValue(spec, items[i].val)))
  }

  /** No string anywhere in the value has a leading or trailing trim character. */
  predicate TrimmedValue(v: Value)
    decreases v, 1
  {
    match v
    case Str(s) => Trimmed(s)
    case Arr(es) => TrimmedEntries(es)
    case _ => true
  }

  predicate TrimmedEntries(items: seq<Entry>)
    decreases Arr(items), 0
  {
    forall i :: 0 <= i < |items| ==> TrimmedValue(items[i].val)
  }

  /** The closure in `array_trim`: trims a string, recurses into an array and
      returns any other value as it is. */
  function TrimValue(v: Value): (r: Value)
    ensures TrimmedValue(r)
    ensures v.Str? <==> r.Str?
    ensures v.Arr? <==> r.Arr?
    ensures v.Arr? ==> Keys(r.items) == Keys(v.items)
    ensures !v.Str? && !v.Arr? ==> r == v
    ensures v.Str? ==> r == Str(Trim(v.s))
    ensures v.Arr? ==> r.items == ArrayTrim(v.items)
    decreases v, 1
  {
    match v
    case Str(s) => Str(Trim(s))
    case Arr(es) => Arr(ArrayTrim(es))
    case _ => v
  }

  /** `array_trim`: the same keys, in the same order, each value trimmed. */
  function ArrayTrim(items: seq<Entry>): (r: seq<Entry>)
    ensures Keys(r) == Keys(items)
    ensures TrimmedEntries(r)
    ensures forall i :: 0 <= i < |items| ==> r[i].val == TrimValue(items[i].val)
    decreases Arr(items), 0
  {
    seq(|items|, i requires 0 <= i < |items| => Entry(items[i].key, TrimValue(items[i].val)))
  }

  /** `sanitize($inputs, $fields, $default_filter, $filters, $trim)`. */
  function Sanitize(inputs: seq<Entry>, fields: seq<(string, string)>, defaultFilter: FilterSpec,
                    filters: map<string, FilterSpec>, trim: bool): (r: seq<Entry>)
    ensures |fields| > 0 ==> Keys(r) == FieldNames(fields)
    ensures |fields| == 0 ==> Keys(r) == Keys(inputs)
    ensures trim ==> TrimmedEntries(r)
    ensures !trim && |fields| > 0 ==> r == FilterFields(inputs, fields, filters)
    ensures !trim && |fields| == 0 ==> r == FilterEach(defaultFilter, inputs)
    ensures trim && |fields| > 0 ==>
              forall i :: 0 <= i < |fields| ==>
                r[i].val == TrimValue(FilterField(inputs, fields[i].0, FilterFor(filters, fields[i].1)))
    ensures trim && |fields| == 0 ==>
              forall i :: 0 <= i < |inputs| ==> r[i].val == TrimValue(FilterValue(defaultFilter, inputs[i].val))
  {
    var data := if |fields| > 0 then FilterFields(inputs, fields, filters)
                else FilterEach(defaultFilter, inputs);
    if trim then ArrayTrim(data) else data
  }

  /** A value that is already trimmed everywhere is left alone by `TrimValue`. */
  lemma {:induction false} TrimValueFixpoint(v: Value)
    requires TrimmedValue(v)
    ensures TrimValue(v) == v
    decreases v, 1
  {
    match v
    case Str(s) =>
      assert [] + s + [] == s;
      TrimStrips([], s, []);
    case Arr(es) =>
      ArrayTrimFixpoint(es);
    case _ =>
  }

  lemma {:induction false} ArrayTrimFixpoint(items: seq<Entry>)
    requires TrimmedEntries(items)
    ensures ArrayTrim(items) == items
    decreases Arr(items), 0
  {
    forall i | 0 <= i < |items|
      ensures ArrayTrim(items)[i] == items[i]
    {
      TrimValueFixpoint(items[i].val);
    }
  }

  /** `array_trim` is idempotent. */
  lemma ArrayTrimIdempotent(items: seq<Entry>)
    ensures ArrayTrim(ArrayTrim(items)) == ArrayTrim(items)
  {
    ArrayTrimFixpoint(ArrayTrim(items));
  }

  /** `$product_fields` declares exactly nine distinct fields, and every type it
      uses has an entry in `FILTERS`, so `$filters[$field]` never misses. */
  lemma ProductFieldsTable()
    ensures FieldNames(ProductFields)
            == ["sku", "name", "price", "product_type", "size", "height", "width", "length", "weight"]
    ensures Sequences.NoDup(FieldNames(ProductFields))
    ensures forall i :: 0 <= i < |ProductFields| ==> ProductFields[i].1 in Filters
    ensures forall i :: 0 <= i < |ProductFields| ==>
              (ProductFields[i].1 == "string" <==> i in {0, 1, 3})
              && (ProductFields[i].1 == "int" <==> i == 4)
              && (ProductFields[i].1 == "float" <==> i in {2, 5, 6, 7, 8})
    ensures Filters["string"] == FilterSpec(FullSpecialChars, false)
    ensures Filters["int"] == FilterSpec(NumberInt, false)
    ensures Filters["float"] == FilterSpec(NumberFloat, true)
  {
  }

  /** `sanitize` is not idempotent: a missing field comes out as null, and a
      second pass finds the key present and turns that null into "". */
  lemma SanitizeNotIdempotent()
    ensures Sanitize([], ProductFields, DefaultFilter, Filters, true)[0].val == Null
    ensures Sanitize(Sanitize([], ProductFields, DefaultFilter, Filters, true),
                     ProductFields, DefaultFilter, Filters, true)[0].val == Str("")
  {
    var once := Sanitize([], ProductFields, DefaultFilter, Filters, true);
    assert ProductFields[0] == ("sku", "string");
    assert once[0] == Entry("sku", Null);
    assert Lookup(once, "sku") == Some(Null);
  }

  /** The numeric filters only delete characters: the output is a subsequence
      of the input made of the characters the filter keeps, and filtering it
      again changes nothing. */
  lemma NumericFiltersOnlyDelete(spec: FilterSpec, s: string)
    requires spec.id == NumberInt || spec.id == NumberFloat
    ensures Sequences.IsSubsequence(FilterString(spec, s), s)
    ensures forall i :: 0 <= i < |FilterString(spec, s)| ==>
              IsFloatChar(FilterString(spec, s)[i], spec.allowFraction)
    ensures spec.id == NumberInt ==>
              forall i :: 0 <= i < |FilterString(spec, s)| ==> IsIntChar(FilterString(spec, s)[i])
    ensures FilterString(spec, FilterString(spec, s)) == FilterString(spec, s)
  {
    if spec.id == NumberInt {
      Sequences.FilterIsSubsequence(s, IsIntChar);
      Sequences.FilterIdempotent(s, IsIntChar);
    } else {
      var keep := c => IsFloatChar(c, spec.allowFraction);
      Sequences.FilterIsSubsequence(s, keep);
      Sequences.FilterIdempotent(s, keep);
    }
  }

  /** The characters a sanitized field of the declared type may hold: no raw
      quote or angle bracket for strings, digits and signs for ints, digits,
      signs and dots for floats. */
  predicate CharsFit(s: string, typeName: string) {
    forall k :: 0 <= k < |s| ==>
      && (typeName == "string" ==> s[k] != '"' && s[k] != '\'' && s[k] != '<' && s[k] != '>')
      && (typeName == "int" ==> IsIntChar(s[k]))
      && (typeName == "float" ==> IsFloatChar(s[k], true))
  }

  /** A sanitized product field: absent (null), failed (false), or a trimmed
      string of the characters its type allows. */
  predicate FieldShape(v: Value, typeName: string) {
    v.Null? || v == Bool(false) || (v.Str? && Trimmed(v.s) && CharsFit(v.s, typeName))
  }

  /** Each type's filter produces only the characters that type allows. */
  lemma FilterFits(typeName: string, s: string)
    requires typeName in Filters
    ensures CharsFit(FilterString(Filters[typeName], s), typeName)
  {
    if typeName != "string" {
      NumericFiltersOnlyDelete(Filters[typeName], s);
    }
  }

  /** Trimming keeps a string within its allowed characters. */
  lemma TrimFits(s: string, typeName: string)
    requires CharsFit(s, typeName)
    ensures CharsFit(Trim(s), typeName)
  {
    TrimChars(s);
  }

  /** One declared field, filtered by its type's filter and trimmed. */
  lemma SanitizedFieldShape(inputs: seq<Entry>, name: string, typeName: string)
    requires typeName in Filters
    ensures FieldShape(TrimValue(FilterField(inputs, name, Filters[typeName])), typeName)
  {
    var v := FilterField(inputs, name, Filters[typeName]);
    if v.Str? {
      FilterFits(typeName, Render(Lookup(inputs, name).value));
      TrimFits(v.s, typeName);
    }
  }

  /** What `sanitize($inputs, $product_fields)` hands to the insert: the nine
      declared fields in declaration order, each of the shape its type allows. */
  lemma SanitizeProductFields(inputs: seq<Entry>)
    ensures var r := Sanitize(inputs, ProductFields, DefaultFilter, Filters, true);
      && Keys(r) == FieldNames(ProductFields)
      && forall i :: 0 <= i < |r| ==> FieldShape(r[i].val, ProductFields[i].1)
  {
    var data := FilterFields(inputs, ProductFields, Filters);
    var r := Sanitize(inputs, ProductFields, DefaultFilter, Filters, true);
    ProductFieldsTable();
    forall i | 0 <= i < |r|
      ensures FieldShape(r[i].val, ProductFields[i].1)
    {
      assert r[i].val == TrimValue(data[i].val);
      SanitizedFieldShape(inputs, ProductFields[i].0, ProductFields[i].1);
    }
  }
}
