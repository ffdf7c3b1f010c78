/** The catalog normaliser of `get_models.js`: the parsed response is flattened
    into raw model records, records whose lower-cased `id` names one of three
    providers are kept, and each kept record is normalised into a flat record.
    Any exception after the fetch makes the whole result empty.

    `JSON.parse` is the parameter `parse`: `None` means it threw. The fetch
    itself is the abstract outcome `FetchOutcome`. */
module Catalog {
  import opened Wrappers
  import opened JsStrings
  import opened JsValues

  // ---------------------------------------------------------------------------
  // Response shape
  // ---------------------------------------------------------------------------

  /** The raw records of a parsed response: its `data` array; else its truthy
      `data` as a single record; else the response itself when it is an array;
      else the response as a single record. Reading `data` of a `null` response
      throws. */
  function Flatten(json: Json): Option<seq<Json>> {
    var data :- Get(json, "data");
    if data.Some? && data.value.JArr? then Some(data.value.elems)
    else if Truthy(data) then Some([data.value])
    else if json.JArr? then Some(json.elems)
    else Some([json])
  }

  /** The four response shapes, and the one response that throws. */
  lemma FlattenShapes(json: Json)
    ensures Flatten(json).None? <==> json.JNull?
    ensures json.JObj? && "data" in json.fields && json.fields["data"].JArr?
            ==> Flatten(json) == Some(json.fields["data"].elems)
    ensures json.JObj? && "data" in json.fields && !json.fields["data"].JArr?
            && Truthy(Some(json.fields["data"]))
            ==> Flatten(json) == Some([json.fields["data"]])
    ensures json.JArr? ==> Flatten(json) == Some(json.elems)
    ensures !json.JNull? && !json.JArr? && !(json.JObj? && Truthy(Field(json.fields, "data")))
            ==> Flatten(json) == Some([json])
  {
  }

  /** A record list reads back unchanged whether it arrives wrapped in a `data`
      envelope or bare. */
  lemma FlattenRecordList(records: seq<Json>, envelope: map<string, Json>)
    ensures Flatten(JObj(envelope["data" := JArr(records)])) == Some(records)
    ensures Flatten(JArr(records)) == Some(records)
  {
  }

  // ---------------------------------------------------------------------------
  // Provider filter
  // ---------------------------------------------------------------------------

  /** A record whose `id` is a string; for any other record the filter's
      `model.id.toLowerCase()` throws. */
  predicate HasStringId(model: Json) {
    model.JObj? && "id" in model.fields && model.fields["id"].JStr?
  }

  function Id(model: Json): string
    requires HasStringId(model)
  {
    model.fields["id"].s
  }

  /** The filter's test on an identifier: its lower case contains one of the
      provider names. */
  predicate ProviderMatch(id: string) {
    var lower := ToLower(id);
    Includes(lower, "openai") || Includes(lower, "google") || Includes(lower, "anthropic")
  }

  /** The records the filter keeps. */
  predicate Kept(model: Json) {
    HasStringId(model) && ProviderMatch(Id(model))
  }

  /** `a` is `b` with some elements dropped, the rest in their order. */
  ghost predicate IsSubsequence<T>(a: seq<T>, b: seq<T>)
    decreases |b|
  {
    if b == [] then a == []
    else IsSubsequence(a, b[1..]) || (a != [] && a[0] == b[0] && IsSubsequence(a[1..], b[1..]))
  }

  /** `rawData.filter(...)`: fails when any record lacks a string `id`;
      otherwise keeps records that match a provider (see `FilterOrder` and
      `FilterCounts` for which ones, and in what order). */
  function FilterProviders(raw: seq<Json>): (r: Option<seq<Json>>)
    ensures r.Some? <==> forall k :: 0 <= k < |raw| ==> HasStringId(raw[k])
    ensures r.Some? ==> forall k :: 0 <= k < |r.value| ==> Kept(r.value[k])
    decreases |raw|
  {
    if raw == [] then Some([])
    else if !HasStringId(raw[0]) then None
    else
      var rest :- FilterProviders(raw[1..]);
      if ProviderMatch(Id(raw[0])) then
        var r := [raw[0]] + rest;
        assert r[0] == raw[0] && r[1..] == rest;
        Some(r)
      else Some(rest)
  }

  /** The filter keeps the input's order: its result is the input with some
      records dropped. */
  lemma {:induction false} FilterOrder(raw: seq<Json>)
    requires FilterProviders(raw).Some?
    ensures IsSubsequence(FilterProviders(raw).value, raw)
    decreases |raw|
  {
    if raw != [] {
      FilterOrder(raw[1..]);
      var rest := FilterProviders(raw[1..]).value;
      if ProviderMatch(Id(raw[0])) {
        var r := [raw[0]] + rest;
        assert r[0] == raw[0] && r[1..] == rest;
      }
    }
  }

  /** The filter keeps every occurrence of a record that matches a provider and
      none of one that does not. */
  lemma {:induction false} FilterCounts(raw: seq<Json>)
    requires FilterProviders(raw).Some?
    ensures forall x :: multiset(FilterProviders(raw).value)[x] == if Kept(x) then multiset(raw)[x] else 0
    decreases |raw|
  {
    if raw != [] {
      FilterCounts(raw[1..]);
      assert raw == [raw[0]] + raw[1..];
    }
  }

  /** A record appears in the filtered list exactly when it appears in the input
      and is kept. */
  lemma FilterMembership(raw: seq<Json>, x: Json)
    requires FilterProviders(raw).Some?
    ensures x in FilterProviders(raw).value <==> x in raw && Kept(x)
  {
    FilterCounts(raw);
    var r := FilterProviders(raw).value;
    assert x in r <==> multiset(r)[x] > 0;
    assert x in raw <==> multiset(raw)[x] > 0;
  }

  /** Filtering a filtered list changes nothing. */
  lemma {:induction false} FilterIdempotent(raw: seq<Json>)
    requires FilterProviders(raw).Some?
    ensures FilterProviders(FilterProviders(raw).value) == FilterProviders(raw)
    decreases |raw|
  {
    if raw != [] {
      FilterIdempotent(raw[1..]);
      var rest := FilterProviders(raw[1..]).value;
      if ProviderMatch(Id(raw[0])) {
        var r := [raw[0]] + rest;
        assert r[1..] == rest;
      }
    }
  }

  /** Upper or lower case, a provider name anywhere in the identifier keeps the
      record. */
  lemma ProviderInId(before: string, provider: string, after: string)
    requires ToLower(provider) in ["openai", "google", "anthropic"]
    ensures ProviderMatch(before + provider + after)
  {
    var lower := ToLower(before + provider + after);
    ToLowerAppend(before + provider, after);
    ToLowerAppend(before, provider);
    var p := ToLower(provider);
    var i := |ToLower(before)|;
    assert lower == ToLower(before) + p + ToLower(after);
    assert lower[i..i + |p|] == p;
    assert OccursAt(lower, p, i);
  }

  lemma ProviderKeptExample()
    ensures ProviderMatch("OpenAI/gpt-4")
  {
    assert ToLower("OpenAI") == "openai";
    assert "OpenAI/gpt-4" == "" + "OpenAI" + "/gpt-4";
    ProviderInId("", "OpenAI", "/gpt-4");
  }

  /** An identifier with no letter "o" in any case names none of the providers. */
  lemma ProviderAbsent(id: string)
    requires 'o' !in id && 'O' !in id
    ensures !ProviderMatch(id)
  {
    var lower := ToLower(id);
    forall k | 0 <= k < |lower| ensures lower[k] != 'o' {
      LowerHasNoO(id, k);
    }
    AbsentCharNotContained(lower, "openai", 'o');
    AbsentCharNotContained(lower, "google", 'o');
    AbsentCharNotContained(lower, "anthropic", 'o');
  }

  lemma {:induction false} LowerHasNoO(s: string, k: nat)
    requires 'o' !in s && 'O' !in s
    requires k < |ToLower(s)|
    ensures ToLower(s)[k] != 'o'
    decreases |s|
  {
    var head := LowerChar(s[0]);
    if k >= |head| {
      LowerHasNoO(s[1..], k - |head|);
    }
  }

  lemma ProviderDroppedExample()
    ensures !ProviderMatch("mistral/large")
  {
    ProviderAbsent("mistral/large");
  }

  // ---------------------------------------------------------------------------
  // Nested fields: pricing, architecture, top_provider
  // ---------------------------------------------------------------------------

  /** What an upstream `String(object)` leaves in an encoded field, and what
      replaces it before parsing. */
  const ObjectMarker: string := "[object Object]"
  const EmptyObjectText: string := "{}"

  /** A nested field as the `typeof` tests see it: an object (which includes
      arrays and `null`), a string to be parsed, or anything else, which is
      treated as absent. */
  datatype NestedField = Structured(value: Json) | Encoded(text: string) | Absent

  function Classify(v: Option<Json>): (f: NestedField)
    ensures f.Structured? ==> v == Some(f.value) && (f.value.JObj? || f.value.JArr? || f.value.JNull?)
    ensures f.Encoded? ==> v == Some(JStr(f.text))
    ensures f.Absent? <==> v.None? || v.value.JNum? || v.value.JBool?
  {
    match v
    case None => Absent
    case Some(j) =>
      if j.JObj? || j.JArr? || j.JNull? then Structured(j)
      else if j.JStr? then Encoded(j.s)
      else Absent
  }

  /** The value a nested field stands for; `None` when parsing throws. */
  function Resolve(field: NestedField, default: Json, parse: string -> Option<Json>): Option<Json> {
    match field
    case Structured(v) => Some(v)
    case Encoded(text) => parse(ReplaceFirst(text, ObjectMarker, EmptyObjectText))
    case Absent => Some(default)
  }

  const DefaultPricing: Json :=
    JObj(map["prompt" := JNum(0), "completion" := JNum(0), "image" := JNum(0), "request" := JNum(0)])
  const DefaultArchitecture: Json :=
    JObj(map["input_modalities" := JArr([]), "output_modalities" := JArr([]), "tokenizer" := JStr("")])
  const DefaultTopProvider: Json :=
    JObj(map["is_moderated" := JBool(false)])

  /** An encoded field that is the marker and nothing else reads as an empty
      object, given a parser that reads "{}" as one. */
  lemma EncodedMarkerIsEmptyObject(default: Json, parse: string -> Option<Json>)
    requires parse(EmptyObjectText) == Some(JObj(map[]))
    ensures Resolve(Encoded(ObjectMarker), default, parse) == Some(JObj(map[]))
  {
    ReplaceLeading(ObjectMarker, EmptyObjectText, "");
    assert ObjectMarker + "" == ObjectMarker;
    assert EmptyObjectText + "" == EmptyObjectText;
  }

  /** Only the first marker is repaired: the text after a leading marker,
      whatever further markers it holds, reaches the parser unchanged. */
  lemma EncodedFirstMarkerOnly(rest: string, default: Json, parse: string -> Option<Json>)
    ensures Resolve(Encoded(ObjectMarker + rest), default, parse) == parse(EmptyObjectText + rest)
  {
    ReplaceLeading(ObjectMarker, EmptyObjectText, rest);
  }

  /** Text without the marker is parsed as it is. */
  lemma EncodedWithoutMarker(text: string, default: Json, parse: string -> Option<Json>)
    requires !Contains(text, ObjectMarker)
    ensures Resolve(Encoded(text), default, parse) == parse(text)
  {
  }

  // ---------------------------------------------------------------------------
  // Supported parameters
  // ---------------------------------------------------------------------------

  /** `supported_parameters`: an array as it is; a string split on commas with
      each piece trimmed; anything else none. */
  function SupportedParams(v: Option<Json>): seq<Json> {
    match v
    case Some(JArr(es)) => es
    case Some(JStr(s)) =>
      var pieces := Split(s, ',');
      seq(|pieces|, k requires 0 <= k < |pieces| => JStr(Trim(pieces[k])))
    case _ => []
  }

  /** The function-calling flag over a parameter list. */
  predicate SupportsFunctions(params: seq<Json>) {
    JStr("tools") in params || JStr("tool_choice") in params
  }

  /** A comma-separated string yields one parameter per piece, in order, each a
      string without commas and without surrounding white space. */
  lemma ParamsOfString(s: string)
    ensures |SupportedParams(Some(JStr(s)))| == |Split(s, ',')|
    ensures forall k :: 0 <= k < |Split(s, ',')| ==>
              SupportedParams(Some(JStr(s)))[k] == JStr(Trim(Split(s, ',')[k]))
    ensures forall k :: 0 <= k < |SupportedParams(Some(JStr(s)))| ==>
              TrimmedPiece(SupportedParams(Some(JStr(s)))[k])
  {
    var pieces := Split(s, ',');
    forall k | 0 <= k < |pieces|
      ensures TrimmedPiece(JStr(Trim(pieces[k])))
    {
      TrimSlice(pieces[k]);
    }
  }

  /** A parameter read from a string: no comma, no white space at its ends. */
  predicate TrimmedPiece(p: Json) {
    p.JStr? && ',' !in p.s && (p.s == "" || (!IsWhiteSpace(p.s[0]) && !IsWhiteSpace(p.s[|p.s| - 1])))
  }

  /** The piece before the first comma heads the split. */
  lemma SplitHead(piece: string, after: string)
    requires ',' !in piece
    requires after == "" || after[0] == ','
    ensures Split(piece + after, ',')[0] == piece
  {
    var s := piece + after;
    assert s[..|piece|] == piece;
    FindCharAt(s, ',', |piece|);
  }

  /** A piece delimited by commas, or by either end of the string, is one of
      the pieces of the split. */
  lemma SplitFindsPiece(before: string, piece: string, after: string) returns (at: nat)
    requires before == "" || before[|before| - 1] == ','
    requires after == "" || after[0] == ','
    requires ',' !in piece
    ensures at < |Split(before + piece + after, ',')|
    ensures Split(before + piece + after, ',')[at] == piece
  {
    if before == "" {
      assert before + piece + after == piece + after;
      SplitHead(piece, after);
      at := 0;
    } else {
      var b := before[..|before| - 1];
      assert before + piece + after == b + [','] + (piece + after);
      at := SplitFindsPieceAfter(b, piece, after);
    }
  }

  /** The piece right after a comma follows the pieces before the comma. */
  lemma SplitFindsPieceAfter(b: string, piece: string, after: string) returns (at: nat)
    requires after == "" || after[0] == ','
    requires ',' !in piece
    ensures at < |Split(b + [','] + (piece + after), ',')|
    ensures Split(b + [','] + (piece + after), ',')[at] == piece
  {
    SplitHead(piece, after);
    SplitAfterComma(b, piece + after);
    at := |Split(b, ',')|;
  }

  /** The pieces after a comma follow the pieces before it. */
  lemma SplitAfterComma(b: string, rest: string)
    ensures |Split(b, ',')| < |Split(b + [','] + rest, ',')|
    ensures Split(b + [','] + rest, ',')[|Split(b, ',')|] == Split(rest, ',')[0]
  {
    SplitAppend(b, rest, ',');
  }

  /** White space holds no comma. */
  lemma PaddedHasNoComma(pre: string, name: string, post: string)
    requires AllWhiteSpace(pre) && AllWhiteSpace(post) && ',' !in name
    ensures ',' !in pre + name + post
  {
    assert forall k :: 0 <= k < |pre| ==> pre[k] != ',';
    assert forall k :: 0 <= k < |post| ==> post[k] != ',';
  }

  /** A parameter name listed between commas (or at either end of the string),
      with white space around it, is among the parameters. */
  lemma ParamListed(before: string, pre: string, name: string, post: string, after: string)
    requires before == "" || before[|before| - 1] == ','
    requires after == "" || after[0] == ','
    requires AllWhiteSpace(pre) && AllWhiteSpace(post)
    requires name != "" && !IsWhiteSpace(name[0]) && !IsWhiteSpace(name[|name| - 1]) && ',' !in name
    ensures JStr(name) in SupportedParams(Some(JStr(before + (pre + name + post) + after)))
  {
    var piece := pre + name + post;
    var s := before + piece + after;
    PaddedHasNoComma(pre, name, post);
    var at := SplitFindsPiece(before, piece, after);
    TrimAround(pre, name, post);
    ParamsOfString(s);
    assert SupportedParams(Some(JStr(s)))[at] == JStr(name);
  }

  /** "tools" after other comma-separated parameters and a space, as in
      "temperature, tools", turns the flag on. */
  lemma ToolsAfterSpace(others: string)
    requires others == "" || others[|others| - 1] == ','
    ensures SupportsFunctions(SupportedParams(Some(JStr(others + " tools"))))
  {
    assert others + " tools" == others + (" " + "tools" + "") + "";
    ParamListed(others, " ", "tools", "", "");
  }

  /** An absent or non-list, non-string value supports nothing; a list is
      searched as it is. */
  lemma SupportsFunctionsExamples()
    ensures !SupportsFunctions(SupportedParams(None))
    ensures !SupportsFunctions(SupportedParams(Some(JNum(1))))
    ensures !SupportsFunctions(SupportedParams(Some(JObj(map["tools" := JBool(true)]))))
    ensures SupportsFunctions(SupportedParams(Some(JArr([JStr("tool_choice")]))))
    ensures !SupportsFunctions(SupportedParams(Some(JArr([JStr(" tools")]))))
  {
  }

  /** Any value that is neither an array nor a string, and a missing one,
      gives no parameters and so no function calling. */
  lemma NoParametersOtherwise(v: Option<Json>)
    requires v.None? || !(v.value.JArr? || v.value.JStr?)
    ensures SupportedParams(v) == []
    ensures !SupportsFunctions(SupportedParams(v))
  {
  }

  // ---------------------------------------------------------------------------
  // Context length
  // ---------------------------------------------------------------------------

  /** `Number(model.context_length) || 0`; `None` when the conversion throws. */
  function ContextLength(v: Option<Json>): Option<int> {
    NumberOrZero(v)
  }

  /** The bucket of a context length; every comparison is a strict `<`. */
  function Category(n: int): string {
    if n < 8000 then "Small (<8K)"
    else if n < 32000 then "Medium (8K-32K)"
    else if n < 100000 then "Large (32K-100K)"
    else if n < 200000 then "Large (100K-200K)"
    else "Very Large (>200K)"
  }

  /** The variable's initial value, which no context length keeps. */
  const UnknownCategory: string := "Unknown"

  /** The buckets in order, and the lower bounds of all but the first. */
  const CategoryLabels: seq<string> :=
    ["Small (<8K)", "Medium (8K-32K)", "Large (32K-100K)", "Large (100K-200K)", "Very Large (>200K)"]
  const CategoryBounds: seq<int> := [8000, 32000, 100000, 200000]

  /** A context length lands in bucket `i` exactly when it is at least the
      bucket's lower bound and below the next bucket's. */
  lemma CategorySpec(n: int, i: nat)
    requires i < |CategoryLabels|
    ensures Category(n) == CategoryLabels[i]
            <==> (i == 0 || CategoryBounds[i - 1] <= n) && (i == |CategoryBounds| || n < CategoryBounds[i])
  {
  }

  /** Every context length gets one of the five buckets, never "Unknown". */
  lemma CategoryTotal(n: int)
    ensures Category(n) in CategoryLabels
    ensures Category(n) != UnknownCategory
  {
  }

  /** A bound belongs to the bucket above it. */
  lemma CategoryBoundaries()
    ensures Category(7999) == "Small (<8K)" && Category(8000) == "Medium (8K-32K)"
    ensures Category(31999) == "Medium (8K-32K)" && Category(32000) == "Large (32K-100K)"
    ensures Category(99999) == "Large (32K-100K)" && Category(100000) == "Large (100K-200K)"
    ensures Category(199999) == "Large (100K-200K)" && Category(200000) == "Very Large (>200K)"
  {
  }

  /** A missing or non-numeric context length is 0, in the smallest bucket:
      an object without a `toString` key, or a list of several values none of
      which throws. */
  lemma ContextLengthFallback(v: Option<Json>)
    requires || v.None?
             || (v.Some? && v.value.JObj? && "toString" !in v.value.fields)
             || (v.Some? && v.value.JArr? && |v.value.elems| > 1 && !ToPrimitiveThrows(v.value))
    ensures ContextLength(v) == Some(0)
    ensures Category(ContextLength(v).value) == "Small (<8K)"
  {
  }

  /** A non-numeric string, such as "128k", is 0 too. */
  lemma ContextLengthNonNumeric(s: string, k: nat)
    requires k < |s| && !IsWhiteSpace(s[k]) && !IsNumeralChar(s[k])
    ensures ContextLength(Some(JStr(s))) == Some(0)
    ensures Category(ContextLength(Some(JStr(s))).value) == "Small (<8K)"
  {
    NotANumber(s, k);
  }

  /** A context length sent as a decimal string reads as its number. */
  lemma ContextLengthNumeral(n: nat)
    ensures ContextLength(Some(JStr(DecimalString(n)))) == Some(n)
  {
    var d := DecimalString(n);
    TrimUnchanged(d);
    NumeralOfDecimal(n);
    assert StringToNumber(d) == Some(n);
  }

  // ---------------------------------------------------------------------------
  // The normalised record
  // ---------------------------------------------------------------------------

  /** The four prices, each as the value handed to `parseFloat` (`x || 0`). */
  datatype Prices = Prices(prompt: Json, completion: Json, image: Json, request: Json)

  datatype NormalizedModel = NormalizedModel(
    id: string,
    name: Option<Json>,
    created: Option<Json>,
    description: Option<Json>,
    huggingFaceId: Json,
    contextLength: int,
    contextLengthCategory: string,
    prices: Prices,
    inputModalities: Json,
    outputModalities: Json,
    tokenizer: Json,
    isModerated: Json,
    free: bool,
    isMultimodal: bool,
    supportsFunctions: bool)

  /** The resolved value of nested field `key`, defaulting to `default`. */
  function Nested(model: Json, key: string, default: Json, parse: string -> Option<Json>): Option<Json>
    requires model.JObj?
  {
    Resolve(Classify(Field(model.fields, key)), default, parse)
  }

  /** Nested field `key` resolves to a value whose properties can be read:
      it parses, and it is not `null`. */
  predicate NestedReadable(model: Json, key: string, default: Json, parse: string -> Option<Json>)
    requires model.JObj?
  {
    var v := Nested(model, key, default, parse);
    v.Some? && !v.value.JNull?
  }

  /** The four values handed to `parseFloat`, each `pricing.x || 0`. */
  function PricesOf(pricing: Json): Prices
    requires !pricing.JNull?
  {
    Prices(OrElse(Property(pricing, "prompt"), JNum(0)),
           OrElse(Property(pricing, "completion"), JNum(0)),
           OrElse(Property(pricing, "image"), JNum(0)),
           OrElse(Property(pricing, "request"), JNum(0)))
  }

  /** `parseFloat` converts each price to a string first; that conversion
      throws on the values `ToPrimitiveThrows` names. */
  predicate PricesConvert(p: Prices) {
    && !ToPrimitiveThrows(p.prompt) && !ToPrimitiveThrows(p.completion)
    && !ToPrimitiveThrows(p.image) && !ToPrimitiveThrows(p.request)
  }

  /** The `map` callback on one kept record. It throws exactly when a nested
      field does not parse or is `null`, when `Number(context_length)`
      throws, or when `parseFloat` throws on a price. */
  function NormalizeRecord(model: Json, parse: string -> Option<Json>): (r: Option<NormalizedModel>)
    requires HasStringId(model)
    ensures r.Some? <==> NestedReadable(model, "pricing", DefaultPricing, parse)
                         && NestedReadable(model, "architecture", DefaultArchitecture, parse)
                         && NestedReadable(model, "top_provider", DefaultTopProvider, parse)
                         && ContextLength(Field(model.fields, "context_length")).Some?
                         && PricesConvert(PricesOf(Nested(model, "pricing", DefaultPricing, parse).value))
    ensures r.Some? ==> r.value.id == Id(model)
    ensures r.Some? ==> (r.value.free <==> Contains(Id(model), ":free"))
    ensures r.Some? ==> r.value.contextLength == ContextLength(Field(model.fields, "context_length")).value
    ensures r.Some? ==> r.value.contextLengthCategory == Category(r.value.contextLength)
    ensures r.Some? ==> r.value.contextLengthCategory in CategoryLabels
    ensures r.Some? ==> (r.value.isMultimodal <==> r.value.inputModalities.JArr?
                                                   && JStr("image") in r.value.inputModalities.elems)
    ensures r.Some? ==> (r.value.supportsFunctions
                         <==> SupportsFunctions(SupportedParams(Field(model.fields, "supported_parameters"))))
  {
    var fields := model.fields;
    var pricing :- Nested(model, "pricing", DefaultPricing, parse);
    var architecture :- Nested(model, "architecture", DefaultArchitecture, parse);
    var topProvider :- Nested(model, "top_provider", DefaultTopProvider, parse);
    // The record literal reads properties of all three; on `null` that throws.
    if pricing.JNull? || architecture.JNull? || topProvider.JNull? then None
    else
      var inputModalities := Property(architecture, "input_modalities");
      var params := SupportedParams(Field(fields, "supported_parameters"));
      var contextLength :- ContextLength(Field(fields, "context_length"));
      var prices := PricesOf(pricing);
      CategoryTotal(contextLength);
      if !PricesConvert(prices) then None
      else Some(NormalizedModel(
        id := Id(model),
        name := Field(fields, "name"),
        created := Field(fields, "created"),
        description := Field(fields, "description"),
        huggingFaceId := OrElse(Field(fields, "hugging_face_id"), JStr("")),
        contextLength := contextLength,
        contextLengthCategory := Category(contextLength),
        prices := prices,
        inputModalities := OrElse(inputModalities, JArr([])),
        outputModalities := OrElse(Property(architecture, "output_modalities"), JArr([])),
        tokenizer := OrElse(Property(architecture, "tokenizer"), JStr("")),
        isModerated := OrElse(Property(topProvider, "is_moderated"), JBool(false)),
        free := Includes(Id(model), ":free"),
        isMultimodal := inputModalities.Some? && inputModalities.value.JArr?
                        && JStr("image") in inputModalities.value.elems,
        supportsFunctions := SupportsFunctions(params)))
  }

  /** An absent nested field resolves to its default. */
  lemma NestedAbsent(model: Json, key: string, default: Json, parse: string -> Option<Json>)
    requires model.JObj? && Classify(Field(model.fields, key)).Absent?
    ensures Nested(model, key, default, parse) == Some(default)
  {
  }

  /** The default architecture and top provider read back as empty lists, an
      empty tokenizer and not moderated. */
  lemma DefaultNestedValues()
    ensures OrElse(Property(DefaultArchitecture, "input_modalities"), JArr([])) == JArr([])
    ensures OrElse(Property(DefaultArchitecture, "output_modalities"), JArr([])) == JArr([])
    ensures OrElse(Property(DefaultArchitecture, "tokenizer"), JStr("")) == JStr("")
    ensures OrElse(Property(DefaultTopProvider, "is_moderated"), JBool(false)) == JBool(false)
  {
  }

  /** The defaults read back as zero prices, which convert. */
  lemma DefaultPrices()
    ensures PricesOf(DefaultPricing) == Prices(JNum(0), JNum(0), JNum(0), JNum(0))
    ensures PricesConvert(PricesOf(DefaultPricing))
  {
  }

  /** The fields of a normalised record that come from the nested fields. */
  lemma RecordNestedFields(model: Json, parse: string -> Option<Json>, pricing: Json, architecture: Json, topProvider: Json)
    requires HasStringId(model)
    requires Nested(model, "pricing", DefaultPricing, parse) == Some(pricing) && !pricing.JNull?
    requires Nested(model, "architecture", DefaultArchitecture, parse) == Some(architecture) && !architecture.JNull?
    requires Nested(model, "top_provider", DefaultTopProvider, parse) == Some(topProvider) && !topProvider.JNull?
    requires NormalizeRecord(model, parse).Some?
    ensures var m := NormalizeRecord(model, parse).value;
            && m.prices == PricesOf(pricing)
            && m.inputModalities == OrElse(Property(architecture, "input_modalities"), JArr([]))
            && m.outputModalities == OrElse(Property(architecture, "output_modalities"), JArr([]))
            && m.tokenizer == OrElse(Property(architecture, "tokenizer"), JStr(""))
            && m.isModerated == OrElse(Property(topProvider, "is_moderated"), JBool(false))
  {
  }

  /** A record without usable nested fields never fails. */
  lemma RecordDefaultsSucceed(model: Json, parse: string -> Option<Json>)
    requires HasStringId(model)
    requires Classify(Field(model.fields, "pricing")).Absent?
    requires Classify(Field(model.fields, "architecture")).Absent?
    requires Classify(Field(model.fields, "top_provider")).Absent?
    requires "context_length" in model.fields ==> !ToPrimitiveThrows(model.fields["context_length"])
    ensures NormalizeRecord(model, parse).Some?
  {
    NestedAbsent(model, "pricing", DefaultPricing, parse);
    NestedAbsent(model, "architecture", DefaultArchitecture, parse);
    NestedAbsent(model, "top_provider", DefaultTopProvider, parse);
    DefaultPrices();
    NumberOrZeroOutcomes(Field(model.fields, "context_length"));
  }

  /** A record without usable nested fields never fails and takes every
      default. */
  lemma RecordDefaults(model: Json, parse: string -> Option<Json>)
    requires HasStringId(model)
    requires Classify(Field(model.fields, "pricing")).Absent?
    requires Classify(Field(model.fields, "architecture")).Absent?
    requires Classify(Field(model.fields, "top_provider")).Absent?
    requires "context_length" in model.fields ==> !ToPrimitiveThrows(model.fields["context_length"])
    ensures NormalizeRecord(model, parse).Some?
    ensures var m := NormalizeRecord(model, parse).value;
            && m.prices == Prices(JNum(0), JNum(0), JNum(0), JNum(0))
            && m.inputModalities == JArr([]) && m.outputModalities == JArr([])
            && m.tokenizer == JStr("") && m.isModerated == JBool(false)
            && !m.isMultimodal
  {
    RecordDefaultsSucceed(model, parse);
    NestedAbsent(model, "pricing", DefaultPricing, parse);
    NestedAbsent(model, "architecture", DefaultArchitecture, parse);
    NestedAbsent(model, "top_provider", DefaultTopProvider, parse);
    DefaultPrices();
    DefaultNestedValues();
    RecordNestedFields(model, parse, DefaultPricing, DefaultArchitecture, DefaultTopProvider);
  }

  /** A `context_length` whose conversion throws, such as an object with a
      `toString` key, makes the record fail. */
  lemma RecordLengthThrows(model: Json, parse: string -> Option<Json>)
    requires HasStringId(model) && "context_length" in model.fields
    requires ToPrimitiveThrows(model.fields["context_length"])
    ensures NormalizeRecord(model, parse).None?
  {
  }

  /** A `prompt` price whose string conversion throws makes the record fail,
      although the pricing object itself is read without trouble. */
  lemma RecordPriceThrows(model: Json, parse: string -> Option<Json>, pricing: map<string, Json>)
    requires HasStringId(model) && Field(model.fields, "pricing") == Some(JObj(pricing))
    requires "prompt" in pricing && ToPrimitiveThrows(pricing["prompt"])
    ensures NormalizeRecord(model, parse).None?
  {
    assert Nested(model, "pricing", DefaultPricing, parse) == Some(JObj(pricing));
    assert PricesOf(JObj(pricing)).prompt == pricing["prompt"];
  }

  /** `is_multimodal` looks at the architecture's own `input_modalities`: it is
      set exactly when that is an array holding "image". */
  lemma MultimodalFromArchitecture(model: Json, parse: string -> Option<Json>)
    requires HasStringId(model) && NormalizeRecord(model, parse).Some?
    ensures var arch := Nested(model, "architecture", DefaultArchitecture, parse).value;
            var modalities := Property(arch, "input_modalities");
            NormalizeRecord(model, parse).value.isMultimodal
            <==> modalities.Some? && modalities.value.JArr? && JStr("image") in modalities.value.elems
  {
  }

  /** A record without `context_length` has length 0 in the smallest bucket. */
  lemma RecordContextLengthMissing(model: Json, parse: string -> Option<Json>)
    requires HasStringId(model) && "context_length" !in model.fields
    requires NormalizeRecord(model, parse).Some?
    ensures NormalizeRecord(model, parse).value.contextLength == 0
    ensures NormalizeRecord(model, parse).value.contextLengthCategory == "Small (<8K)"
  {
  }

  /** `free` tests the identifier as it is: one without a small "f" is never
      free, whatever its case-insensitive spelling. */
  lemma NotFreeWithoutSmallF(model: Json, parse: string -> Option<Json>)
    requires HasStringId(model) && 'f' !in Id(model)
    requires NormalizeRecord(model, parse).Some?
    ensures !NormalizeRecord(model, parse).value.free
  {
    AbsentCharNotContained(Id(model), ":free", 'f');
  }

  /** The filter lower-cases where `free` does not: an "OpenAI..." record with
      an upper-case ":FREE" (any suffix without a small "f") is kept, normalises
      with the defaults, and is not free. */
  lemma FreeIsCaseSensitive(rest: string, parse: string -> Option<Json>)
    requires 'f' !in rest
    ensures var model := JObj(map["id" := JStr("OpenAI" + rest)]);
            Kept(model) && NormalizeRecord(model, parse).Some?
            && !NormalizeRecord(model, parse).value.free
  {
    var id := "OpenAI" + rest;
    var model := JObj(map["id" := JStr(id)]);
    assert Id(model) == id;
    KeptOpenAI(rest);
    RecordDefaults(model, parse);
    OpenAIHasNoSmallF(rest);
    NotFreeWithoutSmallF(model, parse);
  }

  lemma OpenAIHasNoSmallF(rest: string)
    requires 'f' !in rest
    ensures 'f' !in "OpenAI" + rest
  {
    var id := "OpenAI" + rest;
    assert forall k :: 0 <= k < |id| ==> id[k] == if k < 6 then "OpenAI"[k] else rest[k - 6];
  }

  lemma KeptOpenAI(rest: string)
    ensures Kept(JObj(map["id" := JStr("OpenAI" + rest)]))
  {
    assert ToLower("OpenAI") == "openai";
    assert "OpenAI" + rest == "" + "OpenAI" + rest;
    ProviderInId("", "OpenAI", rest);
  }

  /** `xs.map(f)` with a callback that may throw (`None`): fails when `f`
      fails on any element, otherwise one result per element, in order. */
  function MapAll<A, B>(xs: seq<A>, f: A --> Option<B>): (r: Option<seq<B>>)
    requires forall k :: 0 <= k < |xs| ==> f.requires(xs[k])
    ensures r.Some? <==> forall k :: 0 <= k < |xs| ==> f(xs[k]).Some?
    ensures r.Some? ==> |r.value| == |xs|
    ensures r.Some? ==> forall k :: 0 <= k < |xs| ==> r.value[k] == f(xs[k]).value
    decreases |xs|
  {
    if xs == [] then Some([])
    else
      var head :- f(xs[0]);
      var rest :- MapAll(xs[1..], f);
      Some([head] + rest)
  }

  /** `map` over the kept records: fails when any record fails, otherwise one
      normalised record per input record, in order. */
  function NormalizeAll(models: seq<Json>, parse: string -> Option<Json>): (r: Option<seq<NormalizedModel>>)
    requires forall k :: 0 <= k < |models| ==> HasStringId(models[k])
    ensures r.Some? <==> forall k :: 0 <= k < |models| ==> NormalizeRecord(models[k], parse).Some?
    ensures r.Some? ==> |r.value| == |models|
    ensures r.Some? ==> forall k :: 0 <= k < |models| ==> r.value[k] == NormalizeRecord(models[k], parse).value
  {
    MapAll(models, model requires HasStringId(model) => NormalizeRecord(model, parse))
  }

  /** Normalising keeps every identifier, position by position. */
  lemma NormalizeKeepsIds(models: seq<Json>, parse: string -> Option<Json>)
    requires forall k :: 0 <= k < |models| ==> HasStringId(models[k])
    requires NormalizeAll(models, parse).Some?
    ensures forall k :: 0 <= k < |models| ==> NormalizeAll(models, parse).value[k].id == Id(models[k])
  {
  }

  // ---------------------------------------------------------------------------
  // The fail-closed pipeline
  // ---------------------------------------------------------------------------

  /** The part of the `try` block after the fetch: parse, flatten, filter,
      normalise. `None` when anything throws. */
  function Pipeline(body: string, parse: string -> Option<Json>): (r: Option<seq<NormalizedModel>>)
    ensures r.Some? ==> forall k :: 0 <= k < |r.value| ==> ProviderMatch(r.value[k].id)
  {
    var json :- parse(body);
    var raw :- Flatten(json);
    var kept :- FilterProviders(raw);
    var data :- NormalizeAll(kept, parse);
    assert forall k :: 0 <= k < |data| ==> ProviderMatch(data[k].id) by {
      forall k | 0 <= k < |data| ensures ProviderMatch(data[k].id) {
        FilterMembership(raw, kept[k]);
      }
    }
    Some(data)
  }

  /** What the fetch produced: a transport failure or non-success status, or a
      response body. */
  datatype FetchOutcome = FetchFailed | Payload(body: string)

  /** The exported `data`: the normalised records, or none at all when the
      fetch failed or anything after it threw. */
  function LoadCatalog(fetched: FetchOutcome, parse: string -> Option<Json>): (data: seq<NormalizedModel>)
    ensures fetched.FetchFailed? ==> data == []
    ensures forall k :: 0 <= k < |data| ==> ProviderMatch(data[k].id)
  {
    match fetched
    case FetchFailed => []
    case Payload(body) =>
      match Pipeline(body, parse)
      case None => []
      case Some(data) => data
  }

  /** A body that does not parse, or parses to `null`, exports nothing. */
  lemma CatalogUnreadableBody(body: string, parse: string -> Option<Json>)
    requires parse(body).None? || parse(body) == Some(JNull)
    ensures LoadCatalog(Payload(body), parse) == []
  {
  }

  /** One raw record without a string `id`, whatever its provider, empties the
      catalog. */
  lemma CatalogMissingId(body: string, parse: string -> Option<Json>, raw: seq<Json>, k: nat)
    requires parse(body).Some? && Flatten(parse(body).value) == Some(raw)
    requires k < |raw| && !HasStringId(raw[k])
    ensures LoadCatalog(Payload(body), parse) == []
  {
  }

  /** One kept record that fails to normalise empties the catalog. */
  lemma CatalogRecordFails(body: string, parse: string -> Option<Json>, raw: seq<Json>, k: nat)
    requires parse(body).Some? && Flatten(parse(body).value) == Some(raw)
    requires k < |raw| && Kept(raw[k]) && NormalizeRecord(raw[k], parse).None?
    ensures LoadCatalog(Payload(body), parse) == []
  {
    if FilterProviders(raw).Some? {
      var kept := FilterProviders(raw).value;
      FilterMembership(raw, raw[k]);
      var j :| 0 <= j < |kept| && kept[j] == raw[k];
      assert NormalizeAll(kept, parse).None?;
    }
  }

  /** When nothing throws, the catalog holds the normalised form of every kept
      record, in order. */
  lemma CatalogContents(body: string, parse: string -> Option<Json>, json: Json, raw: seq<Json>,
                        kept: seq<Json>, out: seq<NormalizedModel>)
    requires parse(body) == Some(json) && Flatten(json) == Some(raw)
    requires FilterProviders(raw) == Some(kept) && NormalizeAll(kept, parse) == Some(out)
    ensures LoadCatalog(Payload(body), parse) == out
  {
  }

  /** A catalog that is not empty came from a run in which nothing threw. */
  lemma CatalogNonEmpty(body: string, parse: string -> Option<Json>, raw: seq<Json>)
    requires parse(body).Some? && Flatten(parse(body).value) == Some(raw)
    requires LoadCatalog(Payload(body), parse) != []
    ensures FilterProviders(raw).Some?
    ensures NormalizeAll(FilterProviders(raw).value, parse) == Some(LoadCatalog(Payload(body), parse))
  {
  }
}
