# OpenRouter model catalog normaliser

This project models the data path of `get_models.js` and proves properties
about it. That script fetches OpenRouter's model list and exports it as
flat records for a dashboard. The model covers everything between the
response body and the exported `data` array:

- flattening the parsed response into raw model records (`json.data` as an
  array, `json.data` as a single record, a bare array, or a bare record);
- keeping only the records whose lower-cased `id` contains `openai`,
  `google` or `anthropic`;
- resolving the three nested fields `pricing`, `architecture` and
  `top_provider`. Each one is an object, a string that is JSON-parsed after
  its first `[object Object]` is replaced by `{}`, or a default;
- reading `supported_parameters` as an array, or as a comma-separated string
  whose pieces are trimmed;
- converting `context_length` with `Number(x) || 0` and placing it in one of
  five buckets;
- building the flat record: defaults taken with `||`, `free` from a
  case-sensitive `:free`, `is_multimodal`, `supports_functions`;
- the fail-closed `try`/`catch`: any exception anywhere makes the whole
  export empty. Besides a `JSON.parse` failure or a property read of `null`,
  that includes the conversions: `Number(context_length)` and the string
  conversion inside `parseFloat(price)` throw a TypeError on a JSON object
  that has its own `toString` key, and on an array holding one.

There are four modules:

- `Wrappers` holds `Option`.
- `JsStrings` holds the string methods the script calls: `includes`, and
  `replace` with a string pattern (both through a first-occurrence search),
  `split`, `trim` and `toLowerCase`.
- `JsValues` holds JSON values as JavaScript sees them: truthiness, property
  reads that throw on `null`, `Number(...)`, and when ToPrimitive throws.
- `Catalog` holds the pipeline itself.

`JSON.parse` is a parameter, `parse: string -> Option<Json>`, where `None`
means that it threw. The network request is the abstract outcome
`FetchOutcome`.

A reader might expect more of the exported records than the code
guarantees. The model follows the code:

- `context_length` need not be a non-negative count: the code keeps whatever
  `Number(...)` gives, negative numbers included.
- The modality lists need not be arrays of strings, `tokenizer` need not be a
  string and `is_moderated` need not be a boolean: the code copies any
  truthy value it finds there.
- A nested field whose string does not parse does not take its default. In
  the code, `JSON.parse` throws (get_models.js:79, 85, 91) and the catch
  (147-150) empties the whole export. So does any raw record without a
  string `id`, whatever its provider.

## Model

| member | source | states |
|---|---|---|
| Catalog.Flatten | sources/openroutermodels/get_models.js:59-61 | definition: the record list of a parsed response, `None` when reading `data` throws; FlattenShapes states what it gives |
| Catalog.FlattenShapes | sources/openroutermodels/get_models.js:59-61 | the four response shapes map to their record lists (an array `data`, a truthy non-array `data` as one record, a bare array, anything else as one record), and flattening fails exactly for a `null` response |
| Catalog.FlattenRecordList | sources/openroutermodels/get_models.js:59-61 | a record list reads back unchanged both inside a `data` envelope and bare |
| Catalog.HasStringId | sources/openroutermodels/get_models.js:65 | definition: the record's `id` is a string, so `toLowerCase` does not throw |
| Catalog.Id | sources/openroutermodels/get_models.js:65 | definition: the record's string `id` |
| Catalog.ProviderMatch | sources/openroutermodels/get_models.js:65-68 | definition: the lower-cased identifier includes one of the three provider names; ProviderInId and ProviderAbsent state when it holds |
| Catalog.Kept | sources/openroutermodels/get_models.js:64-69 | definition: the filter callback returns true |
| Catalog.FilterProviders | sources/openroutermodels/get_models.js:64-69 | the filter succeeds exactly when every record has a string `id`, and every record it keeps matches a provider |
| Catalog.FilterOrder | sources/openroutermodels/get_models.js:64-69 | the filtered list is the input with some records dropped and the rest in their original order |
| Catalog.FilterCounts | sources/openroutermodels/get_models.js:64-69 | each record occurs in the filtered list as often as in the input when it matches a provider, and not at all otherwise |
| Catalog.FilterMembership | sources/openroutermodels/get_models.js:64-69 | a record is in the filtered list if and only if it is in the input and matches a provider |
| Catalog.FilterIdempotent | sources/openroutermodels/get_models.js:64-69 | filtering an already filtered list returns it unchanged |
| Catalog.ProviderInId | sources/openroutermodels/get_models.js:65-68 | a provider name in any letter case, anywhere in the identifier, keeps the record |
| Catalog.ProviderKeptExample | sources/openroutermodels/get_models.js:65-68 | "OpenAI/gpt-4" is kept |
| Catalog.ProviderAbsent | sources/openroutermodels/get_models.js:65-68 | an identifier without the letter o in either case matches no provider |
| Catalog.ProviderDroppedExample | sources/openroutermodels/get_models.js:65-68 | "mistral/large" is dropped |
| Catalog.KeptOpenAI | sources/openroutermodels/get_models.js:65-68 | every identifier that starts with "OpenAI" is kept |
| Catalog.Classify | sources/openroutermodels/get_models.js:77-78 | a nested field is structured exactly when `typeof` says object (an object, an array or `null`), encoded when it is a string, and absent when it is missing, a number or a boolean |
| Catalog.Resolve | sources/openroutermodels/get_models.js:77-92 | definition: a structured field as it is, an encoded one parsed after the first marker is replaced, an absent one as the default; the Encoded lemmas state what reaches the parser |
| Catalog.Nested | sources/openroutermodels/get_models.js:77-92 | definition: the resolved value of one nested field of a record |
| Catalog.NestedReadable | sources/openroutermodels/get_models.js:77-132 | definition: the nested field resolves and is not `null`, so the record literal's property reads do not throw |
| Catalog.NestedAbsent | sources/openroutermodels/get_models.js:77-92 | a nested field that is missing, a number or a boolean resolves to its default |
| Catalog.EncodedMarkerIsEmptyObject | sources/openroutermodels/get_models.js:77-80 | a field that is exactly "[object Object]" is parsed as "{}" |
| Catalog.EncodedFirstMarkerOnly | sources/openroutermodels/get_models.js:79 | only the leading marker is replaced; the rest of the text reaches the parser untouched, later markers included |
| Catalog.EncodedWithoutMarker | sources/openroutermodels/get_models.js:79 | text without the marker is parsed as it is |
| Catalog.SupportedParams | sources/openroutermodels/get_models.js:95-99 | definition: an array as it is, a string split on commas with each piece trimmed, anything else no parameters; ParamsOfString and NoParametersOtherwise state what it gives |
| Catalog.SupportsFunctions | sources/openroutermodels/get_models.js:138-140 | definition: the parameters include "tools" or "tool_choice" |
| Catalog.ParamsOfString | sources/openroutermodels/get_models.js:97-98 | a string of parameters yields one parameter per comma-separated piece, in order, each the trimmed piece, with no comma and no white space at its ends |
| Catalog.SplitHead | sources/openroutermodels/get_models.js:98 | the text before the first comma is the first piece |
| Catalog.SplitFindsPiece | sources/openroutermodels/get_models.js:98 | a comma-delimited piece is one of the pieces of the split |
| Catalog.SplitFindsPieceAfter | sources/openroutermodels/get_models.js:98 | the piece right after a comma is one of the pieces of the split |
| Catalog.SplitAfterComma | sources/openroutermodels/get_models.js:98 | the pieces after a comma come right after the pieces before it |
| Catalog.ParamListed | sources/openroutermodels/get_models.js:95-99 | a name listed between commas, or at either end, with white space around it, is among the supported parameters |
| Catalog.ToolsAfterSpace | sources/openroutermodels/get_models.js:95-140 | "tools" after other parameters and a space, as in "temperature, tools", sets `supports_functions` |
| Catalog.SupportsFunctionsExamples | sources/openroutermodels/get_models.js:95-140 | a number or an object supports nothing; an array is searched as it is, so "tool_choice" counts and " tools" with a space does not |
| Catalog.NoParametersOtherwise | sources/openroutermodels/get_models.js:95-99 | every missing value, and every value that is neither an array nor a string, gives no parameters and no function calling |
| Catalog.ContextLength | sources/openroutermodels/get_models.js:103 | definition: `Number(context_length) \|\| 0`, `None` when the conversion throws; the ContextLength lemmas state what it gives |
| Catalog.Category | sources/openroutermodels/get_models.js:102-108 | definition: the bucket chain of strict comparisons; CategorySpec characterises it by the bounds table |
| Catalog.CategorySpec | sources/openroutermodels/get_models.js:102-108 | a length is in bucket i exactly when it is at least that bucket's lower bound and below the next bound |
| Catalog.CategoryTotal | sources/openroutermodels/get_models.js:102-108 | every length gets one of the five labels, never the initial "Unknown" |
| Catalog.CategoryBoundaries | sources/openroutermodels/get_models.js:104-108 | each bound belongs to the bucket above it |
| Catalog.ContextLengthFallback | sources/openroutermodels/get_models.js:103 | a missing length, an object without a `toString` key, or a list of several values none of which throws, gives 0, in the smallest bucket |
| Catalog.ContextLengthNonNumeric | sources/openroutermodels/get_models.js:103 | a string holding a non-numeral character, such as "128k", gives 0, in the smallest bucket |
| Catalog.ContextLengthNumeral | sources/openroutermodels/get_models.js:103 | a length sent as a decimal string reads as that number |
| Catalog.PricesOf | sources/openroutermodels/get_models.js:121-124 | definition: the four values handed to `parseFloat`, each `pricing.x \|\| 0` |
| Catalog.PricesConvert | sources/openroutermodels/get_models.js:121-124 | definition: no price's string conversion throws |
| Catalog.NormalizeRecord | sources/openroutermodels/get_models.js:75-145 | normalising a record fails exactly when one of the three nested fields does not parse or is `null`, when `Number(context_length)` throws, or when a price's string conversion throws; otherwise it keeps the `id`, its length is `Number(context_length) \|\| 0` and its category that length's bucket, one of the five labels, `free` holds iff the `id` contains ":free", `is_multimodal` holds iff the input modalities are an array holding "image", and `supports_functions` holds iff the parameters hold "tools" or "tool_choice" |
| Catalog.MapAll | sources/openroutermodels/get_models.js:75-145 | mapping with a callback that may throw succeeds exactly when the callback succeeds on every element, and then gives one result per element, in order |
| Catalog.RecordDefaults | sources/openroutermodels/get_models.js:77-132 | a record whose nested fields are absent, and whose `context_length` converts, never fails, and it takes the defaults: zero prices, empty modality lists, empty tokenizer, not moderated, not multimodal |
| Catalog.RecordLengthThrows | sources/openroutermodels/get_models.js:103 | a `context_length` whose conversion throws, such as `{"toString": 1}`, makes the record fail |
| Catalog.RecordPriceThrows | sources/openroutermodels/get_models.js:121 | a `prompt` price whose string conversion throws makes the record fail |
| Catalog.MultimodalFromArchitecture | sources/openroutermodels/get_models.js:83-137 | `is_multimodal` holds iff the resolved architecture's own `input_modalities` is an array holding "image" |
| Catalog.RecordContextLengthMissing | sources/openroutermodels/get_models.js:103-118 | a record without `context_length` gets length 0 and the smallest bucket |
| Catalog.NotFreeWithoutSmallF | sources/openroutermodels/get_models.js:135 | an identifier without a lower-case f is never free |
| Catalog.FreeIsCaseSensitive | sources/openroutermodels/get_models.js:135 | an "OpenAI…" identifier whose rest has no lower-case f, such as one ending in ":FREE", is kept by the case-insensitive filter and is not free |
| Catalog.NormalizeAll | sources/openroutermodels/get_models.js:75-145 | the map succeeds exactly when every record normalises; it then gives one result per record, in order, each that record's normalised form |
| Catalog.NormalizeKeepsIds | sources/openroutermodels/get_models.js:112 | the i-th output record has the i-th input record's `id` |
| Catalog.Pipeline | sources/openroutermodels/get_models.js:56-145 | every record the pipeline produces has an `id` that matches a provider |
| Catalog.LoadCatalog | sources/openroutermodels/get_models.js:49-150 | a failed fetch exports nothing, and every exported record matches a provider |
| Catalog.CatalogUnreadableBody | sources/openroutermodels/get_models.js:56-61 | a body that does not parse, or parses to `null`, exports nothing |
| Catalog.CatalogMissingId | sources/openroutermodels/get_models.js:64-65 | one raw record without a string `id` empties the export, whatever its provider |
| Catalog.CatalogRecordFails | sources/openroutermodels/get_models.js:75-92 | one kept record that fails to normalise empties the export |
| Catalog.CatalogContents | sources/openroutermodels/get_models.js:49-150 | when the body parses, flattens, filters and normalises without throwing, the export is exactly the normalised records |
| Catalog.CatalogNonEmpty | sources/openroutermodels/get_models.js:49-150 | a non-empty export comes from a run in which the filter succeeded, and it is the normalised form of the filtered records, in order |
| JsStrings.IndexOfFrom | sources/openroutermodels/get_models.js:66-68 | the result is the first position at or after `from` where the pattern occurs, or none when it does not occur there |
| JsStrings.IndexOf | sources/openroutermodels/get_models.js:66-68 | a position is found iff the pattern occurs, and it is the first occurrence |
| JsStrings.Includes | sources/openroutermodels/get_models.js:66-68 | `includes` holds iff the pattern occurs somewhere |
| JsStrings.AbsentCharNotContained | sources/openroutermodels/get_models.js:66-68 | a pattern with a character the string lacks does not occur |
| JsStrings.ReplaceFirst | sources/openroutermodels/get_models.js:79 | text without the pattern is unchanged; otherwise the first occurrence, and only it, is replaced |
| JsStrings.ReplaceLeading | sources/openroutermodels/get_models.js:79 | a leading pattern is replaced and the rest is kept |
| JsStrings.FindChar | sources/openroutermodels/get_models.js:98 | the result is the first index holding the character, or the length when there is none |
| JsStrings.FindCharAt | sources/openroutermodels/get_models.js:98 | the first index holding the character is the one found |
| JsStrings.Split | sources/openroutermodels/get_models.js:98 | splitting gives at least one piece, no piece holds the separator, and joining the pieces with it gives back the string |
| JsStrings.SplitWithoutSeparator | sources/openroutermodels/get_models.js:98 | a string without the separator is its own single piece |
| JsStrings.SplitAtFirst | sources/openroutermodels/get_models.js:98 | a piece without the separator, followed by the separator, heads the split of the rest |
| JsStrings.SplitAppend | sources/openroutermodels/get_models.js:98 | splitting at a separator concatenates the splits of both sides |
| JsStrings.TextStart | sources/openroutermodels/get_models.js:98 | the scan stops at the first index that is not white space, and only white space lies before it |
| JsStrings.TextEnd | sources/openroutermodels/get_models.js:98 | the scan stops just after the last index that is not white space, and only white space lies after it |
| JsStrings.IsWhiteSpace | sources/openroutermodels/get_models.js:98 | definition: ECMAScript's WhiteSpace and LineTerminator code points |
| JsStrings.Trim | sources/openroutermodels/get_models.js:98 | the result is a slice of the string and is empty or has no white space at either end |
| JsStrings.TrimSlice | sources/openroutermodels/get_models.js:98 | trimming adds no character |
| JsStrings.TrimKeeps | sources/openroutermodels/get_models.js:98 | trimming keeps every character that is not white space |
| JsStrings.TrimUnchanged | sources/openroutermodels/get_models.js:98 | a string without white space at its ends is left as it is |
| JsStrings.TrimIdempotent | sources/openroutermodels/get_models.js:98 | trimming twice is trimming once |
| JsStrings.TextStartAt | sources/openroutermodels/get_models.js:98 | the forward scan stops exactly at the end of a run of leading white space |
| JsStrings.TextEndAt | sources/openroutermodels/get_models.js:98 | the backward scan stops exactly at the start of a run of trailing white space |
| JsStrings.TrimAround | sources/openroutermodels/get_models.js:98 | white space on both sides of a text is removed and the text kept |
| JsStrings.LowerChar | sources/openroutermodels/get_models.js:65 | definition: the lower case of one character: ASCII letters, U+0130 to "i" and U+0307, U+212A to "k" |
| JsStrings.ToLower | sources/openroutermodels/get_models.js:65 | the result is at least as long as the input, and every character in it is one lower-casing leaves alone |
| JsStrings.ToLowerAppend | sources/openroutermodels/get_models.js:65 | lower-casing distributes over concatenation |
| JsStrings.ToLowerFixed | sources/openroutermodels/get_models.js:65 | a string already in lower case is unchanged |
| JsStrings.ToLowerIdempotent | sources/openroutermodels/get_models.js:65 | lower-casing twice is lower-casing once |
| JsStrings.ToLowerAscii | sources/openroutermodels/get_models.js:65 | an ASCII string keeps its length, and each character is lowered on its own |
| JsValues.Truthy | sources/openroutermodels/get_models.js:116-132 | definition: ToBoolean of a JSON value or `undefined` |
| JsValues.Field | sources/openroutermodels/get_models.js:112-116 | definition: an object's own property, or `undefined` |
| JsValues.OrElse | sources/openroutermodels/get_models.js:116-132 | definition: the fallback operator, its left operand when that is truthy and the fallback otherwise; RecordDefaults states the defaults it yields |
| JsValues.Get | sources/openroutermodels/get_models.js:59-92 | definition: a property read, `None` (a TypeError) on `null`, the own field of an object, and `undefined` on anything else |
| JsValues.Property | sources/openroutermodels/get_models.js:121-137 | definition: a property read on a value known not to be `null` |
| JsValues.StringToNumber | sources/openroutermodels/get_models.js:103 | definition: `Number` of a string, on integer numerals; the numeral lemmas state what it gives |
| JsValues.NumeralValue | sources/openroutermodels/get_models.js:103 | definition: the value of a trimmed integer numeral, `None` for NaN |
| JsValues.NumberOfValue | sources/openroutermodels/get_models.js:103 | definition: `Number` of a JSON value, with arrays through `join` |
| JsValues.NumberOf | sources/openroutermodels/get_models.js:103 | definition: `Number` of a value or `undefined` |
| JsValues.ToPrimitiveThrows | sources/openroutermodels/get_models.js:103-124 | definition: ToPrimitive throws on an object with its own `toString` key and on an array holding one |
| JsValues.DigitsValue | sources/openroutermodels/get_models.js:103 | a run of digits has a value iff it is non-empty and every character is a digit of the base |
| JsValues.NumberOrZero | sources/openroutermodels/get_models.js:103 | definition: `Number(v) \|\| 0`, `None` when the conversion throws; NumberOrZeroOutcomes states its three outcomes |
| JsValues.NumberOrZeroOutcomes | sources/openroutermodels/get_models.js:103 | `Number(v) \|\| 0` fails exactly when the conversion throws; otherwise NaN gives 0 and any other number is kept |
| JsValues.ToPrimitiveThrowsCases | sources/openroutermodels/get_models.js:103-124 | an object throws iff it has a `toString` key; an array holding one throws wherever it sits; an object without that key converts to NaN, so 0 |
| JsValues.NumeralRejects | sources/openroutermodels/get_models.js:103 | a trimmed numeral holding a character no numeral uses is NaN |
| JsValues.NotANumber | sources/openroutermodels/get_models.js:103 | a string holding a character that is neither white space nor numeral is NaN |
| JsValues.DecimalString | sources/openroutermodels/get_models.js:103 | a decimal numeral is non-empty, all digits, and has no leading zero unless it is 0 |
| JsValues.DigitsOfDecimal | sources/openroutermodels/get_models.js:103 | the digits of a decimal numeral read back as its number |
| JsValues.NumberOfNumeral | sources/openroutermodels/get_models.js:103 | `Number` of a decimal numeral, padded with white space or not, is its number |
| JsValues.NumeralOfDecimal | sources/openroutermodels/get_models.js:103 | a trimmed decimal numeral reads back as its number |
| JsValues.NumberOfNegativeNumeral | sources/openroutermodels/get_models.js:103 | `Number` of a minus sign and a decimal numeral, padded or not, is the negative number |
| JsValues.NumeralOfNegativeDecimal | sources/openroutermodels/get_models.js:103 | a trimmed negative numeral reads back as the negative number |

## Left out

- The request itself: the URL, the headers, the `Authorization` key read from
  the environment, `response.ok` and the status. They are I/O, so they become
  the abstract `FetchOutcome`: a failed fetch or a body.
- `JSON.parse`: it is the parameter `parse`. The model does not fix a JSON
  grammar, so lemmas about encoded fields say what reaches the parser.
- The fallback sample records and the console logging: they are outside the
  normalisation path.
- `parseFloat` of the four prices and `cost_per_1k`: these are floating point.
  The record keeps each price as the value handed to `parseFloat`
  (`pricing.x || 0`), so the sum is not modelled. The string conversion that
  `parseFloat` does first is modelled, because it can throw.
- `name`, `created` and `description` are copied through as opaque values.
- Numbers are integers, because floating point is out of scope. A fractional
  `context_length` counts as not a number.
- JsValues.StringToNumber: fractions, exponents and `Infinity` are treated as
  NaN, because only integer numerals are modelled.
  A fractional length such as "40960.5" is therefore read as 0, where the
  script reads it as 40960.5. The bucket differs too when the real value is
  8000 or more.
- JsStrings.ToLower: lower-cases ASCII letters, U+0130 and U+212A only. Every
  other character is kept as it is, because the full Unicode case tables are
  out of scope. The three provider names are ASCII, and only the non-ASCII
  characters whose lower case is ASCII (U+0130 and U+212A) can create a
  match, so their treatment is the one that matters for the filter.
- The order in which JavaScript evaluates the nested fields and the
  conversions is not modelled. Any one of them throwing empties the whole
  export, so the order cannot change the result.
- Strings are sequences of Unicode scalar values, so a JSON string holding a
  lone surrogate cannot be represented.
