/** JSON values as JavaScript sees them after `JSON.parse`, and the three
    language operations the normaliser applies to them: truthiness (`||` and
    `?:`), property reads, and the `Number(...)` conversion. A missing property
    (`undefined`) is `None`; numbers are integers. */
module JsValues {
  import opened Wrappers
  import opened JsStrings

  datatype Json =
    | JNull
    | JBool(b: bool)
    | JNum(n: int)
    | JStr(s: string)
    | JArr(elems: seq<Json>)
    | JObj(fields: map<string, Json>)

  /** ToBoolean: `undefined`, `null`, `false`, `0` and `""` are falsy; every
      other value, including an empty array or object, is truthy. */
  predicate Truthy(v: Option<Json>) {
    match v
    case None => false
    case Some(JNull) => false
    case Some(JBool(b)) => b
    case Some(JNum(n)) => n != 0
    case Some(JStr(s)) => s != ""
    case Some(_) => true
  }

  /** `v || fallback`: `v` when it is truthy, else `fallback`. */
  function OrElse(v: Option<Json>, fallback: Json): Json {
    if Truthy(v) then v.value else fallback
  }

  /** An object's own property `key`, or `undefined`. */
  function Field(fields: map<string, Json>, key: string): Option<Json> {
    if key in fields then Some(fields[key]) else None
  }

  /** The property read `v.key`. Reading a property of `null` throws a
      TypeError (the outer `None`); on anything but an object the properties
      read here are `undefined`. */
  function Get(v: Json, key: string): Option<Option<Json>> {
    match v
    case JNull => None
    case JObj(fields) => Some(Field(fields, key))
    case _ => Some(None)
  }

  /** The property read `v.key` on a value known not to be `null`. */
  function Property(v: Json, key: string): Option<Json>
    requires !v.JNull?
  {
    Get(v, key).value
  }

  // ---------------------------------------------------------------------------
  // Number(...)
  // ---------------------------------------------------------------------------

  /** The value of a hexadecimal, decimal, octal or binary digit character. */
  function DigitValue(c: char): Option<nat> {
    if '0' <= c <= '9' then Some(c as int - '0' as int)
    else if 'a' <= c <= 'f' then Some(c as int - 'a' as int + 10)
    else if 'A' <= c <= 'F' then Some(c as int - 'A' as int + 10)
    else None
  }

  predicate IsDigitIn(c: char, base: nat) {
    DigitValue(c).Some? && DigitValue(c).value < base
  }

  /** The value of a non-empty run of digits in `base`, most significant
      first; `None` when the run is empty or holds another character. */
  function DigitsValue(t: string, base: nat): (r: Option<nat>)
    ensures r.Some? <==> |t| > 0 && forall k :: 0 <= k < |t| ==> IsDigitIn(t[k], base)
    decreases |t|
  {
    if |t| == 0 then None
    else
      var last := t[|t| - 1];
      if !IsDigitIn(last, base) then None
      else if |t| == 1 then DigitValue(last)
      else match DigitsValue(t[..|t| - 1], base)
        case None => None
        case Some(v) => Some(v * base + DigitValue(last).value)
  }

  /** StringToNumber restricted to integer numerals: after trimming, the empty
      string is 0; `0x`, `0o` and `0b` prefixes select base 16, 8 and 2 (no
      sign allowed); otherwise an optional sign and decimal digits. Anything
      else is NaN (`None`). */
  function StringToNumber(s: string): Option<int> {
    NumeralValue(Trim(s))
  }

  /** The value of an already trimmed numeral. */
  function NumeralValue(t: string): Option<int> {
    if t == "" then Some(0)
    else if |t| >= 2 && t[0] == '0' && t[1] in "xX" then DigitsValue(t[2..], 16)
    else if |t| >= 2 && t[0] == '0' && t[1] in "oO" then DigitsValue(t[2..], 8)
    else if |t| >= 2 && t[0] == '0' && t[1] in "bB" then DigitsValue(t[2..], 2)
    else if t[0] == '-' then
      match DigitsValue(t[1..], 10)
      case None => None
      case Some(n) => var m: int := n; Some(-m)
    else if t[0] == '+' then
      match DigitsValue(t[1..], 10)
      case None => None
      case Some(n) => Some(n)
    else
      match DigitsValue(t, 10)
      case None => None
      case Some(n) => Some(n)
  }

  /** `Number(v)` of a value, `None` for NaN. An array converts through its
      `join(",")`: the empty array is 0, a one-element array converts as its
      element would (except that `null` joins as "" and a boolean as a word),
      and two or more elements always leave a comma, so NaN. */
  function NumberOfValue(v: Json): Option<int> {
    match v
    case JNull => Some(0)
    case JBool(b) => Some(if b then 1 else 0)
    case JNum(n) => Some(n)
    case JStr(s) => StringToNumber(s)
    case JObj(_) => None
    case JArr(es) =>
      if |es| == 0 then Some(0)
      else if |es| > 1 then None
      else if es[0].JBool? then None
      else NumberOfValue(es[0])
  }

  /** `Number(v)`, where `Number(undefined)` is NaN. */
  function NumberOf(v: Option<Json>): Option<int> {
    match v
    case None => None
    case Some(j) => NumberOfValue(j)
  }

  /** Whether ToPrimitive throws a TypeError on a parsed JSON value, as both
      `Number(v)` and the `ToString` inside `parseFloat(v)` do. An object
      converts through its `valueOf` and `toString` methods; one with an own
      `toString` key hides `Object.prototype.toString` behind a value that is
      not callable, and its `valueOf` gives back the object itself, so the
      conversion throws. An array converts through `join`, which converts
      every element. Nothing else throws. */
  predicate ToPrimitiveThrows(v: Json) {
    match v
    case JObj(fields) => "toString" in fields
    case JArr(es) => exists k :: 0 <= k < |es| && ToPrimitiveThrows(es[k])
    case _ => false
  }

  /** `Number(v) || 0`: `None` when the conversion throws; NaN (and 0 itself)
      become 0. */
  function NumberOrZero(v: Option<Json>): Option<int> {
    if v.Some? && ToPrimitiveThrows(v.value) then None
    else match NumberOf(v)
      case None => Some(0)
      case Some(n) => Some(n)
  }

  /** `Number(v) || 0` fails exactly when the conversion throws; otherwise NaN
      becomes 0 and every other number is kept. */
  lemma NumberOrZeroOutcomes(v: Option<Json>)
    ensures NumberOrZero(v).None? <==> v.Some? && ToPrimitiveThrows(v.value)
    ensures NumberOrZero(v).Some? && NumberOf(v).None? ==> NumberOrZero(v) == Some(0)
    ensures NumberOrZero(v).Some? && NumberOf(v).Some? ==> NumberOrZero(v) == NumberOf(v)
  {
  }

  /** An object with its own `toString` key throws, and so does any array
      holding one, however deep. An object without that key converts to
      "[object Object]", which is NaN. */
  lemma ToPrimitiveThrowsCases(fields: map<string, Json>, before: seq<Json>, after: seq<Json>)
    ensures ToPrimitiveThrows(JObj(fields)) <==> "toString" in fields
    ensures "toString" in fields ==> ToPrimitiveThrows(JArr(before + [JObj(fields)] + after))
    ensures "toString" !in fields ==> NumberOrZero(Some(JObj(fields))) == Some(0)
  {
    if "toString" in fields {
      var es := before + [JObj(fields)] + after;
      assert es[|before|] == JObj(fields);
    }
  }

  /** A character that can appear in some integer numeral. */
  predicate IsNumeralChar(c: char) {
    IsDigitIn(c, 16) || c in "xXoObB+-"
  }

  /** A numeral holding a character no numeral uses is NaN. */
  lemma NumeralRejects(t: string, j: nat)
    requires j < |t| && !IsNumeralChar(t[j])
    ensures NumeralValue(t) == None
  {
    if |t| >= 2 && t[0] == '0' && (t[1] in "xX" || t[1] in "oO" || t[1] in "bB") {
      assert t[2..][j - 2] == t[j];
    } else if t[0] == '-' || t[0] == '+' {
      assert t[1..][j - 1] == t[j];
    }
  }

  /** A string holding a character that is neither white space nor usable in a
      numeral converts to NaN, as "abc" or "128k" do. */
  lemma NotANumber(s: string, k: nat)
    requires k < |s| && !IsWhiteSpace(s[k]) && !IsNumeralChar(s[k])
    ensures StringToNumber(s) == None
  {
    TrimKeeps(s, k);
    var t := Trim(s);
    var j :| 0 <= j < |t| && t[j] == s[k];
    NumeralRejects(t, j);
  }

  // ---------------------------------------------------------------------------
  // Decimal numerals, the way `String(n)` writes a non-negative integer
  // ---------------------------------------------------------------------------

  function DecimalDigit(d: nat): char
    requires d < 10
  {
    ('0' as int + d) as char
  }

  /** The shortest decimal numeral of `n`. */
  function DecimalString(n: nat): (r: string)
    ensures |r| >= 1
    ensures forall k :: 0 <= k < |r| ==> '0' <= r[k] <= '9'
    ensures r[0] == '0' ==> n == 0
  {
    if n < 10 then [DecimalDigit(n)] else DecimalString(n / 10) + [DecimalDigit(n % 10)]
  }

  lemma {:induction false} DigitsOfDecimal(n: nat)
    ensures DigitsValue(DecimalString(n), 10) == Some(n)
  {
    var t := DecimalString(n);
    if n >= 10 {
      DigitsOfDecimal(n / 10);
      assert t[..|t| - 1] == DecimalString(n / 10);
    }
  }

  /** A numeral written by `String(n)` converts back to `n`, with white space
      around it or not. */
  lemma NumberOfNumeral(n: nat, pre: string, post: string)
    requires AllWhiteSpace(pre) && AllWhiteSpace(post)
    ensures StringToNumber(pre + DecimalString(n) + post) == Some(n)
  {
    var d := DecimalString(n);
    TrimAround(pre, d, post);
    NumeralOfDecimal(n);
  }

  lemma NumeralOfDecimal(n: nat)
    ensures NumeralValue(DecimalString(n)) == Some(n)
  {
    var d := DecimalString(n);
    DigitsOfDecimal(n);
    assert d[0] != '-' && d[0] != '+';
    assert !(|d| >= 2 && d[0] == '0');
  }

  /** A numeral with a minus sign converts back to the negative number. */
  lemma NumberOfNegativeNumeral(n: nat, pre: string, post: string)
    requires AllWhiteSpace(pre) && AllWhiteSpace(post)
    ensures StringToNumber(pre + "-" + DecimalString(n) + post) == Some(-(n as int))
  {
    var d := DecimalString(n);
    var t := "-" + d;
    assert t[|t| - 1] == d[|d| - 1];
    assert !IsWhiteSpace(t[0]) && !IsWhiteSpace(t[|t| - 1]);
    assert pre + "-" + d + post == pre + t + post;
    calc {
      StringToNumber(pre + "-" + d + post);
      StringToNumber(pre + t + post);
      NumeralValue(Trim(pre + t + post));
      { TrimAround(pre, t, post); }
      NumeralValue(t);
      { NumeralOfNegativeDecimal(n); }
      Some(-(n as int));
    }
  }

  lemma NumeralOfNegativeDecimal(n: nat)
    ensures NumeralValue("-" + DecimalString(n)) == Some(-(n as int))
  {
    var t := "-" + DecimalString(n);
    assert t[0] == '-' && t[1..] == DecimalString(n);
    DigitsOfDecimal(n);
  }
}
