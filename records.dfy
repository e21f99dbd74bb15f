/** Records as the model layer receives them: a JSON document read through
    QJsonObject/QJsonValue, or the same document converted to QVariantMap.
    One datatype stands for both; the two families of conversions differ and
    are kept apart below. */
module Records {

  /** A JSON value. Numbers are integral here (floating point is not modelled). */
  datatype Value =
    | Null
    | Bool(b: bool)
    | Number(n: int)
    | Str(s: string)
    | Array(items: seq<Value>)
    | Object(fields: map<string, Value>)

  /** A JSON object, or a QVariantMap: string keys to values. */
  type Record = map<string, Value>

  /** Reading a key of a record; a missing key reads as the undefined/invalid value. */
  function Get(r: Record, key: string): Value
  {
    if key in r then r[key] else Null
  }

  // ---------------------------------------------------------------------
  // QJsonValue conversions: a value of another kind gives the fixed default.
  // ---------------------------------------------------------------------

  /** QJsonValue::toString: the string, or "" for any other kind. */
  function JsonString(v: Value): string
  {
    if v.Str? then v.s else ""
  }

  /** QJsonValue::toBool: the boolean, or false for any other kind. */
  function JsonBool(v: Value): bool
  {
    if v.Bool? then v.b else false
  }

  /** The range of a 32-bit C++ int. */
  predicate IsInt32(n: int)
  {
    -0x8000_0000 <= n < 0x8000_0000
  }

  /** QJsonValue::toInt: an integral number that fits an int, or 0 otherwise. */
  function JsonInt(v: Value): int
  {
    if v.Number? && IsInt32(v.n) then v.n else 0
  }

  /** QJsonValue::toObject: the object, or the empty object for any other kind. */
  function JsonObject(v: Value): Record
  {
    if v.Object? then v.fields else map[]
  }

  // ---------------------------------------------------------------------
  // QVariant::toString, the key conversion the Storage cache uses.
  // ---------------------------------------------------------------------

  function DigitChar(d: nat): char
    requires d < 10
  {
    ('0' as int + d) as char
  }

  /** The number a string of decimal digits denotes (most significant first). */
  function DigitsValue(s: string): nat
    decreases |s|
  {
    if s == [] then 0
    else
      var d := s[|s| - 1] as int - '0' as int;
      10 * DigitsValue(s[..|s| - 1]) + (if 0 <= d then d else 0)
  }

  /** The decimal digits of n, most significant first; reading them back gives n. */
  function Digits(n: nat): (s: string)
    ensures |s| > 0
    ensures forall i | 0 <= i < |s| :: '0' <= s[i] <= '9'
    ensures DigitsValue(s) == n
    decreases n
  {
    if n < 10 then [DigitChar(n)]
    else
      var s := Digits(n / 10) + [DigitChar(n % 10)];
      assert s[..|s| - 1] == Digits(n / 10);
      s
  }

  /** The number a decimal string with an optional leading '-' denotes. */
  function DecimalValue(s: string): int
  {
    if s != [] && s[0] == '-' then -(DigitsValue(s[1..]) as int) else DigitsValue(s)
  }

  /** The decimal form of an integer, with a leading '-' when negative; reading
      it back gives the integer. */
  function Decimal(n: int): (s: string)
    ensures DecimalValue(s) == n
    ensures n >= 0 ==> |s| > 0 && forall i | 0 <= i < |s| :: '0' <= s[i] <= '9'
    ensures n < 0 ==> |s| > 1 && s[0] == '-' && forall i | 1 <= i < |s| :: '0' <= s[i] <= '9'
  {
    if n < 0 then
      var s := "-" + Digits(-n);
      assert s[1..] == Digits(-n);
      s
    else Digits(n)
  }

  /** QVariant::toString: strings as they are, numbers in decimal, booleans as
      "true"/"false"; null, lists and maps give "". */
  function VariantString(v: Value): (s: string)
    ensures v.Str? ==> s == v.s
    ensures v.Number? ==> s != "" && DecimalValue(s) == v.n
    ensures v.Number? && v.n >= 0 ==> forall i | 0 <= i < |s| :: '0' <= s[i] <= '9'
    ensures v.Number? && v.n < 0 ==> s[0] == '-' && forall i | 1 <= i < |s| :: '0' <= s[i] <= '9'
    ensures v.Bool? ==> s == (if v.b then "true" else "false")
    ensures v.Null? || v.Array? || v.Object? ==> s == ""
  {
    match v
    case Str(t) => t
    case Number(n) => Decimal(n)
    case Bool(b) => if b then "true" else "false"
    case _ => ""
  }

  /** Distinct numeric ids are filed under distinct keys. */
  lemma NumberKeysDistinct(m: int, n: int)
    requires m != n
    ensures VariantString(Number(m)) != VariantString(Number(n))
  {
  }

  /** The key a record is filed under: its "id" converted by QVariant::toString. */
  function IdKey(r: Record): string
  {
    VariantString(Get(r, "id"))
  }
}
