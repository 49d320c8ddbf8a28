/**
 * The JSON tree the registry persists and the audit log writes, with the Gson accessors
 * the code reads it back through. An accessor that would throw is None.
 */
module Json {
  import opened Wrappers
  import opened JavaText

  /**
   * A JSON value. Whole numbers and fractional numbers are kept apart because the code
   * only writes ints and longs, except for the nearby-player distance (a double). A
   * fractional number keeps its text as well as its value, since Gson's `getAsString`
   * hands back that text.
   */
  datatype Json =
    | JNull
    | JBool(b: bool)
    | JInt(i: int)
    | JReal(r: real, text: string)
    | JString(s: string)
    | JArray(items: seq<Json>)
    | JObject(fields: map<string, Json>)

  /** The integer part of a real, rounded toward zero as BigDecimal.intValue does. */
  function TruncReal(r: real): (i: int)
    ensures r >= 0.0 ==> i as real <= r < i as real + 1.0
    ensures r < 0.0 ==> i as real - 1.0 < r <= i as real
  {
    if r >= 0.0 then r.Floor else -((-r).Floor)
  }

  /**
   * `getAsString`: a string is itself, a whole number its decimal text, a fractional number
   * its own text, a boolean "true" or "false", and a one-element array its element's string.
   * Null, objects and other arrays give None.
   */
  function AsString(j: Json): (r: Option<string>)
    ensures j.JString? ==> r == Some(j.s)
    ensures j.JInt? ==> r == Some(Dec(j.i))
    ensures j.JReal? ==> r == Some(j.text)
    ensures j.JBool? ==> r == Some(if j.b then "true" else "false")
    ensures j.JNull? || j.JObject? ==> r.None?
  {
    match j
    case JString(s) => Some(s)
    case JInt(i) => Some(Dec(i))
    case JReal(_, t) => Some(t)
    case JBool(b) => Some(if b then "true" else "false")
    case JArray(items) => if |items| == 1 then AsString(items[0]) else None
    case _ => None
  }

  /** `Boolean.parseBoolean`: exactly "true", ignoring ASCII case. */
  predicate ParseBoolean(s: string) {
    AsciiLower(s) == "true"
  }

  /**
   * `getAsBoolean`: a boolean is itself; any other primitive is `Boolean.parseBoolean` of its
   * string form, so the number 1 reads as false; a one-element array reads its element.
   */
  function AsBool(j: Json): (r: Option<bool>)
    ensures j.JBool? ==> r == Some(j.b)
    ensures j.JString? ==> r == Some(ParseBoolean(j.s))
    ensures j.JInt? ==> r == Some(false)
    ensures j.JReal? && |j.text| > 0 && (j.text[0] == '-' || '0' <= j.text[0] <= '9') ==> r == Some(false)
    ensures j.JNull? || j.JObject? ==> r.None?
  {
    match j
    case JBool(b) => Some(b)
    case JString(s) => Some(ParseBoolean(s))
    case JReal(_, t) => Some(ParseBoolean(t))
    case JInt(i) =>
      assert Dec(i)[0] == '-' || '0' <= Dec(i)[0] <= '9';
      assert AsciiLower(Dec(i))[0] != 't';
      Some(false)
    case JArray(items) => if |items| == 1 then AsBool(items[0]) else None
    case _ => None
  }

  /**
   * `getAsInt`: a number keeps its low 32 bits (a fraction is first cut toward zero); a string
   * goes through `Integer.parseInt`; a one-element array reads its element.
   */
  function AsInt(j: Json): (r: Option<Int32>)
    ensures j.JInt? ==> r == Some(Wrap32(j.i))
    ensures j.JNull? || j.JObject? || j.JBool? ==> r.None?
  {
    match j
    case JInt(i) => Some(Wrap32(i))
    case JReal(x, _) => Some(Wrap32(TruncReal(x)))
    case JString(s) => ParseInt(s, 10)
    case JBool(b) => ParseInt(if b then "true" else "false", 10)
    case JArray(items) => if |items| == 1 then AsInt(items[0]) else None
    case _ => None
  }

  /** `getAsLong`: as `getAsInt` with 64 bits. */
  function AsLong(j: Json): (r: Option<Int64>)
    ensures j.JInt? ==> r == Some(Wrap64(j.i))
    ensures j.JNull? || j.JObject? || j.JBool? ==> r.None?
  {
    match j
    case JInt(i) => Some(Wrap64(i))
    case JReal(x, _) => Some(Wrap64(TruncReal(x)))
    case JString(s) => ParseLong(s, 10)
    case JBool(b) => ParseLong(if b then "true" else "false", 10)
    case JArray(items) => if |items| == 1 then AsLong(items[0]) else None
    case _ => None
  }

  /** `getAsDouble` on numbers (and one-element arrays of them); text is not converted here. */
  function AsReal(j: Json): (r: Option<real>)
    ensures j.JInt? ==> r == Some(j.i as real)
    ensures j.JReal? ==> r == Some(j.r)
  {
    match j
    case JInt(i) => Some(i as real)
    case JReal(x, _) => Some(x)
    case JArray(items) => if |items| == 1 then AsReal(items[0]) else None
    case _ => None
  }
}
