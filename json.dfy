/**
 * Values as Python's `json` module produces them, and the two Python operations the
 * workflow applies to them: truthiness (`x or {}`) and the decode-or-`raw` fallback.
 */
module Json {
  import opened Wrappers

  /** A decoded JSON value; `JNull` is Python's `None`. Numbers are integers here. */
  datatype Json =
    | JNull
    | JBool(b: bool)
    | JNum(n: int)
    | JStr(s: string)
    | JArr(items: seq<Json>)
    | JObj(fields: map<string, Json>)

  /** Python truthiness: `x or {}` keeps `x` exactly when this holds. */
  predicate Truthy(j: Json) {
    match j
    case JNull => false
    case JBool(b) => b
    case JNum(n) => n != 0
    case JStr(s) => s != ""
    case JArr(items) => items != []
    case JObj(fields) => fields != map[]
  }

  /** Python's `j == n` for an integer `n` (`False == 0` and `True == 1` hold in Python). */
  predicate EqualsInt(j: Json, n: int) {
    j == JNum(n) || (n == 0 && j == JBool(false)) || (n == 1 && j == JBool(true))
  }

  /** `json.loads` as an uninterpreted partial decoder: `None` stands for `JSONDecodeError`. */
  type Decoder = string -> Option<Json>

  /** A decoder that never yields JSON `null` (Python `None`). */
  ghost predicate NeverNull(decode: Decoder) {
    forall s :: decode(s) != Some(JNull)
  }

  /** A decoder whose every successful result is a JSON object. */
  ghost predicate ObjectsOnly(decode: Decoder) {
    forall s :: decode(s).Some? ==> decode(s).value.JObj?
  }

  /** The degraded record `{"raw": text}` stored when the text does not decode. */
  function Raw(text: string): Json {
    JObj(map["raw" := JStr(text)])
  }

  /**
   * `try: json.loads(text) except JSONDecodeError: {"raw": text}`: the decoded value, unchecked,
   * or the text wrapped under the single key "raw"; it never fails.
   */
  function DecodeOrRaw(decode: Decoder, text: string): (r: Json)
    ensures decode(text).Some? ==> r == decode(text).value
    ensures decode(text).None? ==> r.JObj? && r.fields.Keys == {"raw"} && r.fields["raw"] == JStr(text)
    ensures NeverNull(decode) ==> r != JNull
    ensures ObjectsOnly(decode) ==> r.JObj?
  {
    match decode(text)
    case Some(v) => v
    case None => Raw(text)
  }

}
