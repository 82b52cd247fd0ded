/**
 * The checks `convert_code` makes before it builds a prompt
 * (backend/app.py:40-49): first the configured Groq API key, then the
 * `solidityCode` field of the parsed JSON body. Both use Python
 * truthiness, so an empty string counts as missing.
 */
module ConvertGuard {
  import opened Wrappers
  import opened Text

  /** A parsed JSON request body. Numbers are integers in this model. */
  datatype Json =
    | JNull
    | JBool(b: bool)
    | JNumber(n: int)
    | JString(s: string)
    | JArray(items: seq<Json>)
    | JObject(fields: map<string, Json>)

  /** Python's `bool(v)` for the value JSON decoding produces. */
  predicate Truthy(v: Json) {
    match v
    case JNull => false
    case JBool(b) => b
    case JNumber(n) => n != 0
    case JString(s) => s != []
    case JArray(items) => items != []
    case JObject(fields) => fields != map[]
  }

  /** `if not GROQ_API_KEY`: the key is unset or empty. */
  predicate KeyMissing(apiKey: Option<string>) {
    apiKey.None? || apiKey.value == []
  }

  const KeyNotConfigured: string := "Groq API key is not configured"
  const NoSolidityCode: string := "No Solidity code provided"

  /**
   * What happens to a request before the Groq call:
   *  - Proceed: the guard passes with the value of `solidityCode`;
   *  - Reject: a JSON error response with this status and message;
   *  - Crash: `data.get` raises because the body is not a JSON object, and
   *    the exception escapes the handler (it is outside the `try`).
   */
  datatype Guard =
    | Proceed(solidityCode: Json)
    | Reject(status: int, error: string)
    | Crash

  /**
   * The guard of backend/app.py:40-49 for the configured key `apiKey`
   * and the request body `body`.
   */
  function CheckConvertRequest(apiKey: Option<string>, body: Json): (g: Guard)
    ensures KeyMissing(apiKey) <==> g == Reject(500, KeyNotConfigured)
    ensures g.Crash? <==> !KeyMissing(apiKey) && !body.JObject?
    ensures g == Reject(400, NoSolidityCode) <==>
      !KeyMissing(apiKey) && body.JObject? &&
      ("solidityCode" !in body.fields || !Truthy(body.fields["solidityCode"]))
    ensures g.Proceed? <==>
      !KeyMissing(apiKey) && body.JObject? &&
      "solidityCode" in body.fields && Truthy(body.fields["solidityCode"])
    ensures g.Proceed? ==> g.solidityCode == body.fields["solidityCode"]
  {
    if KeyMissing(apiKey) then Reject(500, KeyNotConfigured)
    else
      match body
      case JObject(fields) =>
        var code := if "solidityCode" in fields then fields["solidityCode"] else JNull;
        if !Truthy(code) then Reject(400, NoSolidityCode) else Proceed(code)
      case _ => Crash
  }

  /** The key is checked first: without it the body is never looked at. */
  lemma KeyCheckedBeforeBody(apiKey: Option<string>, body1: Json, body2: Json)
    requires KeyMissing(apiKey)
    ensures CheckConvertRequest(apiKey, body1) == CheckConvertRequest(apiKey, body2)
    ensures CheckConvertRequest(apiKey, body1).status == 500
  {
  }

  /**
   * With a key, the outcome depends on the body alone: any two configured
   * keys give the same answer.
   */
  lemma BodyDecidesOnceKeyIsSet(key1: string, key2: string, body: Json)
    requires key1 != [] && key2 != []
    ensures CheckConvertRequest(Some(key1), body) == CheckConvertRequest(Some(key2), body)
  {
  }

  /**
   * The backend test is truthiness, not the frontend's trimmed-blank test:
   * a whitespace-only string passes here though the form refuses it.
   */
  lemma WhitespaceCodePasses(key: string, code: string)
    requires key != [] && code != [] && AllSpace(code)
    ensures CheckConvertRequest(Some(key), JObject(map["solidityCode" := JString(code)])) ==
      Proceed(JString(code))
    ensures Trim(code) == []
  {
    TrimEmptyIffAllSpace(code);
  }
}
