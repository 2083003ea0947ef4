/** What the handlers see of the web framework: members of the request's JSON
    body, and the (status, JSON body) pair `jsonify(...), status` returns. */
module Http {
  import opened Models

  /** One member of `request.json`: missing, JSON `null`, or a value. */
  datatype Field<+T> = Absent | Null | Given(value: T)

  /** `data.get(key)`: a missing member and `null` both read as `None`. */
  function Lookup<T>(f: Field<T>): Option<T> {
    if f.Given? then Some(f.value) else None
  }

  /** `data.get(key, default)`: only a missing member falls back to `default`. */
  function LookupOr<T>(f: Field<T>, default: Option<T>): Option<T> {
    match f
    case Absent => default
    case Null => None
    case Given(v) => Some(v)
  }

  /** Python truthiness of an integer member: `None` and `0` are falsy. */
  predicate TruthyInt(f: Field<int>) {
    f.Given? && f.value != 0
  }

  /** Python truthiness of a string member: `None` and `""` are falsy. */
  predicate TruthyText(f: Field<string>) {
    f.Given? && f.value != ""
  }

  datatype Response = Response(status: int, body: Json)

  /** `jsonify({"error": message})`. */
  function ErrorBody(message: string): Json {
    JObject(map["error" := JString(message)])
  }

  /** `jsonify({"message": message})`. */
  function MessageBody(message: string): Json {
    JObject(map["message" := JString(message)])
  }
}
