/** What the GS1 code sees of an HTTP exchange: a reply with a status and
    a body text, the result of parsing that text as JSON, and the errors a
    handler can catch. `fetch` and `JSON.parse` are foreign, so a reply
    carries its parsed view alongside its text. */
module Http {
  import opened Text

  /** A parsed JSON body, seen through the fields the code reads: the
      truthy string fields, the numeric fields, and `JSON.stringify` of the
      parsed value. */
  datatype Json = NotJson | Object(strings: map<string, string>, numbers: map<string, int>, serialized: string)

  /** `fetch` either threw (a network failure, with the error's message)
      or produced a reply. */
  datatype Reply = NetworkError(message: string) | Reply(status: nat, text: string, json: Json)

  /** `res.ok`: a status in the range 200-299. */
  predicate IsOk(status: nat) {
    200 <= status <= 299
  }

  /** A truthy string field of a parsed body, or "" when it is missing. */
  function Field(j: Json, k: string): (v: string)
    ensures j.Object? && k in j.strings ==> v == j.strings[k]
    ensures j.NotJson? || k !in j.strings ==> v == ""
  {
    if j.Object? && k in j.strings then j.strings[k] else ""
  }

  /** What a `catch` receives: an `Error` with a message the code wrote,
      or one the JavaScript engine wrote (the `SyntaxError` of `JSON.parse`
      and `res.json()`), whose text this model does not fix. */
  datatype Failure = Message(text: string) | EngineError

  /** `${status}` inside a message. */
  function StatusText(status: nat): (s: string)
    ensures s != [] && AllDigits(s)
  {
    NatToString(status)
  }

  /** `a || b`: the first non-empty string, else the second. */
  function Or(a: string, b: string): (r: string)
    ensures a != "" ==> r == a
    ensures a == "" ==> r == b
  {
    if a != "" then a else b
  }
}
