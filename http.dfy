/** What the function handlers receive and answer: HTTP responses and request bodies. */
module FunctionsHttp {
  import opened Wrappers
  import Text
  import Int32

  /** The handlers' responses: `HttpJson.OK`/`Created` with a body, `Bad` and `NotFound` with a
      message, and an exception that escapes the handler (the host answers 500). */
  datatype Response<T> =
    | Ok(body: T)
    | Created(body: T)
    | BadRequest(message: string)
    | NotFound(message: string)
    | Unhandled(message: string)

  /** A JSON request body after deserialisation: it did not parse, it was the literal `null`,
      or it gave a value. */
  datatype Json<T> = Malformed(message: string) | Null | Value(value: T)

  /** `Dictionary<string, object>` read from a JSON object: each property's `ToString()`,
      None for a JSON null. Keys are case-sensitive. */
  type Fields = map<string, Option<string>>

  /** `body.TryGetValue(key, out v) ? v?.ToString() : null` */
  function TextField(f: Fields, key: string): Option<string> {
    if key in f then f[key] else None
  }

  /** `body.TryGetValue(key, out v) && int.TryParse(v?.ToString(), out n)` gives n */
  function IntField(f: Fields, key: string): Option<Int32.int32> {
    if key in f then Text.ParseInt32(f[key]) else None
  }

  /** `body.TryGetValue(key, out v) && double.TryParse(v?.ToString(), out x)` gives x */
  function RealField(f: Fields, key: string): Option<real> {
    if key in f then Text.ParseReal(f[key]) else None
  }
}
