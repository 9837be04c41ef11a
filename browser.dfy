/** What the frontend components see of the browser: `localStorage` as a
    string map, the current route that `navigate` changes, and the messages
    `alert` showed. A request is not modelled; its awaited outcome is an input. */
module Browser {
  import opened Wrappers

  /** The outcome of awaiting `fetch(...)` and `response.json()`: a response
      with its `ok` flag and the string fields of its JSON body, or the
      message of the error thrown on the way (network failure, a body that
      is not JSON). */
  datatype HttpReply = Response(ok: bool, body: map<string, string>) | Failure(message: string)

  /** `data.key || fallback`: the field when present and non-empty, else the fallback. */
  function FieldOr(body: map<string, string>, key: string, fallback: string): string {
    if key in body && body[key] != "" then body[key] else fallback
  }

  /** A field of the body as JavaScript turns it into a string: a missing
      field is `undefined`, and `localStorage.setItem` stores it as "undefined". */
  function FieldText(body: map<string, string>, key: string): string {
    if key in body then body[key] else "undefined"
  }

  /** The browser window shared by the components. */
  class Window {
    var storage: map<string, string>
    var route: string
    var alerts: seq<string>

    constructor (storage: map<string, string>, route: string)
      ensures this.storage == storage && this.route == route && alerts == []
    {
      this.storage := storage;
      this.route := route;
      alerts := [];
    }
  }
}
