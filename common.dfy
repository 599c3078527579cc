/** Option for values JavaScript leaves `undefined`, and the request shape shared by the middleware. */
module Wrappers {

  datatype Option<+T> = None | Some(value: T) {
    function GetOr(default: T): T {
      match this
      case Some(v) => v
      case None => default
    }
  }
}

module Http {
  import opened Wrappers

  /** The parts of an Express request the core reads: `req.method` (here `verb`), `req.path`,
      `req.originalUrl` (path plus query string) and the `Authorization` header. */
  datatype Request = Request(
    verb: string,
    path: string,
    originalUrl: string,
    authorization: Option<string>)

  /** The response body a handler passes to `res.json`, kept as its serialized text. */
  type Body = string
}
