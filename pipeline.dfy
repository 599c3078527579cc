/** The request-pipeline policy of index.js: the CORS origin callback, the
    upload `fileFilter`, the final error handler's status mapping, and the
    order `verifyToken` then `cacheMiddleware(300)` on `/posts` and `/users`.
    Environment variables are the explicit record `Env`. */
module Pipeline {
  import opened Wrappers
  import opened Http
  import opened JsString
  import ResponseCache
  import TokenGate

  datatype Env = Env(nodeEnv: Option<string>, corsAllowedOrigins: Option<string>)

  const DefaultOrigins: seq<string> := [
    "http://localhost:5173",
    "http://localhost:3001",
    "https://connectifysocial.vercel.app",
    "https://connectify-client.vercel.app"
  ]

  /** `CORS_ALLOWED_ORIGINS?.split(",") || [...]`: a set variable is split on commas
      with no trimming; the defaults apply only when it is unset, since `split`
      never yields a falsy (empty) array. */
  function AllowedOrigins(env: Env): (r: seq<string>)
    ensures env.corsAllowedOrigins.None? ==> r == DefaultOrigins
    ensures env.corsAllowedOrigins.Some? ==> |r| >= 1 && Join(r, ',') == env.corsAllowedOrigins.value
    ensures forall k :: 0 <= k < |r| && env.corsAllowedOrigins.Some? ==> ',' !in r[k]
  {
    match env.corsAllowedOrigins
    case Some(s) =>
      Split(s, ',')
    case None => DefaultOrigins
  }

  const CorsMessage: string := "Not allowed by CORS"

  datatype CorsDecision = AllowOrigin | DenyOrigin(message: string)

  /** The `origin` callback of `corsOptions`; `None` is a request without an Origin.
      No Origin or development mode allows; otherwise exactly the listed origins are
      allowed, and every other one gets the CORS message. */
  function CorsOrigin(env: Env, origin: Option<string>): (r: CorsDecision)
    ensures origin.None? || origin == Some("") ==> r == AllowOrigin
    ensures env.nodeEnv == Some("development") ==> r == AllowOrigin
    ensures origin.Some? && origin.value != "" && env.nodeEnv != Some("development") ==>
              (r == AllowOrigin <==> origin.value in AllowedOrigins(env))
    ensures r != AllowOrigin ==> r == DenyOrigin(CorsMessage)
  {
    if origin.None? || origin.value == "" || env.nodeEnv == Some("development") then AllowOrigin
    else if origin.value in AllowedOrigins(env) then AllowOrigin
    else DenyOrigin(CorsMessage)
  }

  /** Entries are compared exactly: with a space after the comma, the second origin
      of the variable is unmatchable. */
  lemma SpaceAfterCommaDenies(first: string, second: string)
    requires ',' !in first && ',' !in second
    requires second != "" && second != first
    ensures CorsOrigin(Env(None, Some(first + ", " + second)), Some(second)) == DenyOrigin(CorsMessage)
  {
    var parts := [first, " " + second];
    assert ',' !in parts[1];
    assert Join(parts, ',') == first + ", " + second;
    SplitJoin(parts, ',');
    assert second != parts[1] by {
      assert |parts[1]| == |second| + 1;
    }
  }

  /** Setting the variable to the empty string allows no origin at all. */
  lemma EmptyVariableAllowsNone(o: string)
    requires o != ""
    ensures CorsOrigin(Env(None, Some("")), Some(o)) == DenyOrigin(CorsMessage)
  {
    SplitJoin([""], ',');
    assert Join([""], ',') == "";
  }

  /** An unset variable allows the four default origins and no other. */
  lemma DefaultsWhenUnset(o: string)
    requires o != ""
    ensures CorsOrigin(Env(None, None), Some(o)) == AllowOrigin <==> o in DefaultOrigins
  {
  }

  const ImageMimePrefix: string := "image/"
  const ImagesOnly: string := "Only images are allowed"

  /** `upload.fileFilter`: `None` accepts the file, `Some(message)` is the error. */
  function FileFilter(mimetype: string): (r: Option<string>)
    ensures r.None? <==> StartsWith(mimetype, ImageMimePrefix)
    ensures r.Some? ==> r.value == ImagesOnly
  {
    if !StartsWith(mimetype, ImageMimePrefix) then Some(ImagesOnly) else None
  }

  /** The check is a case-sensitive prefix test. */
  lemma FileFilterExamples()
    ensures FileFilter("image/png").None?
    ensures FileFilter("Image/png") == Some(ImagesOnly)
    ensures FileFilter("application/pdf") == Some(ImagesOnly)
  {
    assert "image/png"[..6] == ImageMimePrefix;
    assert "Image/png"[0] != ImageMimePrefix[0];
    assert "application/pdf"[0] != ImageMimePrefix[0];
  }

  /** An error reaching the last handler; a status of 0 or none is falsy alike. */
  datatype Error = Error(message: string, status: Option<int>)

  datatype ErrorResponse = ErrorResponse(status: int, error: string, message: Option<string>)

  const CorsErrorResponse: ErrorResponse := ErrorResponse(403, "CORS Error", Some("Origin not allowed"))

  /** The final error handler. */
  function ClassifyError(err: Error): (r: ErrorResponse)
    ensures Includes(err.message, "CORS") ==> r == CorsErrorResponse
    ensures !Includes(err.message, "CORS") ==>
              && r.message.None?
              && (r.status == if err.status.None? || err.status == Some(0) then 500 else err.status.value)
              && (r.error == if err.message == "" then "Internal Server Error" else err.message)
  {
    if Includes(err.message, "CORS") then CorsErrorResponse
    else
      var status := if err.status.None? || err.status.value == 0 then 500 else err.status.value;
      var error := if err.message == "" then "Internal Server Error" else err.message;
      ErrorResponse(status, error, None)
  }

  /** A denied origin reaches the client as 403, never as the 500 of other errors. */
  lemma CorsDenialIs403(env: Env, origin: Option<string>)
    requires CorsOrigin(env, origin).DenyOrigin?
    ensures ClassifyError(Error(CorsOrigin(env, origin).message, None)) == CorsErrorResponse
  {
    IncludesAt(CorsMessage, "CORS", 15);
  }

  /** A refused upload carries no status and becomes a 500 with the filter's message. */
  lemma UploadRejectionIs500(mimetype: string)
    requires FileFilter(mimetype).Some?
    ensures ClassifyError(Error(FileFilter(mimetype).value, None)) == ErrorResponse(500, ImagesOnly, None)
  {
    assert !Includes(ImagesOnly, "CORS") by {
      forall j | 0 <= j ensures !MatchAt(ImagesOnly, "CORS", j) {
        if j + 4 <= |ImagesOnly| {
          assert ImagesOnly[j..j + 4][0] != 'C' || ImagesOnly[j..j + 4][1] != 'O';
        }
      }
    }
  }

  /** `cacheMiddleware(300)` on `/posts` and `/users`: 300 milliseconds. */
  const RouteTtl: int := 300

  datatype Served =
    | Unauthorized(error: TokenGate.AuthError)  // the 401 of `verifyToken`
    | Cached(step: ResponseCache.Step)           // what `cacheMiddleware` decided

  /** `verifyToken` and then `cacheMiddleware(300)`, as mounted on `/posts` and `/users`. */
  function Protected(m: map<string, ResponseCache.Entry>, req: Request, now: int,
                     verify: string -> Option<TokenGate.Claims>): Served
  {
    match TokenGate.VerifyToken(req, verify)
    case Reject(e) => Unauthorized(e)
    case Next(_) => Cached(ResponseCache.Decide(m, req, now))
  }

  /** A request the gate refuses never reaches the cache; one it admits sees exactly
      the cache's own decision. */
  lemma GateBeforeCache(m: map<string, ResponseCache.Entry>, req: Request, now: int,
                        verify: string -> Option<TokenGate.Claims>)
    ensures TokenGate.VerifyToken(req, verify).Reject? <==> Protected(m, req, now, verify).Unauthorized?
    ensures Protected(m, req, now, verify).Unauthorized? ==>
              forall m' :: Protected(m', req, now, verify) == Protected(m, req, now, verify)
    ensures Protected(m, req, now, verify).Cached? ==>
              Protected(m, req, now, verify).step == ResponseCache.Decide(m, req, now)
  {
  }

  /** Once any admitted user's GET has filled the entry for a URL, every other admitted
      user's GET of that URL within 300 ms gets the same body, whatever its token says. */
  lemma SharedAcrossAdmittedUsers(m: map<string, ResponseCache.Entry>, first: Request, other: Request,
                                  body: Body, t0: int, t: int, verify: string -> Option<TokenGate.Claims>)
    requires first.verb == "GET" && other.verb == "GET" && other.originalUrl == first.originalUrl
    requires TokenGate.VerifyToken(other, verify).Next?
    requires t0 <= t < t0 + RouteTtl
    ensures var m' := ResponseCache.Stored(m, ResponseCache.CacheKey(first.originalUrl), body, t0, RouteTtl);
            Protected(m', other, t, verify) == Cached(ResponseCache.Hit(body))
  {
    ResponseCache.ServedUntilExpiry(m, other, body, t0, RouteTtl, t);
  }

  /** A route entry written at `t0` is a miss from `t0 + 300` on. */
  lemma RouteEntryExpires(m: map<string, ResponseCache.Entry>, req: Request, body: Body, t0: int, t: int,
                          verify: string -> Option<TokenGate.Claims>)
    requires req.verb == "GET" && TokenGate.VerifyToken(req, verify).Next?
    requires t >= t0 + RouteTtl
    ensures var key := ResponseCache.CacheKey(req.originalUrl);
            Protected(ResponseCache.Stored(m, key, body, t0, RouteTtl), req, t, verify) ==
              Cached(ResponseCache.Miss(key))
  {
    ResponseCache.ServedUntilExpiry(m, req, body, t0, RouteTtl, t);
  }

  /** The two middlewares run in sequence against the live cache; neither writes it. */
  method ServeProtected(cache: ResponseCache.Cache, req: Request, now: int,
                        verify: string -> Option<TokenGate.Claims>) returns (served: Served)
    ensures served == Protected(cache.entries, req, now, verify)
    ensures served.Cached? ==> TokenGate.VerifyToken(req, verify).Next?
  {
    var outcome := TokenGate.VerifyToken(req, verify);
    if outcome.Reject? {
      return Unauthorized(outcome.error);
    }
    var step := cache.Handle(req, now);
    served := Cached(step);
  }
}
