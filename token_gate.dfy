/** `verifyToken` of middleware/auth.js: the decision a request gets from the
    token gate. Signature and expiry checking (`jwt.verify`) is the oracle
    `verify`, which yields the decoded claims or `None` when it throws. */
module TokenGate {
  import opened Wrappers
  import opened Http
  import opened JsString

  const Scheme: string := "Bearer "

  /** The decoded JWT payload `req.user` is set to. */
  datatype Claims = Claims(id: string, issuedAt: int, expiresAt: int)

  datatype AuthError =
    | NoToken(path: string, verb: string)  // 401 {message: "No authentication token", path, method}
    | InvalidToken                         // 401 {message: "Invalid token"}

  datatype Outcome =
    | Next(user: Option<Claims>)  // `next()` called once; `req.user` set when `user` is `Some`
    | Reject(error: AuthError)    // a 401 response, `next` not called

  /** `header.replace("Bearer ", "")`: the first occurrence of the scheme removed,
      wherever it stands, with case respected. */
  function StripScheme(header: string): string {
    ReplaceFirst(header, Scheme, "")
  }

  /** `req.headers.authorization?.replace("Bearer ", "")`. */
  function Token(req: Request): Option<string> {
    match req.authorization
    case Some(h) => Some(StripScheme(h))
    case None => None
  }

  /** The gate. `next()` runs without a user only for a preflight; every other request
      is either refused or carries the claims the oracle gave for its stripped token. */
  function VerifyToken(req: Request, verify: string -> Option<Claims>): (r: Outcome)
    ensures r == Next(None) <==> req.verb == "OPTIONS"
    ensures r.Next? && req.verb != "OPTIONS" ==>
              Token(req).Some? && r.user.Some? && verify(Token(req).value) == r.user
  {
    if req.verb == "OPTIONS" then Next(None)
    else
      match Token(req)
      case None => Reject(NoToken(req.path, req.verb))
      case Some(token) =>
        if token == "" then Reject(NoToken(req.path, req.verb))
        else
          match verify(token)
          case Some(claims) => Next(Some(claims))
          case None => Reject(InvalidToken)
  }

  /** A header that begins with the scheme loses exactly that prefix. */
  lemma StripLeadingScheme(rest: string)
    ensures StripScheme(Scheme + rest) == rest
  {
    var h := Scheme + rest;
    assert MatchAt(h, Scheme, 0);
    assert h[|Scheme|..] == rest;
  }

  /** Only one prefix is removed: the token of `"Bearer Bearer t"` is `"Bearer t"`,
      the header the client builds when it stores `"Bearer " + token` and then
      prefixes it once more. */
  lemma DoubleScheme(t: string)
    ensures StripScheme(Scheme + Scheme + t) == Scheme + t
  {
    assert Scheme + Scheme + t == Scheme + (Scheme + t);
    StripLeadingScheme(Scheme + t);
  }

  /** The strip is not anchored: the scheme is cut out of the middle of a header too. */
  lemma SchemeNotAnchored()
    ensures StripScheme("xBearer t") == "xt"
  {
    var h := "xBearer t";
    assert !MatchAt(h, Scheme, 0) by { assert h[0..|Scheme|][0] != Scheme[0]; }
    assert MatchAt(h, Scheme, 1);
  }

  /** The strip is case-sensitive: a lower-case scheme stays in the token. */
  lemma SchemeCaseSensitive()
    ensures StripScheme("bearer t") == "bearer t"
  {
    var h := "bearer t";
    assert forall j :: 0 <= j ==> !MatchAt(h, Scheme, j) by {
      forall j | 0 <= j ensures !MatchAt(h, Scheme, j) {
        if j == 0 { assert h[0] != Scheme[0]; }
        else if j == 1 { assert h[1] != Scheme[0]; }
      }
    }
  }

  /** The stripped header is empty exactly for `""` and `"Bearer "`. */
  lemma {:induction false} StripEmptyIff(h: string)
    ensures StripScheme(h) == "" <==> h == "" || h == Scheme
  {
    if h == Scheme {
      assert Scheme + "" == h;
      StripLeadingScheme("");
    }
    match IndexOf(h, Scheme)
    case Some(i) =>
      if StripScheme(h) == "" {
        assert h[..i] + h[i + |Scheme|..] == "";
        assert i == 0 && i + |Scheme| == |h|;
        assert h == h[0..|Scheme|];
      }
    case None =>
  }

  /** Preflight requests pass without the header being read and without `req.user`. */
  lemma OptionsBypass(req: Request, verify: string -> Option<Claims>)
    requires req.verb == "OPTIONS"
    ensures VerifyToken(req, verify) == Next(None)
    ensures forall h :: VerifyToken(req.(authorization := h), verify) == VerifyToken(req, verify)
  {
  }

  /** A request that is not a preflight is refused with "No authentication token",
      echoing its path and method, exactly when the header is absent, empty or just
      the scheme; the oracle is then never consulted. */
  lemma MissingTokenIff(req: Request, verify: string -> Option<Claims>)
    requires req.verb != "OPTIONS"
    ensures VerifyToken(req, verify) == Reject(NoToken(req.path, req.verb)) <==>
              req.authorization.None? || req.authorization.value == "" || req.authorization.value == Scheme
  {
    if req.authorization.Some? {
      StripEmptyIff(req.authorization.value);
    }
  }

  /** `req.user` is set only from claims the oracle returned for the stripped token,
      and `next` is then called. */
  lemma UserOnlyFromOracle(req: Request, verify: string -> Option<Claims>)
    ensures VerifyToken(req, verify).Next? && VerifyToken(req, verify).user.Some? ==>
              req.verb != "OPTIONS" && Token(req).Some? && Token(req).value != "" &&
              verify(Token(req).value) == VerifyToken(req, verify).user
  {
  }

  /** A token the oracle refuses, forged or expired alike, gets "Invalid token" and no `req.user`. */
  lemma RejectedTokenIsInvalid(req: Request, verify: string -> Option<Claims>)
    requires req.verb != "OPTIONS" && Token(req).Some? && Token(req).value != ""
    ensures verify(Token(req).value).None? <==> VerifyToken(req, verify) == Reject(InvalidToken)
  {
  }

  /** The double-prefixed header of the client reaches the oracle still carrying one
      scheme, so a token valid on its own is judged as `"Bearer " + token`. */
  lemma DoubleSchemeReachesOracle(req: Request, t: string, verify: string -> Option<Claims>)
    requires req.verb != "OPTIONS"
    requires req.authorization == Some(Scheme + Scheme + t)
    ensures VerifyToken(req, verify) ==
              match verify(Scheme + t)
              case Some(c) => Next(Some(c))
              case None => Reject(InvalidToken)
  {
    DoubleScheme(t);
  }
}
