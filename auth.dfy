/**
 * authMiddleware: reads the `authorization` header, takes the token with
 * `split("Bearer ")[1]`, validates it, and either records the decoded token as `req.user`
 * and returns null, or returns one of three 401 responses. It never throws.
 */
module Auth {
  import opened Wrappers
  import opened JsStrings
  import opened Http
  import opened FirebaseToken
  import opened Middleware

  const BearerSeparator := "Bearer "

  /** `header.split("Bearer ")[1]`; None stands for `undefined`. */
  function BearerToken(header: string): Option<string> {
    var parts := Split(header, BearerSeparator);
    if |parts| >= 2 then Some(parts[1]) else None
  }

  /** `split(...)[1]` is undefined exactly when "Bearer " does not occur in the header. */
  lemma BearerTokenAbsent(header: string)
    ensures BearerToken(header).None? <==> !Contains(header, BearerSeparator)
  {
    var parts := Split(header, BearerSeparator);
    if |parts| == 1 {
      assert Join(parts, BearerSeparator) == parts[0];
    } else {
      var j := |parts[0]|;
      assert header == parts[0] + BearerSeparator + Join(parts[1..], BearerSeparator);
      assert header[j..j + |BearerSeparator|] == BearerSeparator;
      assert OccursAt(header, BearerSeparator, j);
    }
  }

  /** `token` is the text of `header` after its first "Bearer " (found by `indexOf`, and
      preceded by `before`), up to the next "Bearer " or the end; neither holds "Bearer ". */
  predicate TokenAfterFirstSeparator(header: string, before: string, token: string) {
    var after := |before| + |BearerSeparator| + |token|;
    && after <= |header|
    && header[..after] == before + BearerSeparator + token
    && IndexOf(header, BearerSeparator) == Some(|before|)
    && !Contains(before, BearerSeparator) && !Contains(token, BearerSeparator)
    && (after == |header| || OccursAt(header, BearerSeparator, after))
  }

  /** The token is the text after the first "Bearer " (which need not start the header), up to
      the next "Bearer " or the end; it never contains "Bearer " itself. */
  lemma BearerTokenLocation(header: string)
    requires BearerToken(header).Some?
    ensures TokenAfterFirstSeparator(header, Split(header, BearerSeparator)[0], BearerToken(header).value)
  {
    var parts := Split(header, BearerSeparator);
    assert BearerToken(header).value == parts[1];
    LocateSecondPiece(header, parts);
  }

  lemma LocateSecondPiece(header: string, parts: seq<string>)
    requires |parts| >= 2 && Join(parts, BearerSeparator) == header
    requires IndexOf(header, BearerSeparator) == Some(|parts[0]|)
    requires !Contains(parts[0], BearerSeparator) && !Contains(parts[1], BearerSeparator)
    ensures TokenAfterFirstSeparator(header, parts[0], parts[1])
  {
    JoinSecondPiece(parts, BearerSeparator, header);
  }

  /** Where the second of the joined parts lies: right after the first part and one separator,
      and followed by the end of the string or by the next separator. */
  lemma JoinSecondPiece(parts: seq<string>, sep: string, s: string)
    requires |parts| >= 2 && Join(parts, sep) == s
    ensures var after := |parts[0]| + |sep| + |parts[1]|;
            && after <= |s|
            && s[..after] == parts[0] + sep + parts[1]
            && (after == |s| || OccursAt(s, sep, after))
  {
    var tailRest := if |parts| == 2 then "" else sep + Join(parts[2..], sep);
    assert parts[1..][0] == parts[1] && parts[1..][1..] == parts[2..];
    assert Join(parts[1..], sep) == parts[1] + tailRest;
    var prefix := parts[0] + sep + parts[1];
    assert s == prefix + tailRest;
    ConcatSlices(prefix, tailRest);
    if |parts| > 2 {
      ConcatSlices(sep, Join(parts[2..], sep));
      assert s[|prefix|..][..|sep|] == sep;
      assert s[|prefix|..|prefix| + |sep|] == sep;
    }
  }

  lemma ConcatSlices(a: string, b: string)
    ensures (a + b)[..|a|] == a && (a + b)[|a|..] == b
  {
  }

  /** A header of the standard form "Bearer <token>" yields that token. */
  lemma StandardHeaderYieldsToken(token: string)
    requires !Contains(token, BearerSeparator)
    ensures BearerToken(BearerSeparator + token) == Some(token)
  {
    var header := BearerSeparator + token;
    assert OccursAt(header, BearerSeparator, 0) by {
      assert header[0..|BearerSeparator|] == BearerSeparator;
    }
    assert IndexOf(header, BearerSeparator) == Some(0);
    assert header[|BearerSeparator|..] == token;
    assert header[..0] == [];
    assert IndexOf(token, BearerSeparator).None?;
    assert Split(token, BearerSeparator) == [token];
    assert Split(header, BearerSeparator) == [""] + Split(token, BearerSeparator);
  }

  datatype AuthResult = Authenticated(user: DecodedToken) | Unauthorized(response: Response)

  const NoTokenResponse := TextResponse(401, "No token provided")
  const InvalidFormatResponse := TextResponse(401, "Invalid token format")
  const InvalidTokenResponse := TextResponse(401, "Invalid or expired token")

  /** The decision authMiddleware takes for a given `authorization` header value. */
  function Authenticate(authorization: Option<string>, testToken: Option<string>,
                        verify: string -> Outcome<DecodedToken>): (r: AuthResult)
    ensures !Truthy(authorization) ==> r == Unauthorized(NoTokenResponse)
    ensures Truthy(authorization) && !Truthy(BearerToken(authorization.value)) ==>
              r == Unauthorized(InvalidFormatResponse)
    ensures r.Unauthorized? ==> r.response in {NoTokenResponse, InvalidFormatResponse, InvalidTokenResponse}
    ensures r.Unauthorized? && r.response == InvalidTokenResponse <==>
              Truthy(authorization) && Truthy(BearerToken(authorization.value))
              && ValidateToken(BearerToken(authorization.value).value, testToken, verify).Threw?
    ensures r.Authenticated? <==>
              Truthy(authorization) && Truthy(BearerToken(authorization.value))
              && ValidateToken(BearerToken(authorization.value).value, testToken, verify).Returned?
    ensures r.Authenticated? ==>
              ValidateToken(BearerToken(authorization.value).value, testToken, verify) == Returned(r.user)
  {
    if !Truthy(authorization) then Unauthorized(NoTokenResponse)
    else
      var token := BearerToken(authorization.value);
      if !Truthy(token) then Unauthorized(InvalidFormatResponse)
      else match ValidateToken(token.value, testToken, verify)
        case Returned(decoded) => Authenticated(decoded)
        case Threw(_) => Unauthorized(InvalidTokenResponse)
  }

  /** Without a usable token the verifier is never consulted: the decision is the same whatever
      it would say. */
  lemma NoTokenMeansNoVerification(authorization: Option<string>, testToken: Option<string>,
                                   verify1: string -> Outcome<DecodedToken>, verify2: string -> Outcome<DecodedToken>)
    requires !Truthy(authorization) || !Truthy(BearerToken(authorization.value))
    ensures Authenticate(authorization, testToken, verify1) == Authenticate(authorization, testToken, verify2)
  {
  }

  /** The request as the handlers see it (the other request fields are not modelled). */
  datatype RequestState = RequestState(authorization: Option<string>, query: Option<string>, user: Option<DecodedToken>)

  /** authMiddleware as a step of the route wrapper: it never throws, returns null and records
      the user when authenticated, and otherwise returns the 401 and leaves the request as it was. */
  function AuthStep(s: RequestState, testToken: Option<string>, verify: string -> Outcome<DecodedToken>)
    : (run: Run<RequestState, Option<Response>>)
    ensures run.outcome.Returned?
    ensures run.state.authorization == s.authorization && run.state.query == s.query
    ensures run.outcome.value.None? <==> Authenticate(s.authorization, testToken, verify).Authenticated?
    ensures run.outcome.value.None? ==> run.state.user == Some(Authenticate(s.authorization, testToken, verify).user)
    ensures run.outcome.value.Some? ==>
              run.state == s && run.outcome.value == Some(Authenticate(s.authorization, testToken, verify).response)
  {
    match Authenticate(s.authorization, testToken, verify)
    case Authenticated(decoded) => Run(Returned(None), s.(user := Some(decoded)))
    case Unauthorized(response) => Run(Returned(Some(response)), s)
  }

  /** The request object: its header and query are fixed, `user` is set by the middleware. */
  class Request {
    const authorization: Option<string>
    const query: Option<string>
    var user: Option<DecodedToken>

    constructor (authorization: Option<string>, query: Option<string>)
      ensures this.authorization == authorization && this.query == query && user == None
    {
      this.authorization := authorization;
      this.query := query;
      user := None;
    }

    function Snapshot(): RequestState
      reads this
    {
      RequestState(authorization, query, user)
    }
  }

  /** authMiddleware(req): returns null (None) or a 401 response, and assigns `req.user` only on success. */
  method AuthMiddleware(req: Request, testToken: Option<string>, verify: string -> Outcome<DecodedToken>)
    returns (response: Option<Response>)
    modifies req
    ensures Run(Returned(response), req.Snapshot()) == AuthStep(old(req.Snapshot()), testToken, verify)
  {
    var result := Authenticate(req.authorization, testToken, verify);
    match result
    case Authenticated(decoded) =>
      req.user := Some(decoded);
      response := None;
    case Unauthorized(r) =>
      response := Some(r);
  }
}
