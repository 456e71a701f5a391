/**
 * The `verifyToken` middleware: reads the Authorization header, strips an
 * optional case-insensitive "bearer" prefix, hands the token to the token
 * library and either attaches the decoded claims and passes control on, or
 * answers the request itself.
 */
module AuthMiddleware {
  import opened Common
  import opened Jwt
  import opened JsString

  /** What the header yields before the token library is consulted. */
  datatype HeaderToken =
    | NoToken            // header absent or the empty string
    | EmptyBearer        // "bearer" prefix with nothing but whitespace after the 7th character
    | Token(token: string)

  /** The string passed to `jwt.verify`, or why there is none. */
  function ParseAuthorization(header: Option<string>): (r: HeaderToken)
    ensures r.Token? ==> r.token != []
  {
    match header
    case None => NoToken
    case Some(h) =>
      if h == [] then NoToken
      else if StartsWithBearer(h) then
        var t := Trim(Slice(h, 7));
        if t == [] then EmptyBearer else Token(t)
      else Token(h)
  }

  /** A six-letter spelling of "bearer" in any mix of cases. */
  predicate IsBearerSpelling(scheme: string) {
    |scheme| == 6 && StartsWithBearer(scheme)
  }

  /** The characters of a b64token in section 2.1 of RFC 6750. */
  predicate IsB64TokenChar(c: char) {
    ('A' <= c <= 'Z') || ('a' <= c <= 'z') || ('0' <= c <= '9')
    || c == '-' || c == '.' || c == '_' || c == '~' || c == '+' || c == '/' || c == '='
  }

  /**
   * A b64token: `1*( ALPHA / DIGIT / "-" / "." / "_" / "~" / "+" / "/" ) *"="`,
   * so at least one character is not `=` and the `=` signs form a trailing run.
   */
  predicate IsB64Token(t: string) {
    && t != [] && t[0] != '='
    && (forall i :: 0 <= i < |t| ==> IsB64TokenChar(t[i]))
    && (forall i, j :: 0 <= i < j < |t| && t[i] == '=' ==> t[j] == '=')
  }

  /** The header a client sends in the form of section 2.1 of RFC 6750. */
  function BearerHeader(token: string): (r: string) {
    "Bearer " + token
  }

  /** The middleware's decision: continue with the claims, or answer with an error. */
  datatype Decision = Proceed(claims: Claims) | Reject(reply: Reply)

  /** What `verifyToken` decides for a header, a secret and the token library. */
  function Guard(header: Option<string>, secret: string, verify: Verifier): (d: Decision) {
    match ParseAuthorization(header)
    case NoToken => Reject(Reply(400, "No token provided"))
    case EmptyBearer => Reject(Reply(400, "Invalid Bearer Token"))
    case Token(t) =>
      match verify(t, secret)
      case Decoded(claims) => Proceed(claims)
      case VerifyThrew(m) => Reject(Reply(500, m))
  }

  // ---------------------------------------------------------------------------
  // Properties of the header parser

  /** A missing or empty header, and only that, gives "No token provided". */
  lemma ParseMissingIff(header: Option<string>)
    ensures ParseAuthorization(header) == NoToken <==> (header == None || header == Some([]))
  {
  }

  /**
   * Any spelling of "bearer", one arbitrary separator character, any
   * whitespace and a trimmed token: the token comes out unchanged.
   */
  lemma ParseBearerRoundTrip(scheme: string, sep: char, ws: string, token: string)
    requires IsBearerSpelling(scheme)
    requires AllWhitespace(ws)
    requires token != [] && IsTrimmed(token)
    ensures ParseAuthorization(Some(scheme + [sep] + ws + token)) == Token(token)
  {
    var h := scheme + [sep] + ws + token;
    assert h[..6] == scheme;
    assert Slice(h, 7) == ws + token;
    TrimAfterWhitespace(ws, token);
  }

  /** A header of the RFC 6750 form yields exactly its token. */
  lemma ParseBearerHeader(token: string)
    requires IsB64Token(token)
    ensures ParseAuthorization(Some(BearerHeader(token))) == Token(token)
  {
    assert !IsJsWhitespace(token[0]) && !IsJsWhitespace(token[|token| - 1]) by {
      assert IsB64TokenChar(token[0]) && IsB64TokenChar(token[|token| - 1]);
    }
    assert BearerHeader(token) == "Bearer" + [' '] + [] + token;
    ParseBearerRoundTrip("Bearer", ' ', [], token);
  }

  /** With the prefix, the remainder is empty exactly when everything after the 7th character is whitespace. */
  lemma ParseEmptyBearerIff(h: string)
    ensures ParseAuthorization(Some(h)) == EmptyBearer
        <==> (h != [] && StartsWithBearer(h) && AllWhitespace(Slice(h, 7)))
  {
    TrimEmptyIff(Slice(h, 7));
  }

  /**
   * With the prefix, the token is what lies after the first 7 characters once
   * surrounding whitespace is removed; it has no whitespace at either end.
   */
  lemma ParsePrefixedShape(h: string) returns (lead: string, trail: string)
    requires StartsWithBearer(h) && ParseAuthorization(Some(h)).Token?
    ensures |h| > 7
    ensures h[7..] == lead + ParseAuthorization(Some(h)).token + trail
    ensures AllWhitespace(lead) && AllWhitespace(trail)
    ensures IsTrimmed(ParseAuthorization(Some(h)).token)
  {
    var rest := Slice(h, 7);
    assert Trim(rest) == ParseAuthorization(Some(h)).token;
    assert rest != [];
    assert rest == h[7..];
    lead, trail := TrimDecompose(rest);
  }

  /** Without the prefix, the header goes to `jwt.verify` as it is, untrimmed. */
  lemma ParseBareUnchanged(h: string)
    requires h != [] && !StartsWithBearer(h)
    ensures ParseAuthorization(Some(h)) == Token(h)
  {
  }

  /** Worked headers: the prefix test ignores case and looks at six characters only. */
  lemma ParseExampleBearer()
    ensures ParseAuthorization(Some("Bearer abc")) == Token("abc")
  {
    assert IsTrimmed("abc");
    assert IsBearerSpelling("Bearer");
    assert "Bearer" + [' '] + [] + "abc" == "Bearer abc";
    ParseBearerRoundTrip("Bearer", ' ', [], "abc");
  }

  lemma ParseExampleUpperCase()
    ensures ParseAuthorization(Some("BEARER abc")) == Token("abc")
  {
    assert IsTrimmed("abc");
    assert IsBearerSpelling("BEARER");
    assert "BEARER" + [' '] + [] + "abc" == "BEARER abc";
    ParseBearerRoundTrip("BEARER", ' ', [], "abc");
  }

  lemma ParseExampleNoSeparator()
    ensures ParseAuthorization(Some("bearerxyz")) == Token("yz")
  {
    assert IsTrimmed("yz");
    assert IsBearerSpelling("bearer");
    assert "bearer" + ['x'] + [] + "yz" == "bearerxyz";
    ParseBearerRoundTrip("bearer", 'x', [], "yz");
  }

  /** Worked headers: a bare prefix, or one followed by spaces only, is malformed. */
  lemma ParseExampleBarePrefix()
    ensures ParseAuthorization(Some("Bearer")) == EmptyBearer
  {
    assert Slice("Bearer", 7) == [];
    ParseEmptyBearerIff("Bearer");
  }

  lemma ParseExampleSpacesOnly()
    ensures ParseAuthorization(Some("Bearer   ")) == EmptyBearer
  {
    assert Slice("Bearer   ", 7) == "  ";
    assert AllWhitespace("  ");
    ParseEmptyBearerIff("Bearer   ");
  }

  /** A leading space defeats the prefix test, and the header goes to the library untrimmed. */
  lemma ParseExampleLeadingSpace()
    ensures ParseAuthorization(Some(" Bearer abc")) == Token(" Bearer abc")
  {
    assert !StartsWithBearer(" Bearer abc");
  }

  // ---------------------------------------------------------------------------
  // Properties of the decision

  /** No header, or an empty one: a client error, whatever the token library would do. */
  lemma GuardMissingHeader(header: Option<string>, secret: string, verify: Verifier)
    requires header == None || header == Some([])
    ensures Guard(header, secret, verify) == Reject(Reply(400, "No token provided"))
  {
  }

  /** A prefix followed by whitespace only: a client error, whatever the token library would do. */
  lemma GuardEmptyBearer(h: string, secret: string, verify: Verifier)
    requires StartsWithBearer(h) && AllWhitespace(Slice(h, 7))
    ensures Guard(Some(h), secret, verify) == Reject(Reply(400, "Invalid Bearer Token"))
  {
    ParseEmptyBearerIff(h);
  }

  /** When the header yields no token, the token library is not consulted. */
  lemma GuardIgnoresVerifier(header: Option<string>, secret: string, v1: Verifier, v2: Verifier)
    requires !ParseAuthorization(header).Token?
    ensures Guard(header, secret, v1) == Guard(header, secret, v2)
  {
  }

  /** The token library is consulted only on the extracted token and the secret. */
  lemma GuardConsultsTokenOnly(header: Option<string>, secret: string, v1: Verifier, v2: Verifier)
    requires ParseAuthorization(header).Token?
    requires v1(ParseAuthorization(header).token, secret) == v2(ParseAuthorization(header).token, secret)
    ensures Guard(header, secret, v1) == Guard(header, secret, v2)
  {
  }

  /** The request proceeds exactly when there is a token and it verifies, and then with its claims. */
  lemma GuardProceedIff(header: Option<string>, secret: string, verify: Verifier)
    ensures Guard(header, secret, verify).Proceed?
        <==> (ParseAuthorization(header).Token? && verify(ParseAuthorization(header).token, secret).Decoded?)
    ensures Guard(header, secret, verify).Proceed?
        ==> Guard(header, secret, verify).claims == verify(ParseAuthorization(header).token, secret).claims
  {
  }

  /** Status 500 arises exactly when the token library throws, and carries its message. */
  lemma GuardServerFaultIff(header: Option<string>, secret: string, verify: Verifier)
    ensures (Guard(header, secret, verify).Reject? && Guard(header, secret, verify).reply.status == 500)
        <==> (ParseAuthorization(header).Token? && verify(ParseAuthorization(header).token, secret).VerifyThrew?)
    ensures Guard(header, secret, verify).Reject? && Guard(header, secret, verify).reply.status != 500
        ==> Guard(header, secret, verify).reply.status == 400
    ensures ParseAuthorization(header).Token? && verify(ParseAuthorization(header).token, secret).VerifyThrew?
        ==> Guard(header, secret, verify) == Reject(Reply(500, verify(ParseAuthorization(header).token, secret).message))
  {
  }

  // ---------------------------------------------------------------------------
  // The middleware over request, response and `next`

  /** The inbound request: its Authorization header and the `req.user` slot. */
  class Request {
    const authorization: Option<string>
    var user: Option<Claims>

    constructor (authorization: Option<string>)
      ensures this.authorization == authorization && user == None
    {
      this.authorization := authorization;
      user := None;
    }
  }

  /** The response; `sent` is the JSON error reply once one has been sent. */
  class Response {
    var sent: Option<Reply>

    constructor ()
      ensures sent == None
    {
      sent := None;
    }

    /** `res.status(status).json({ msg })`. */
    method Json(status: int, msg: string)
      modifies this
      ensures sent == Some(Reply(status, msg))
    {
      sent := Some(Reply(status, msg));
    }
  }

  /** The `next` callback, counting its invocations. */
  class NextCallback {
    var calls: nat

    constructor ()
      ensures calls == 0
    {
      calls := 0;
    }

    method Call()
      modifies this
      ensures calls == old(calls) + 1
    {
      calls := calls + 1;
    }
  }

  /**
   * `verifyToken(req, res, next)`. Exactly one of two things happens: a reply
   * is sent and `next` is not called, or the claims are attached to the
   * request and `next` is called once.
   */
  method VerifyToken(req: Request, res: Response, next: NextCallback, secret: string, verify: Verifier)
    modifies req, res, next
    ensures Guard(req.authorization, secret, verify).Proceed? ==>
      && req.user == Some(Guard(req.authorization, secret, verify).claims)
      && next.calls == old(next.calls) + 1
      && res.sent == old(res.sent)
    ensures Guard(req.authorization, secret, verify).Reject? ==>
      && res.sent == Some(Guard(req.authorization, secret, verify).reply)
      && next.calls == old(next.calls)
      && req.user == old(req.user)
  {
    var token := req.authorization;
    if token == None || token.value == [] {
      assert Guard(token, secret, verify) == Reject(Reply(400, "No token provided"));
      res.Json(400, "No token provided");
      return;
    }
    var t := token.value;
    if StartsWithBearer(t) {
      t := Trim(Slice(t, 7));
      if t == [] {
        assert Guard(token, secret, verify) == Reject(Reply(400, "Invalid Bearer Token"));
        res.Json(400, "Invalid Bearer Token");
        return;
      }
    }
    assert ParseAuthorization(token) == Token(t);
    var decoded := verify(t, secret);
    match decoded
    case VerifyThrew(m) =>
      assert Guard(token, secret, verify) == Reject(Reply(500, m));
      res.Json(500, m);
    case Decoded(claims) =>
      assert Guard(token, secret, verify) == Proceed(claims);
      req.user := Some(claims);
      next.Call();
  }

  /** A request with a well-formed bearer header and a verifying token reaches the next handler. */
  method BearerRequestProceeds(token: string, secret: string, verify: Verifier) returns (req: Request, res: Response, next: NextCallback)
    requires IsB64Token(token)
    requires verify(token, secret).Decoded?
    ensures req.user == Some(verify(token, secret).claims)
    ensures next.calls == 1 && res.sent == None
  {
    req := new Request(Some(BearerHeader(token)));
    res := new Response();
    next := new NextCallback();
    ParseBearerHeader(token);
    assert Guard(req.authorization, secret, verify) == Proceed(verify(token, secret).claims);
    VerifyToken(req, res, next, secret, verify);
  }
}
