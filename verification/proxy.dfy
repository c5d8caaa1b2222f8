/** The gateway's per-request pipeline: the credential check, the rewrite of an
    authorized request onto the upstream origin, and the mapping of the one
    dispatch attempt to the response the client receives. Every step is a total
    function of the request and the configuration fixed at startup. */
module Proxy {
  import opened Http

  /** The configuration every request sees: the token the `Authorization` header
      must spell, and the upstream base URI requests are forwarded to. */
  datatype Config = Config(token: string, upstream: Uri)

  /** The three responses the gateway makes up itself. */
  const MissingHeader: Response := Response(401, map[], AsciiBytes("Missing Authorization header"))
  const InvalidToken: Response := Response(401, map[], AsciiBytes("Invalid auth token"))
  const BadGateway: Response := Response(502, map[], AsciiBytes("Bad Gateway"))

  // ---------------------------------------------------------------- credential check

  /** The header value spells the token: as long as the token, and every byte is
      visible ASCII and the code of the token's character at that place. */
  ghost predicate Spells(v: seq<byte>, token: string) {
    |v| == |token| && forall i :: 0 <= i < |v| ==> IsVisibleAscii(v[i]) && v[i] as int == token[i] as int
  }

  /** Comparing `to_str` of a value with the token succeeds exactly when the value
      spells the token. */
  lemma ToStrMatchesIffSpells(v: seq<byte>, token: string)
    ensures ToStr(v) == Some(token) <==> Spells(v, token)
  {
    if Spells(v, token) {
      var text := ToStr(v).value;
      assert forall i :: 0 <= i < |v| ==> text[i] == token[i];
      assert text == token;
    }
  }

  /** The credential check: the request passes unchanged exactly when its first
      `Authorization` value spells the token; otherwise it is answered with 401,
      and the body says whether the header was missing or wrong. */
  function Authorize(req: Request, token: string): (r: Result<Request, Response>)
    ensures r.Ok? ==> r.value == req
    ensures r.Err? ==> r.error == if Get(req.headers, "authorization").None? then MissingHeader else InvalidToken
    ensures r.Ok? <==> Get(req.headers, "authorization").Some? && Spells(Get(req.headers, "authorization").value, token)
  {
    match Get(req.headers, "authorization")
    case Some(value) =>
      ToStrMatchesIffSpells(value, token);
      if ToStr(value) == Some(token) then Ok(req) else Err(InvalidToken)
    case None => Err(MissingHeader)
  }

  /** A value with a byte `to_str` refuses is an invalid credential whatever the
      token is, even one whose text is made of exactly those bytes. */
  lemma NotVisibleIsInvalid(req: Request, token: string, i: nat)
    requires Get(req.headers, "authorization").Some?
    requires i < |Get(req.headers, "authorization").value|
    requires !IsVisibleAscii(Get(req.headers, "authorization").value[i])
    ensures Authorize(req, token) == Err(InvalidToken)
  {
  }

  /** A token holding a character no header value can spell (outside tab and
      0x20 through 0x7E) shuts every request out. */
  lemma UnspellableTokenRejectsAll(req: Request, token: string, i: nat)
    requires i < |token|
    requires !(token[i] as int == 9 || 32 <= token[i] as int < 127)
    ensures Authorize(req, token).Err?
  {
  }

  /** Seen from the header lines on the wire, the check reads the first line named
      `Authorization` in any letter case, and no other. */
  lemma AuthorizeReadsFirstLine(fields: seq<Field>, req: Request, token: string)
    requires req.headers == FromFields(fields)
    ensures var lines := ValuesNamed(fields, "Authorization");
            Authorize(req, token)
            == if lines == [] then Err(MissingHeader)
               else if Spells(lines[0], token) then Ok(req)
               else Err(InvalidToken)
  {
    assert Lower("Authorization") == Lower("authorization");
    GetFromFields(fields, "authorization");
    GetFromFields(fields, "Authorization");
  }

  // ---------------------------------------------------------------- upstream rewrite

  /** An upstream base URI the rewrite works with: `Uri::from_parts` accepts it
      once a path is set, and its authority holds only the characters the
      authority grammar admits, as every parsed one does. */
  ghost predicate ValidOrigin(upstream: Uri) {
    && (upstream.scheme.Some? <==> upstream.authority.Some?)
    && (upstream.authority.Some? ==> IsAuthorityText(upstream.authority.value))
  }

  /** The `expect` on `Uri::from_parts` holds, for any path, exactly when the
      upstream has a scheme if and only if it has an authority. */
  lemma UpstreamUriBuilds(upstream: Uri, pathAndQuery: string)
    ensures FromParts(upstream.(pathAndQuery := Some(pathAndQuery))).Some?
        <==> (upstream.scheme.Some? <==> upstream.authority.Some?)
  {
  }

  /** The outbound request: scheme and authority of the upstream, the inbound path
      and query (or `/`), `host` replaced by the upstream authority when there is
      one; method, body and every other header as they came in. */
  function Rewrite(req: Request, upstream: Uri): (out: Request)
    requires ValidOrigin(upstream)
    ensures out.uri.scheme == upstream.scheme && out.uri.authority == upstream.authority
    ensures out.uri.pathAndQuery == Some(if req.uri.pathAndQuery.Some? then req.uri.pathAndQuery.value else "/")
    ensures out.verb == req.verb && out.body == req.body
    ensures out.headers - {"host"} == req.headers - {"host"}
    ensures upstream.authority.Some? ==>
              && Get(out.headers, "Host") == Some(AsciiBytes(upstream.authority.value))
              && "host" in out.headers && out.headers["host"] == [AsciiBytes(upstream.authority.value)]
    ensures upstream.authority.None? ==> out.headers == req.headers
  {
    assert Lower("host") == "host" == Lower("Host");
    var parts := upstream;
    var pathAndQuery := match req.uri.pathAndQuery case Some(pq) => pq case None => "/";
    var parts := parts.(pathAndQuery := Some(pathAndQuery));
    var uri := FromParts(parts);
    var head := req.(uri := uri.value);
    match parts.authority
    case Some(authority) => head.(headers := Insert(head.headers, "host", AsciiBytes(authority)))
    case None => head
  }

  /** The outbound header map is still one the crate can hold: lower-case names,
      none of them without a value. */
  lemma RewriteKeepsHeadersWellFormed(req: Request, upstream: Uri)
    requires ValidOrigin(upstream)
    requires WellFormedHeaders(req.headers)
    ensures WellFormedHeaders(Rewrite(req, upstream).headers)
  {
    assert Lower("host") == "host";
  }

  /** The `host` value the rewrite stores is one the header-value parse accepts:
      every byte is visible ASCII, and `to_str` reads the upstream authority back
      from it. */
  lemma HostValueParses(req: Request, upstream: Uri)
    requires ValidOrigin(upstream) && upstream.authority.Some?
    ensures var host := Get(Rewrite(req, upstream).headers, "host").value;
            && (forall i :: 0 <= i < |host| ==> IsVisibleAscii(host[i]))
            && ToStr(host) == Some(upstream.authority.value)
  {
    var authority := upstream.authority.value;
    var host := AsciiBytes(authority);
    assert forall i :: 0 <= i < |host| ==> IsVisibleAscii(host[i]);
    assert ToStr(host).value == authority;
  }

  /** Rewriting an already rewritten request changes nothing more. */
  lemma RewriteIdempotent(req: Request, upstream: Uri)
    requires ValidOrigin(upstream)
    ensures Rewrite(Rewrite(req, upstream), upstream) == Rewrite(req, upstream)
  {
  }

  // ---------------------------------------------------------------- request pipeline

  /** What the single attempt to reach the upstream produced: its response, or a
      transport failure with its reason. */
  datatype Outcome = Responded(response: Response) | TransportError(reason: string)

  /** What one inbound request led to: the response sent back to the client, and
      the requests sent to the upstream, in order. */
  datatype Exchange = Exchange(response: Response, dispatched: seq<Request>)

  /** The pipeline: check the credential; on rejection answer at once; otherwise
      rewrite, send once through `network`, and pass its response back verbatim
      or answer 502 on a transport failure. Only an authorized request reaches the
      rewrite, so only then must the upstream be one `Uri::from_parts` accepts. */
  function Handle(req: Request, config: Config, network: Request -> Outcome): (x: Exchange)
    requires Authorize(req, config.token).Ok? ==> ValidOrigin(config.upstream)
    ensures |x.dispatched| <= 1
    ensures x.dispatched == [] <==> Authorize(req, config.token).Err?
    ensures Authorize(req, config.token).Err? ==> x.response == Authorize(req, config.token).error
    ensures Authorize(req, config.token).Ok? ==> x.dispatched == [Rewrite(req, config.upstream)]
    ensures Authorize(req, config.token).Ok? ==>
              x.response == match network(Rewrite(req, config.upstream))
                            case Responded(resp) => resp
                            case TransportError(_) => BadGateway
  {
    match Authorize(req, config.token)
    case Ok(authenticated) =>
      var outbound := Rewrite(authenticated, config.upstream);
      (match network(outbound)
       case Responded(resp) => Exchange(resp, [outbound])
       case TransportError(_) => Exchange(BadGateway, [outbound]))
    case Err(rejection) => Exchange(rejection, [])
  }

  /** No `Authorization` header: 401 "Missing Authorization header", nothing sent,
      whatever the upstream is. */
  lemma HandleMissingHeader(req: Request, config: Config, network: Request -> Outcome)
    requires Get(req.headers, "authorization").None?
    ensures Handle(req, config, network) == Exchange(MissingHeader, [])
  {
  }

  /** A first `Authorization` value that does not spell the token: 401 "Invalid
      auth token", nothing sent, whatever the upstream is. */
  lemma HandleInvalidToken(req: Request, config: Config, network: Request -> Outcome)
    requires Get(req.headers, "authorization").Some?
    requires !Spells(Get(req.headers, "authorization").value, config.token)
    ensures Handle(req, config, network) == Exchange(InvalidToken, [])
  {
  }

  /** A first `Authorization` value that spells the token: the rewritten request is
      sent exactly once, and the client gets the upstream's response as it is, or
      502 "Bad Gateway" on a transport failure. */
  lemma HandleAuthorized(req: Request, config: Config, network: Request -> Outcome)
    requires ValidOrigin(config.upstream)
    requires Get(req.headers, "authorization").Some?
    requires Spells(Get(req.headers, "authorization").value, config.token)
    ensures var x := Handle(req, config, network);
            var outbound := Rewrite(req, config.upstream);
            && x.dispatched == [outbound]
            && (network(outbound).Responded? ==> x.response == network(outbound).response)
            && (network(outbound).TransportError? ==> x.response == BadGateway)
  {
  }

  /** A rejected request never reaches the network: its exchange is the same
      whatever the network would have done. */
  lemma RejectionIgnoresNetwork(req: Request, config: Config, n1: Request -> Outcome, n2: Request -> Outcome)
    requires Authorize(req, config.token).Err?
    ensures Handle(req, config, n1) == Handle(req, config, n2)
  {
  }

  /** The reason of a transport failure never reaches the client: two failures
      with different reasons give the same exchange. */
  lemma TransportReasonHidden(req: Request, config: Config, n1: Request -> Outcome, n2: Request -> Outcome)
    requires ValidOrigin(config.upstream)
    requires n1(Rewrite(req, config.upstream)).TransportError?
    requires n2(Rewrite(req, config.upstream)).TransportError?
    ensures Handle(req, config, n1) == Handle(req, config, n2)
  {
  }

  /** Only three things can reach the client: a 401 made by the check, the 502,
      or the response the upstream gave to the one request sent. */
  lemma OnlyThreeOutcomes(req: Request, config: Config, network: Request -> Outcome)
    requires Authorize(req, config.token).Ok? ==> ValidOrigin(config.upstream)
    ensures var x := Handle(req, config, network);
            || x.response == MissingHeader
            || x.response == InvalidToken
            || x.response == BadGateway
            || (|x.dispatched| == 1 && network(x.dispatched[0]) == Responded(x.response))
  {
  }

  /** The worked example: token `secret`, upstream `http://localhost:9001`, and
      `GET /status?x=1` carrying `Authorization: secret` against an upstream that
      answers that request with 200 `{"ok":true}`: the client gets that 200. */
  lemma WorkedExample()
    ensures
      var config := Config("secret", Uri(Some("http"), Some("localhost:9001"), None));
      var req := Request("GET", Uri(None, None, Some("/status?x=1")),
                         FromFields([Field("Authorization", AsciiBytes("secret"))]), []);
      var ok := Response(200, map[], AsciiBytes("{\"ok\":true}"));
      var network := (r: Request) =>
        if r.verb == "GET" && r.uri == Uri(Some("http"), Some("localhost:9001"), Some("/status?x=1"))
        then Responded(ok) else TransportError("connection refused");
      Handle(req, config, network) == Exchange(ok, [Rewrite(req, config.upstream)])
  {
    var fields := [Field("Authorization", AsciiBytes("secret"))];
    AuthorizeReadsFirstLine(fields, Request("GET", Uri(None, None, Some("/status?x=1")), FromFields(fields), []), "secret");
  }
}
