# ezproxy request pipeline, modelled in Dafny

ezproxy is a single-file authenticating reverse proxy. For each inbound request
it does three things:

1. **Credential check** (`authorize`). It reads the first `Authorization` header
   value; header names match without regard to case. It compares that value,
   through `HeaderValue::to_str`, with the configured token. The request either
   passes unchanged or gets a 401 response. The body is "Missing Authorization
   header" or "Invalid auth token".
2. **Upstream rewrite** (the first half of `forward`). The outbound URI takes
   the upstream base's scheme and authority and the inbound path and query,
   or `/` when the inbound request has none. The `host` header is replaced by
   the upstream authority when the upstream has one. The method, the body and
   every other header pass through.
3. **Outcome mapping** (`handle`). A rejection is returned without contacting
   the upstream. An authorized request is sent exactly once. The upstream's
   response is returned verbatim, and a transport failure becomes 502 "Bad
   Gateway".

The project has two files:

- `http.dfy` (module `Http`) models the values of the `http` crate that the
  gateway touches. These are URIs split into parts, and header maps keyed by
  lower-case names with values in arrival order. It also covers building a
  header map from the header lines on the wire, requests and responses,
  `HeaderValue::to_str` (it accepts tab and bytes 0x20 through 0x7E), and the
  checks of `Uri::from_parts`. The crate's code is not modelled; these
  functions state the crate behaviour the gateway relies on.
- `proxy.dfy` (module `Proxy`) holds `Authorize`, `Rewrite` and `Handle`, and
  lemmas for the cases of the pipeline. The network call is a parameter
  `network: Request -> Outcome`, where `Outcome = Responded(Response) |
  TransportError(reason)`. `Handle` returns the response together with the
  list of requests it sent upstream. That list is what makes "never sent" and
  "sent exactly once" statable.

`forward` builds its outbound request by assigning fields of two values it owns
(`parts`, `parts_req`) and inserting into their header map. Nothing else can
see those values, so the model writes each assignment as a record update, in
the order the source performs them.

Points where the code's behaviour is easy to misread, and one point where the
model repairs the text:

- The header comment (src/main.rs:3-6) says a request whose header "does not
  match" the token gets 401. The comparison at src/main.rs:25 goes through
  `to_str()`, not the raw bytes. A value with any byte outside tab and 0x20
  through 0x7E is therefore rejected as invalid even when its bytes are the
  token's bytes. By the same rule, a token containing such a character can
  never be matched (`Proxy.UnspellableTokenRejectsAll`).
- The `Host` overwrite is conditional, as the comment "Optionally adjust Host
  header" (src/main.rs:55) and the `if let` at src/main.rs:56 say. With an
  upstream that has no authority, the headers are left as they are.
- The only check made at startup is `.expect("Invalid UPSTREAM_URL")` at
  src/main.rs:88, which only asks that the value parse as a URI.
  `Uri::from_parts(...).expect` at src/main.rs:50 runs later, on each
  authorized request. It panics when the upstream has an authority but no
  scheme, or a scheme but no authority. The model states this as
  `ValidOrigin`, required only of the upstream of an authorized request.
  `ValidOrigin` has two halves. `Proxy.UpstreamUriBuilds` shows its first half
  (a scheme if and only if an authority) is exactly the condition under which
  that `expect` holds. Its second half asks that the authority hold only
  characters 0x21 through 0x7E, the range every character the authority
  grammar of RFC 3986 (section 3.2) admits lies in; every authority that
  parsing `UPSTREAM_URL` yields meets it. That half is what keeps the
  `parse().unwrap()` of the authority as a header value at src/main.rs:57 from
  failing: `Proxy.HostValueParses` shows the stored `host` value has only
  visible-ASCII bytes and reads back as the authority. A rejected request
  never reaches `forward`, so it gets its 401 whatever the upstream is
  (`Proxy.HandleMissingHeader`, `Proxy.HandleInvalidToken`).
- src/main.rs:56 reads `parts.authority` after `parts` has been moved into
  `Uri::from_parts(parts)` at src/main.rs:50. `http::uri::Parts` is neither
  `Copy` nor `Clone`, so the text as written is a use after move and is
  rejected by the Rust compiler. The evident intent is to use the upstream
  base's authority, which is what the moved `parts` held. `Proxy.Rewrite`
  reads that authority.

## Model

| member | source | states |
|---|---|---|
| `Http.ToStr` | src/main.rs:25 | `to_str` yields text exactly when every byte is tab or 0x20..0x7E, and the text has the value's bytes as its character codes |
| `Http.FromFieldsValues` | src/main.rs:23 | the header map built from the wire lines holds, under a name's lower-case form, exactly the values of the lines carrying that name in any letter case, in arrival order, and holds no entry for a name no line carries |
| `Http.GetFromFields` | src/main.rs:23 | `get` on such a map returns the first value of a line with that name in any letter case, or nothing when there is none |
| `Http.FromFieldsWellFormed` | src/main.rs:23 | every map built from header lines has lower-case names, each with at least one value |
| `Http.Get` | src/main.rs:23 | `HeaderMap::get` returns the first value stored under the case-folded name. On a well-formed map it returns nothing exactly when that name is absent |
| `Http.GetIgnoresCase` | src/main.rs:23 | two names that differ only in letter case find the same value |
| `Http.Insert` | src/main.rs:57 | `HeaderMap::insert` leaves the case-folded name with the new value as its only value, and leaves every other name as it was |
| `Http.FromParts` | src/main.rs:50 | `Uri::from_parts` never alters the parts it accepts. With a path set, it accepts exactly when a scheme is present if and only if an authority is. A scheme without a path is refused |
| `Proxy.ToStrMatchesIffSpells` | src/main.rs:25 | `to_str().ok() == Some(token)` holds exactly when the value has the token's length, only visible-ASCII bytes, and the token's character codes |
| `Proxy.Authorize` | src/main.rs:21-39 | the request passes, unchanged, exactly when the first `Authorization` value spells the token. Otherwise the result is 401 "Missing Authorization header" when the header is absent, and 401 "Invalid auth token" when it is present |
| `Proxy.NotVisibleIsInvalid` | src/main.rs:25-31 | a first `Authorization` value with a byte `to_str` refuses gets 401 "Invalid auth token" for every token |
| `Proxy.UnspellableTokenRejectsAll` | src/main.rs:25-31 | a token holding a character other than tab or 0x20..0x7E rejects every request |
| `Proxy.AuthorizeReadsFirstLine` | src/main.rs:23-37 | seen from the wire lines, the outcome is decided by the first line named `Authorization` in any case: none gives "Missing", a first line that spells the token passes the request, anything else gives "Invalid" |
| `Proxy.UpstreamUriBuilds` | src/main.rs:44-50 | once a path is set, `Uri::from_parts` accepts the upstream's parts exactly when it has a scheme if and only if it has an authority |
| `Proxy.Rewrite` | src/main.rs:42-59 | the outbound URI has the upstream's scheme and authority, and the inbound path-and-query or `/`. When the upstream has an authority, `host` holds that authority as its only value, whatever the inbound `host` was; otherwise the headers are unchanged. Method, body and every other header are preserved |
| `Proxy.RewriteKeepsHeadersWellFormed` | src/main.rs:56-58 | the rewritten header map still has lower-case names, each with at least one value |
| `Proxy.HostValueParses` | src/main.rs:56-57 | for a valid upstream with an authority, the `host` value the rewrite stores has only bytes the header-value parse accepts, and `to_str` reads the authority back from it, so the `unwrap` there cannot fail |
| `Proxy.RewriteIdempotent` | src/main.rs:44-58 | rewriting an already rewritten request gives the same request |
| `Proxy.Handle` | src/main.rs:66-81 | the upstream must be usable by `from_parts` only when the request is authorized. At most one request is sent upstream, and one is sent exactly when the check passes. A rejection is returned as the check made it. The request sent is the rewrite of the inbound one. The upstream's response is returned verbatim, and a transport failure becomes 502 "Bad Gateway" |
| `Proxy.HandleMissingHeader` | src/main.rs:34-37 | with no `Authorization` header the client gets 401 "Missing Authorization header" and nothing is sent, whatever the upstream is |
| `Proxy.HandleInvalidToken` | src/main.rs:27-31 | with a first `Authorization` value that does not spell the token, the client gets 401 "Invalid auth token" and nothing is sent, whatever the upstream is |
| `Proxy.HandleAuthorized` | src/main.rs:69-77 | with a value that spells the token, exactly the rewritten request is sent once. The client gets the upstream's response unchanged, or 502 "Bad Gateway" on a transport failure |
| `Proxy.RejectionIgnoresNetwork` | src/main.rs:79 | for a rejected request, whatever the upstream is, the exchange does not depend on the network at all |
| `Proxy.TransportReasonHidden` | src/main.rs:73-76 | two transport failures with different reasons give the client the same response |
| `Proxy.OnlyThreeOutcomes` | src/main.rs:66-81 | whenever the source does not panic, the client gets one of the two 401 responses, the 502, or the response the upstream gave to the single request sent |
| `Proxy.WorkedExample` | src/main.rs:66-81 | token `secret`, upstream `http://localhost:9001`, `GET /status?x=1` with `Authorization: secret`, and an upstream answering 200 `{"ok":true}`: the client gets that 200 response, and the one request sent is the rewritten one |

## Left out

- `main` (src/main.rs:84-118) is not modelled. It covers reading `AUTH_TOKEN`, `UPSTREAM_URL` and `BIND_ADDR`, the default bind address, socket binding, per-connection cloning of the configuration, the Tower `ServiceBuilder` placeholder and logging. All of this is process I/O and framework glue. The configuration enters the model as the `Config` value.
- The Hyper client call (src/main.rs:62-63) is foreign network I/O. It is the `network` parameter of `Handle`, a total function from the outbound request to an `Outcome`.
- The async execution and per-request concurrency are not modelled. `Handle` is a pure function of the request, the configuration and the network's answer, so one request's response cannot depend on another request.
- URI and header parsing by the `http` crate is not modelled. URIs are records of optional strings, and header values are byte sequences. Which strings `UPSTREAM_URL` parsing accepts is not modelled either; only the condition the `from_parts` call needs is stated.
- The `parse().unwrap()` calls at src/main.rs:49 and 57 are not modelled as failure paths. The first re-parses a path that was already parsed. The second parses an authority whose characters `ValidOrigin` keeps within 0x21 through 0x7E, which the header-value parse accepts (`Proxy.HostValueParses`). So neither fails. The panic at src/main.rs:50 is not modelled as an outcome: `Handle` requires `ValidOrigin` of the upstream of an authorized request.
- Body streaming is not modelled: bodies are opaque byte sequences passed through as they are. The HTTP version and the extensions carried in the request parts are not modelled either; the source passes them through untouched.
- Response headers set by the server framework on the three locally made responses (content length, date) are not modelled. The made-up responses carry an empty header map.
