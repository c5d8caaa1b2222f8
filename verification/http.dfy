/** The values of the `http` crate that the gateway reads and rewrites: URIs split
    into parts, header maps keyed by lower-case names, requests and responses.
    Only the behaviour the gateway relies on is modelled: case-insensitive header
    names, first-value lookup, `insert` replacing every value of a name,
    `HeaderValue::to_str` and the checks of `Uri::from_parts`. */
module Http {

  datatype Option<+T> = None | Some(value: T)

  datatype Result<+T, +E> = Ok(value: T) | Err(error: E)

  newtype byte = x: int | 0 <= x < 256

  /** A string every character of which is 7-bit ASCII. */
  predicate IsAscii(s: string) {
    forall i :: 0 <= i < |s| ==> s[i] as int < 128
  }

  /** The bytes of an ASCII string, one per character. */
  function AsciiBytes(s: string): seq<byte>
    requires IsAscii(s)
  {
    seq(|s|, i requires 0 <= i < |s| => s[i] as int as byte)
  }

  /** Text made only of the characters an authority may hold (section 3.2 of
      RFC 3986): every one lies in 0x21 through 0x7E. */
  predicate IsAuthorityText(s: string) {
    forall i :: 0 <= i < |s| ==> 0x21 <= s[i] as int < 0x7F
  }

  // ---------------------------------------------------------------- header values

  /** The bytes `HeaderValue::to_str` accepts: horizontal tab and 0x20 through 0x7E. */
  predicate IsVisibleAscii(b: byte) {
    b == 9 || 32 <= b < 127
  }

  /** `HeaderValue::to_str`: the value read as text when every byte is visible
      ASCII, and nothing otherwise. */
  function ToStr(v: seq<byte>): (r: Option<string>)
    ensures r.Some? <==> forall i :: 0 <= i < |v| ==> IsVisibleAscii(v[i])
    ensures r.Some? ==> |r.value| == |v| && forall i :: 0 <= i < |v| ==> r.value[i] as int == v[i] as int
  {
    if v == [] then Some("")
    else if !IsVisibleAscii(v[0]) then None
    else match ToStr(v[1..])
      case None => None
      case Some(rest) => Some([v[0] as int as char] + rest)
  }

  // ---------------------------------------------------------------- header names

  function LowerChar(c: char): char {
    if 'A' <= c <= 'Z' then (c as int + 32) as char else c
  }

  /** The normal form of a header name: header names compare without regard to
      case (section 5.1 of RFC 9110), and the crate stores them in lower case. */
  function Lower(name: string): string {
    seq(|name|, i requires 0 <= i < |name| => LowerChar(name[i]))
  }

  lemma LowerIsNormal(name: string)
    ensures Lower(Lower(name)) == Lower(name)
  {
  }

  // ---------------------------------------------------------------- header maps

  /** A header map: each lower-case name to its values in the order they arrived. */
  type HeaderMap = map<string, seq<seq<byte>>>

  /** What every header map the crate builds satisfies: names are stored in lower
      case and a stored name holds at least one value. */
  ghost predicate WellFormedHeaders(h: HeaderMap) {
    forall name :: name in h ==> Lower(name) == name && h[name] != []
  }

  /** `HeaderMap::get`: the first value stored under `name`, whatever its case. */
  function Get(h: HeaderMap, name: string): (r: Option<seq<byte>>)
    ensures r.None? <==> Lower(name) !in h || h[Lower(name)] == []
    ensures r.Some? ==> r.value == h[Lower(name)][0]
    ensures WellFormedHeaders(h) ==> (r.None? <==> Lower(name) !in h)
  {
    var key := Lower(name);
    if key in h && h[key] != [] then Some(h[key][0]) else None
  }

  /** Names that differ only in letter case find the same value. */
  lemma GetIgnoresCase(h: HeaderMap, a: string, b: string)
    requires Lower(a) == Lower(b)
    ensures Get(h, a) == Get(h, b)
  {
  }

  /** `HeaderMap::insert`: `v` becomes the only value of `name`. */
  function Insert(h: HeaderMap, name: string, v: seq<byte>): (r: HeaderMap)
    ensures Lower(name) in r && r[Lower(name)] == [v]
    ensures r - {Lower(name)} == h - {Lower(name)}
  {
    h[Lower(name) := [v]]
  }

  /** `HeaderMap::append`: `v` is added after the values `name` already has. */
  function Append(h: HeaderMap, name: string, v: seq<byte>): HeaderMap {
    var key := Lower(name);
    if key in h then h[key := h[key] + [v]] else h[key := [v]]
  }

  /** One header line as it arrives on the wire, its name in any case. */
  datatype Field = Field(name: string, value: seq<byte>)

  /** The header map the server builds from the header lines, appending each in
      order of arrival. */
  function FromFields(fields: seq<Field>): HeaderMap {
    if fields == [] then map[]
    else
      var last := fields[|fields| - 1];
      Append(FromFields(fields[..|fields| - 1]), last.name, last.value)
  }

  /** Reference reading of a header: the values of the lines whose name equals
      `name` ignoring case, front to back. */
  function ValuesNamed(fields: seq<Field>, name: string): seq<seq<byte>> {
    if fields == [] then []
    else
      (if Lower(fields[0].name) == Lower(name) then [fields[0].value] else [])
      + ValuesNamed(fields[1..], name)
  }

  lemma {:induction false} ValuesNamedSnoc(fields: seq<Field>, f: Field, name: string)
    ensures ValuesNamed(fields + [f], name)
         == ValuesNamed(fields, name) + (if Lower(f.name) == Lower(name) then [f.value] else [])
  {
    if fields == [] {
      assert fields + [f] == [f];
    } else {
      assert (fields + [f])[1..] == fields[1..] + [f];
      ValuesNamedSnoc(fields[1..], f, name);
    }
  }

  /** The map built from the lines holds, under the normal form of a name, exactly
      the values of the lines carrying that name in any case, in arrival order. */
  lemma {:induction false} FromFieldsValues(fields: seq<Field>, name: string)
    ensures Lower(name) in FromFields(fields) <==> ValuesNamed(fields, name) != []
    ensures Lower(name) in FromFields(fields) ==> FromFields(fields)[Lower(name)] == ValuesNamed(fields, name)
  {
    if fields != [] {
      var init, last := fields[..|fields| - 1], fields[|fields| - 1];
      assert fields == init + [last];
      FromFieldsValues(init, name);
      ValuesNamedSnoc(init, last, name);
      LowerIsNormal(name);
      LowerIsNormal(last.name);
      if Lower(last.name) == Lower(name) {
      } else {
        assert Lower(Lower(last.name)) != Lower(name);
      }
    }
  }

  /** `get` on a map built from header lines yields the first line with that name,
      in any letter case, or nothing when no line has it. */
  lemma GetFromFields(fields: seq<Field>, name: string)
    ensures Get(FromFields(fields), name)
         == if ValuesNamed(fields, name) == [] then None else Some(ValuesNamed(fields, name)[0])
  {
    FromFieldsValues(fields, name);
  }

  /** Every map built from header lines is well formed. */
  lemma {:induction false} FromFieldsWellFormed(fields: seq<Field>)
    ensures WellFormedHeaders(FromFields(fields))
  {
    if fields != [] {
      var last := fields[|fields| - 1];
      FromFieldsWellFormed(fields[..|fields| - 1]);
      LowerIsNormal(last.name);
    }
  }

  // ---------------------------------------------------------------- URIs

  /** A URI split into the parts `Uri::into_parts` yields. */
  datatype Uri = Uri(scheme: Option<string>, authority: Option<string>, pathAndQuery: Option<string>)

  /** `Uri::from_parts`: a scheme needs an authority and a path; an authority with
      a path needs a scheme. Anything else is accepted as given. */
  function FromParts(parts: Uri): (r: Option<Uri>)
    ensures r.Some? ==> r.value == parts
    ensures parts.pathAndQuery.Some? ==> (r.Some? <==> (parts.scheme.Some? <==> parts.authority.Some?))
    ensures parts.scheme.Some? && parts.pathAndQuery.None? ==> r.None?
  {
    if parts.scheme.Some? then
      if parts.authority.None? || parts.pathAndQuery.None? then None else Some(parts)
    else if parts.authority.Some? && parts.pathAndQuery.Some? then None
    else Some(parts)
  }

  // ---------------------------------------------------------------- messages

  /** A request: method (`verb`), target URI, headers and an opaque body. */
  datatype Request = Request(verb: string, uri: Uri, headers: HeaderMap, body: seq<byte>)

  /** A response: status code, headers and an opaque body. */
  datatype Response = Response(status: nat, headers: HeaderMap, body: seq<byte>)
}
