/** The request handling of simple_proxy that works on an already-parsed
    request: the choice among the three paths, the CONNECT address, the extra
    header block sent upstream, and the diagnostic JSON body. */
module SimpleProxy {
  import opened Wrappers
  import opened Text
  import opened Mongoose

  const AppName: string := "simple_proxy"
  const AppVersion: string := "1.0"

  /** The extra header of the 200 response that opens a tunnel. */
  const ProxyAgentHeader: string := "Proxy-agent: " + AppName + "/" + AppVersion

  /** The three ways the proxy answers a request. */
  datatype Route = Tunnel | ForwardHttp | JsonEcho

  predicate IsConnect(httpMethod: string)
    ensures IsConnect(httpMethod) ==> |httpMethod| == 7
  {
    CaseEqual(httpMethod, "CONNECT")
  }

  /** The dispatch of a complete request: CONNECT (any case) wins; then a
      Proxy-Connection header (any case) selects forwarding; else the echo. */
  function Classify(m: HttpMessage): (r: Route)
    ensures r == Tunnel <==> IsConnect(m.httpMethod)
    ensures r == ForwardHttp <==> !IsConnect(m.httpMethod) && HasHeader(ScannedHeaders(m.headers), "Proxy-Connection")
    ensures r == JsonEcho <==> !IsConnect(m.httpMethod) && !HasHeader(ScannedHeaders(m.headers), "Proxy-Connection")
  {
    if IsConnect(m.httpMethod) then Tunnel
    else if GetHeader(ScannedHeaders(m.headers), "Proxy-Connection").Some? then ForwardHttp
    else JsonEcho
  }

  /** The address a CONNECT request is tunnelled to: the URI after a tcp:// scheme. */
  function TunnelAddress(uri: string): (addr: string)
    ensures |addr| == |uri| + 6
    ensures addr[..6] == "tcp://" && addr[6..] == uri
  {
    "tcp://" + uri
  }

  lemma TunnelAddressInjective(u: string, v: string)
    requires TunnelAddress(u) == TunnelAddress(v)
    ensures u == v
  {
    assert u == TunnelAddress(u)[6..];
  }

  // ---------------------------------------------------------------------
  // The extra header block of a forwarded request

  /** What the proxy knows of both ends of the client connection: the host
      name from `gethostname`, the local and remote addresses from
      `mg_conn_addr_to_str`, and the raw `sin_port` field. */
  datatype NetIdentity = NetIdentity(hostname: string, localAddr: string, peerAddr: string, port: nat)

  predicate ValidIdentity(id: NetIdentity)
  {
    id.port < 0x1_0000
  }

  /** One header line, `Name: Value` and a newline. */
  function HeaderLine(h: Header): string
  {
    h.name + ": " + h.value + "\n"
  }

  /** The header block: one line per header, in order. */
  function Serialize(hs: seq<Header>): string
  {
    if hs == [] then "" else HeaderLine(hs[0]) + Serialize(hs[1..])
  }

  lemma {:induction false} SerializeAppend(a: seq<Header>, b: seq<Header>)
    ensures Serialize(a + b) == Serialize(a) + Serialize(b)
  {
    if a == [] {
      assert a + b == b;
    } else {
      assert (a + b)[1..] == a[1..] + b;
      SerializeAppend(a[1..], b);
    }
  }

  /** The branch structure of the header loop as written. A header named
      exactly Proxy-Connection is captured and not copied; the test for
      Proxy-Authorization reads `0 != mg_vcmp(...)`, so every other header
      whose name is not exactly Proxy-Authorization is captured and not
      copied either (the test looks inverted). Only the remaining headers,
      those named exactly Proxy-Authorization, are copied. */
  predicate CopiedUpstream(h: Header)
    ensures CopiedUpstream(h) <==> h.name == "Proxy-Authorization"
  {
    if h.name == "Proxy-Connection" then false
    else if h.name != "Proxy-Authorization" then false
    else true
  }

  /** The headers the loop copies into the extra header block, in order. */
  function Filter(hs: seq<Header>): (r: seq<Header>)
    ensures |r| <= |hs|
    ensures forall k :: 0 <= k < |r| ==> r[k] in hs && r[k].name == "Proxy-Authorization"
    ensures forall k :: 0 <= k < |hs| && hs[k].name == "Proxy-Authorization" ==> hs[k] in r
  {
    if hs == [] then []
    else
      var rest := Filter(hs[1..]);
      assert forall k :: 0 <= k < |hs[1..]| ==> hs[1..][k] == hs[k + 1];
      (if CopiedUpstream(hs[0]) then [hs[0]] else []) + rest
  }

  lemma {:induction false} FilterAppend(a: seq<Header>, b: seq<Header>)
    ensures Filter(a + b) == Filter(a) + Filter(b)
  {
    if a == [] {
      assert a + b == b;
    } else {
      assert (a + b)[1..] == a[1..] + b;
      FilterAppend(a[1..], b);
    }
  }

  /** The five lines appended after the copied headers, in order. */
  function InjectedHeaders(id: NetIdentity): (r: seq<Header>)
    ensures |r| == 5
    ensures r[0].name == "Via" && r[1].name == "X-Forwarded-For" && r[2].name == "X-Forwarded-Port"
            && r[3].name == "X-Forwarded-Proto" && r[4].name == "Forwarded"
    ensures r[1].value == id.peerAddr && r[3].value == "http"
  {
    [ Header("Via", "1.1 " + id.hostname + " (" + AppName + "/" + AppVersion + ")"),
      Header("X-Forwarded-For", id.peerAddr),
      Header("X-Forwarded-Port", Decimal(id.port)),
      Header("X-Forwarded-Proto", "http"),
      Header("Forwarded", "for=" + id.peerAddr + ";proto=http;by=" + id.localAddr) ]
  }

  /** The header list the upstream request carries besides the library's own. */
  function UpstreamHeaders(m: HttpMessage, id: NetIdentity): (r: seq<Header>)
    ensures |r| >= 5
    ensures forall k :: 0 <= k < |r| - 5 ==> r[k].name == "Proxy-Authorization"
    ensures forall k :: 0 <= k < |r| ==> r[k].name != "Proxy-Connection"
  {
    var f := Filter(ScannedHeaders(m.headers));
    InjectedNames(id);
    f + InjectedHeaders(id)
  }

  lemma InjectedNames(id: NetIdentity)
    ensures forall k :: 0 <= k < 5 ==> InjectedHeaders(id)[k].name != "Proxy-Connection"
  {
  }

  /** forward_http_request's construction of `extra_headers`: the header loop
      followed by the five appended lines. */
  method BuildExtraHeaders(m: HttpMessage, id: NetIdentity) returns (block: string)
    requires ValidIdentity(id)
    ensures block == Serialize(UpstreamHeaders(m, id))
  {
    var hs := m.headers;
    block := "";
    var i := 0;
    while i < MaxHttpHeaders && i < |hs| && |hs[i].name| > 0
      invariant i <= |ScannedHeaders(hs)|
      invariant block == Serialize(Filter(hs[..i]))
    {
      ScanStopsAt(hs, i);
      var h := hs[i];
      if h.name == "Proxy-Connection" {
        // proxy_conn = hv: the captured value is never read
      } else if h.name != "Proxy-Authorization" {
        // proxy_auth = hv: the captured value is never read
      } else {
        block := block + HeaderLine(h);
      }
      FilterStep(hs, i);
      i := i + 1;
    }
    ScanStopsAt(hs, i);
    assert hs[..i] == ScannedHeaders(hs);
    var injected := InjectedHeaders(id);
    block := block + HeaderLine(injected[0]);
    block := block + HeaderLine(injected[1]);
    block := block + HeaderLine(injected[2]);
    block := block + HeaderLine(injected[3]);
    block := block + HeaderLine(injected[4]);
    SerializeAppendFive(Filter(hs[..i]), injected);
  }

  lemma SerializeAppendFive(f: seq<Header>, inj: seq<Header>)
    requires |inj| == 5
    ensures Serialize(f + inj)
            == Serialize(f) + HeaderLine(inj[0]) + HeaderLine(inj[1]) + HeaderLine(inj[2])
               + HeaderLine(inj[3]) + HeaderLine(inj[4])
  {
    SerializeSnoc(f, inj[0]);
    SerializeSnoc(f + inj[..1], inj[1]);
    assert f + inj[..1] + [inj[1]] == f + inj[..2];
    SerializeSnoc(f + inj[..2], inj[2]);
    assert f + inj[..2] + [inj[2]] == f + inj[..3];
    SerializeSnoc(f + inj[..3], inj[3]);
    assert f + inj[..3] + [inj[3]] == f + inj[..4];
    SerializeSnoc(f + inj[..4], inj[4]);
    assert f + inj[..4] + [inj[4]] == f + inj;
    assert f + [inj[0]] == f + inj[..1];
  }

  lemma SerializeSnoc(hs: seq<Header>, h: Header)
    ensures Serialize(hs + [h]) == Serialize(hs) + HeaderLine(h)
  {
    SerializeAppend(hs, [h]);
    assert [h][1..] == [];
  }

  /** One more slot visited by the header loop adds its line exactly when it is copied. */
  lemma FilterStep(hs: seq<Header>, i: nat)
    requires i < |hs|
    ensures Serialize(Filter(hs[..i + 1]))
            == Serialize(Filter(hs[..i])) + (if CopiedUpstream(hs[i]) then HeaderLine(hs[i]) else "")
  {
    assert hs[..i + 1] == hs[..i] + [hs[i]];
    FilterAppend(hs[..i], [hs[i]]);
    SerializeAppend(Filter(hs[..i]), Filter([hs[i]]));
    assert [hs[i]][1..] == [];
    if CopiedUpstream(hs[i]) {
      assert Serialize([hs[i]]) == HeaderLine(hs[i]) + Serialize([]);
    }
  }

  /** Reads one `Name: Value` line: the name runs to the first colon, one
      space follows, the value runs to the newline. */
  function ParseHeaderLine(s: string): (r: Option<(Header, string)>)
    ensures r.Some? ==> |r.value.1| < |s|
  {
    match SplitAt(s, ':')
    case None => None
    case Some((name, r1)) =>
      match Expect(" ", r1)
      case None => None
      case Some(r2) =>
        match SplitAt(r2, '\n')
        case None => None
        case Some((value, r3)) => Some((Header(name, value), r3))
  }

  /** Reads a block of header lines back into its headers. */
  function ParseBlock(s: string): Option<seq<Header>>
    decreases |s|
  {
    if s == [] then Some([])
    else
      match ParseHeaderLine(s)
      case None => None
      case Some((h, rest)) =>
        match ParseBlock(rest)
        case None => None
        case Some(hs) => Some([h] + hs)
  }

  /** A header whose line reads back unambiguously. */
  predicate LineSafe(h: Header)
  {
    ':' !in h.name && '\n' !in h.value
  }

  lemma ParseLine(h: Header, rest: string)
    requires LineSafe(h)
    ensures ParseHeaderLine(HeaderLine(h) + rest) == Some((h, rest))
  {
    var r2 := h.value + "\n" + rest;
    var r1 := " " + r2;
    assert HeaderLine(h) + rest == h.name + [':'] + r1;
    SplitAtFirst(h.name, ':', r1);
    ExpectAt(" ", r2);
    assert r2 == h.value + ['\n'] + rest;
    SplitAtFirst(h.value, '\n', rest);
  }

  /** The serialized block reads back as exactly the headers it was built from. */
  lemma {:induction false} SerializeRoundTrip(hs: seq<Header>)
    requires forall k :: 0 <= k < |hs| ==> LineSafe(hs[k])
    ensures ParseBlock(Serialize(hs)) == Some(hs)
  {
    if hs != [] {
      var s, rest := Serialize(hs), Serialize(hs[1..]);
      assert s == HeaderLine(hs[0]) + rest;
      ParseLine(hs[0], rest);
      SerializeRoundTrip(hs[1..]);
      assert s != [];
      assert ParseBlock(s) == Some([hs[0]] + hs[1..]);
      assert [hs[0]] + hs[1..] == hs;
    }
  }

  /** The extra header block of a forwarded request carries exactly the
      copied Proxy-Authorization headers, in order, then the five injected
      headers; Proxy-Connection never reaches the upstream. */
  lemma UpstreamBlockRoundTrip(m: HttpMessage, id: NetIdentity)
    requires forall k :: 0 <= k < |m.headers| ==> '\n' !in m.headers[k].value
    requires '\n' !in id.hostname && '\n' !in id.peerAddr && '\n' !in id.localAddr
    ensures ParseBlock(Serialize(UpstreamHeaders(m, id))) == Some(UpstreamHeaders(m, id))
  {
    var f := Filter(ScannedHeaders(m.headers));
    var inj := InjectedHeaders(id);
    forall k | 0 <= k < |f| ensures LineSafe(f[k]) {
      assert f[k] in m.headers;
    }
    InjectedLineSafe(id);
    var hs := f + inj;
    forall k | 0 <= k < |hs| ensures LineSafe(hs[k]) {
      if k < |f| { assert hs[k] == f[k]; } else { assert hs[k] == inj[k - |f|]; }
    }
    SerializeRoundTrip(hs);
  }

  lemma InjectedLineSafe(id: NetIdentity)
    requires '\n' !in id.hostname && '\n' !in id.peerAddr && '\n' !in id.localAddr
    ensures forall k :: 0 <= k < 5 ==> LineSafe(InjectedHeaders(id)[k])
  {
    var inj := InjectedHeaders(id);
    ViaValueSafe(id.hostname);
    ForwardedValueSafe(id.peerAddr, id.localAddr);
    assert LineSafe(inj[2]) by {
      assert forall k :: 0 <= k < |inj[2].value| ==> IsDigit(inj[2].value[k]);
    }
  }

  lemma ViaValueSafe(hostname: string)
    requires '\n' !in hostname
    ensures '\n' !in "1.1 " + hostname + " (" + AppName + "/" + AppVersion + ")"
  {
    NoCharAppend('\n', "1.1 ", hostname);
    NoCharAppend('\n', "1.1 " + hostname, " (");
    NoCharAppend('\n', "1.1 " + hostname + " (", AppName);
    NoCharAppend('\n', "1.1 " + hostname + " (" + AppName, "/");
    NoCharAppend('\n', "1.1 " + hostname + " (" + AppName + "/", AppVersion);
    NoCharAppend('\n', "1.1 " + hostname + " (" + AppName + "/" + AppVersion, ")");
  }

  lemma ForwardedValueSafe(peerAddr: string, localAddr: string)
    requires '\n' !in peerAddr && '\n' !in localAddr
    ensures '\n' !in "for=" + peerAddr + ";proto=http;by=" + localAddr
  {
    NoCharAppend('\n', "for=", peerAddr);
    NoCharAppend('\n', "for=" + peerAddr, ";proto=http;by=");
    NoCharAppend('\n', "for=" + peerAddr + ";proto=http;by=", localAddr);
  }

  lemma NoCharAppend(c: char, a: string, b: string)
    requires c !in a && c !in b
    ensures c !in a + b
  {
  }

  // ---------------------------------------------------------------------
  // The diagnostic JSON body

  const UriKey: string := "{\"uri\": \""
  const MethodKey: string := ", \"method\": \""
  const BodyKey: string := ", \"body\": \""
  const HeadersKey: string := ", \"headers\": {"

  /** One member of the `headers` object, copied raw: no escaping. */
  function JsonEntry(h: Header): string
  {
    "\"" + h.name + "\": \"" + h.value + "\""
  }

  /** The members of the `headers` object, separated by commas. */
  function JsonEntries(hs: seq<Header>): string
  {
    if hs == [] then ""
    else if |hs| == 1 then JsonEntry(hs[0])
    else JsonEntry(hs[0]) + "," + JsonEntries(hs[1..])
  }

  /** Adding one member at the end puts a comma before it unless it is the first. */
  lemma {:induction false} JsonEntriesSnoc(hs: seq<Header>, h: Header)
    ensures JsonEntries(hs + [h]) == JsonEntries(hs) + (if hs == [] then "" else ",") + JsonEntry(h)
  {
    if hs == [] {
      assert hs + [h] == [h];
    } else if |hs| == 1 {
      assert (hs + [h])[1..] == [h];
    } else {
      assert (hs + [h])[1..] == hs[1..] + [h];
      JsonEntriesSnoc(hs[1..], h);
    }
  }

  /** Everything the echo writes before the first header member. */
  function EchoPrefix(m: HttpMessage): string
  {
    UriKey + m.uri + "\"" + MethodKey + m.httpMethod + "\"" + BodyKey + m.body + "\"" + HeadersKey
  }

  /** The diagnostic JSON body for a request. */
  function EchoBody(m: HttpMessage): string
  {
    EchoPrefix(m) + JsonEntries(ScannedHeaders(m.headers)) + "}}"
  }

  /** The URI appears verbatim right after the opening key, whatever it holds. */
  lemma EchoCopiesUriRaw(m: HttpMessage)
    ensures |EchoBody(m)| >= |UriKey| + |m.uri|
    ensures EchoBody(m)[|UriKey|..|UriKey| + |m.uri|] == m.uri
  {
    var rest := "\"" + MethodKey + m.httpMethod + "\"" + BodyKey + m.body + "\"" + HeadersKey
                + JsonEntries(ScannedHeaders(m.headers)) + "}}";
    assert EchoBody(m) == UriKey + m.uri + rest;
  }

  /** Reads the literal `key`, then a field up to the next double quote. */
  function ParseField(key: string, s: string): (r: Option<(string, string)>)
    ensures r.Some? ==> |r.value.1| < |s|
  {
    match Expect(key, s)
    case None => None
    case Some(r1) => SplitAt(r1, '"')
  }

  lemma ParseFieldAt(key: string, field: string, rest: string)
    requires '"' !in field
    ensures ParseField(key, key + field + "\"" + rest) == Some((field, rest))
  {
    var r1 := field + "\"" + rest;
    assert key + field + "\"" + rest == key + r1;
    ExpectAt(key, r1);
    SplitAtFirst(field, '"', rest);
  }

  function ParseEntry(s: string): (r: Option<(Header, string)>)
    ensures r.Some? ==> |r.value.1| < |s|
  {
    match ParseField("\"", s)
    case None => None
    case Some((name, r1)) =>
      match ParseField(": \"", r1)
      case None => None
      case Some((value, r2)) => Some((Header(name, value), r2))
  }

  function ParseEntryList(s: string): Option<(seq<Header>, string)>
    decreases |s|
  {
    match ParseEntry(s)
    case None => None
    case Some((h, rest)) =>
      if |rest| > 0 && rest[0] == ',' then
        match ParseEntryList(rest[1..])
        case None => None
        case Some((hs, tail)) => Some(([h] + hs, tail))
      else Some(([h], rest))
  }

  /** Reads the members of a `headers` object, stopping before what follows them. */
  function ParseEntries(s: string): Option<(seq<Header>, string)>
  {
    if |s| > 0 && s[0] == '"' then ParseEntryList(s) else Some(([], s))
  }

  /** Reads a diagnostic body back as the request fields it echoes. */
  function ParseEcho(s: string): Option<HttpMessage>
  {
    match ParseField(UriKey, s)
    case None => None
    case Some((uri, r1)) =>
      match ParseField(MethodKey, r1)
      case None => None
      case Some((verb, r2)) =>
        match ParseField(BodyKey, r2)
        case None => None
        case Some((body, r3)) =>
          match Expect(HeadersKey, r3)
          case None => None
          case Some(r4) =>
            match ParseEntries(r4)
            case None => None
            case Some((hs, r5)) =>
              if r5 == "}}" then Some(HttpMessage(verb, uri, hs, body)) else None
  }

  predicate QuoteFree(h: Header)
  {
    '"' !in h.name && '"' !in h.value
  }

  lemma ParseEntryAt(h: Header, rest: string)
    requires QuoteFree(h)
    ensures ParseEntry(JsonEntry(h) + rest) == Some((h, rest))
  {
    var r1 := ": \"" + h.value + "\"" + rest;
    assert JsonEntry(h) + rest == "\"" + h.name + "\"" + r1;
    ParseFieldAt("\"", h.name, r1);
    ParseFieldAt(": \"", h.value, rest);
  }

  lemma ParseLastEntry(h: Header, tail: string)
    requires QuoteFree(h)
    requires tail == [] || tail[0] != ','
    ensures ParseEntryList(JsonEntry(h) + tail) == Some(([h], tail))
  {
    ParseEntryAt(h, tail);
  }

  lemma ParseNextEntry(hs: seq<Header>, more: string, tail: string)
    requires |hs| > 0 && QuoteFree(hs[0])
    requires ParseEntryList(more) == Some((hs[1..], tail))
    ensures ParseEntryList(JsonEntry(hs[0]) + ("," + more)) == Some((hs, tail))
  {
    ParseEntryAt(hs[0], "," + more);
    assert ("," + more)[1..] == more;
    assert [hs[0]] + hs[1..] == hs;
  }

  lemma ParseEntriesCons(hs: seq<Header>, tail: string)
    requires |hs| > 1 && QuoteFree(hs[0])
    requires ParseEntryList(JsonEntries(hs[1..]) + tail) == Some((hs[1..], tail))
    ensures ParseEntryList(JsonEntries(hs) + tail) == Some((hs, tail))
  {
    JsonEntriesCons(hs, tail);
    ParseNextEntry(hs, JsonEntries(hs[1..]) + tail, tail);
  }

  lemma JsonEntriesCons(hs: seq<Header>, tail: string)
    requires |hs| > 1
    ensures JsonEntries(hs) + tail == JsonEntry(hs[0]) + ("," + (JsonEntries(hs[1..]) + tail))
  {
    Assoc(JsonEntry(hs[0]), ",", JsonEntries(hs[1..]), tail);
  }

  lemma Assoc(a: string, b: string, c: string, d: string)
    ensures a + b + c + d == a + (b + (c + d))
  {
  }

  lemma {:induction false} ParseEntryListRoundTrip(hs: seq<Header>, tail: string)
    requires |hs| > 0 && forall k :: 0 <= k < |hs| ==> QuoteFree(hs[k])
    requires tail == [] || tail[0] != ','
    ensures ParseEntryList(JsonEntries(hs) + tail) == Some((hs, tail))
  {
    if |hs| == 1 {
      ParseLastEntry(hs[0], tail);
      assert [hs[0]] == hs;
    } else {
      ParseEntryListRoundTrip(hs[1..], tail);
      ParseEntriesCons(hs, tail);
    }
  }

  lemma ParseEntriesRoundTrip(hs: seq<Header>)
    requires forall k :: 0 <= k < |hs| ==> QuoteFree(hs[k])
    ensures ParseEntries(JsonEntries(hs) + "}}") == Some((hs, "}}"))
  {
    if hs == [] {
      assert JsonEntries(hs) + "}}" == "}}";
    } else {
      ParseEntryListRoundTrip(hs, "}}");
      assert JsonEntry(hs[0])[0] == '"';
      assert (JsonEntries(hs) + "}}")[0] == '"';
    }
  }

  lemma Regroup(a: string, b: string, c: string, d: string, e: string, f: string, g: string,
                h: string, i: string, j: string, k: string, l: string)
    ensures a + b + c + d + e + f + g + h + i + j + k + l
            == a + b + c + (d + e + f + (g + h + i + (j + (k + l))))
  {
  }

  lemma ParseEchoFields(uri: string, verb: string, body: string, entries: string, hs: seq<Header>)
    requires '"' !in uri && '"' !in verb && '"' !in body
    requires ParseEntries(entries) == Some((hs, "}}"))
    ensures ParseEcho(UriKey + uri + "\"" + (MethodKey + verb + "\"" + (BodyKey + body + "\"" + (HeadersKey + entries))))
            == Some(HttpMessage(verb, uri, hs, body))
  {
    var r3 := HeadersKey + entries;
    var r2 := BodyKey + body + "\"" + r3;
    var r1 := MethodKey + verb + "\"" + r2;
    ParseFieldAt(UriKey, uri, r1);
    ParseFieldAt(MethodKey, verb, r2);
    ParseFieldAt(BodyKey, body, r3);
    ExpectAt(HeadersKey, entries);
  }

  /** With no double quote in any echoed field, the diagnostic body reads
      back as exactly the request's URI, method, body and scanned headers,
      every header once per occurrence and in order. */
  lemma EchoRoundTrip(m: HttpMessage)
    requires '"' !in m.uri && '"' !in m.httpMethod && '"' !in m.body
    requires forall k :: 0 <= k < |m.headers| ==> QuoteFree(m.headers[k])
    ensures ParseEcho(EchoBody(m)) == Some(HttpMessage(m.httpMethod, m.uri, ScannedHeaders(m.headers), m.body))
  {
    var hs := ScannedHeaders(m.headers);
    forall k | 0 <= k < |hs| ensures QuoteFree(hs[k]) {
      assert hs[k] == m.headers[k];
    }
    ParseEntriesRoundTrip(hs);
    Regroup(UriKey, m.uri, "\"", MethodKey, m.httpMethod, "\"", BodyKey, m.body, "\"", HeadersKey,
            JsonEntries(hs), "}}");
    ParseEchoFields(m.uri, m.httpMethod, m.body, JsonEntries(hs) + "}}", hs);
  }
}
