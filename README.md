# simple_proxy, modelled in Dafny

`examples/simple_proxy/main.c` is a forward HTTP proxy built on the mongoose
event library. Each complete request from a client takes one of three routes:

- `CONNECT` (any case) opens a TCP tunnel to `tcp://<uri>`;
- a request carrying a `Proxy-Connection` header is forwarded upstream with an
  extra-header block;
- anything else is answered in place with a JSON echo of the request.

After that, the event handler relays bytes between the two paired
connections. It propagates closes and hands a complete upstream reply back to
the client.

The model has five modules:

- `Wrappers` (`wrappers.dfy`): the `Option` type.
- `Text` (`text.dfy`): literal matching, splitting at a character, and
  decimal rendering with its reader, as `%d` writes a non-negative number.
- `Mongoose` (`mongoose.dfy`): the library's side of a request.
  - A parsed `HttpMessage` with an ordered header list.
  - ASCII case-insensitive name comparison.
  - The header scan all loops share: stop at the first empty name or after
    `MG_MAX_HTTP_HEADERS` (20) slots.
  - `mg_get_http_header`.
- `SimpleProxy` (`simple_proxy.dfy`): the pure request handling.
  - Dispatch.
  - The tunnel address.
  - The header filter, the five appended lines, and the loop method
    `BuildExtraHeaders` that writes the block.
  - The JSON echo body.
  - A reader for the header block and one for the JSON body. Each is proved
    to read back what was written.
- `ProxyConnection` (`connection.dfy`): a `Connection` class. Its fields are:
  - the receive buffer;
  - the send buffer, a sequence of octets and opaque library-formatted
    items;
  - the peer slot (`user_data`);
  - the close flags.

  The handlers `forward_tcp_connection`, `forward_http_request`,
  `forward_http_response` and `reply_json_response`, and each case of
  `ev_handler`, are methods with `modifies` clauses. The JSON reply keeps
  the source's loop. Each method states the whole new state.

- `ProxySessions` (`sessions.dfy`): whole exchanges. Each one creates a
  client connection, dispatches one request, applies one chosen sequence of
  events, and states what each side ends up with. The order in which the
  library would deliver those events is not modelled.

Inputs the program gets from outside become parameters:

- the host name (`gethostname`);
- the local and peer address strings (`mg_conn_addr_to_str`);
- the port;
- whether `mg_connect_opt` / `mg_connect_http_opt` return a connection
  (`connectOk`);
- the status of `MG_EV_CONNECT`;
- the bytes the library reads.

The model follows the code as written, including these points where the
code looks unintended:

- **The header filter copies the wrong headers.** The loop at main.c:65-82
  declares `proxy_conn` and `proxy_auth`, which suggests that
  `Proxy-Connection` and `Proxy-Authorization` were meant to be set aside
  and the other headers copied. The test at main.c:74 reads
  `0 != mg_vcmp(...)`, so main.c:76 stores the value of every header named
  neither `Proxy-Connection` nor `Proxy-Authorization` in `proxy_auth`
  (never read) instead of copying it. Only headers named exactly
  `Proxy-Authorization` reach main.c:80 and are copied upstream.
- **A close does not clear the pairing.** `MG_EV_CLOSE` (main.c:180-185)
  only sets `MG_F_SEND_AND_CLOSE` on the peer. Both `user_data` slots keep
  pointing at each other after one side is destroyed.
- **A failed dial passes a null connection to the error send.**
  `forward_tcp_connection` and `forward_http_request` call
  `mg_http_send_error(nc->user_data, 400, errmsg)` right after finding
  `nc->user_data` null (main.c:49, 98), so the error cannot reach the client.
  The model treats the send to the null `user_data` as a no-op.
- **The port is printed raw.** `X-Forwarded-Port` prints `nc->sa.sin.sin_port`
  with `%d` (main.c:90), that is, in network byte order, with no `ntohs`.
- **The echo lists only the scanned headers.** The loop at main.c:125 stops
  at the first empty name or after `MG_MAX_HTTP_HEADERS` headers.

## Model

| member | source | states |
|---|---|---|
| Mongoose.Scan | examples/simple_proxy/main.c:65 | the headers a loop guarded by `i < MG_MAX_HTTP_HEADERS && header_names[i].len > 0` visits: a prefix of the slots, at most the cap long, all names non-empty, ending at the cap, the end, or an empty name |
| Mongoose.ScanStopsAt | examples/simple_proxy/main.c:65 | the header loop's guard holds at slot `i` exactly when `i` is inside the scanned prefix, and the slots visited so far are that prefix, so a loop stopping on the guard has visited exactly the headers before the first empty name, capped at MG_MAX_HTTP_HEADERS |
| Mongoose.GetHeader | examples/simple_proxy/main.c:150 | a value is found iff some header's name equals the wanted name ignoring case; the value is that of the first such header |
| SimpleProxy.Classify | examples/simple_proxy/main.c:145-157 | exactly one route: Tunnel iff the method is CONNECT ignoring case (whatever the headers); ForwardHttp iff not CONNECT and a scanned header is named Proxy-Connection ignoring case; JsonEcho otherwise |
| SimpleProxy.IsConnect | examples/simple_proxy/main.c:146 | `mg_vcasecmp(&hm->method, "CONNECT") == 0`: the method equals CONNECT ignoring ASCII case, so it is seven characters long |
| SimpleProxy.TunnelAddress | examples/simple_proxy/main.c:39 | the dial address is `tcp://` followed by the URI verbatim |
| SimpleProxy.TunnelAddressInjective | examples/simple_proxy/main.c:39 | distinct URIs give distinct dial addresses |
| SimpleProxy.HeaderLine | examples/simple_proxy/main.c:80 | one copied header printed as `Name: Value\n` |
| SimpleProxy.Serialize | examples/simple_proxy/main.c:80-92 | the header block: the lines of the listed headers, in order |
| SimpleProxy.CopiedUpstream | examples/simple_proxy/main.c:70-81 | the branch chain as written: a header is copied iff its name is exactly Proxy-Authorization (so never when it is Proxy-Connection) |
| SimpleProxy.Filter | examples/simple_proxy/main.c:65-82 | every kept header is one of the input headers named exactly Proxy-Authorization, and every input header so named is kept |
| SimpleProxy.FilterAppend | examples/simple_proxy/main.c:65-82 | the filter decides header by header, so filtering a concatenation concatenates the filtered parts, preserving order |
| SimpleProxy.UpstreamHeaders | examples/simple_proxy/main.c:65-92 | the filtered headers are all named Proxy-Authorization, at least five lines follow them, and no line is named Proxy-Connection |
| SimpleProxy.InjectedHeaders | examples/simple_proxy/main.c:88-92 | exactly five headers, named Via, X-Forwarded-For, X-Forwarded-Port, X-Forwarded-Proto and Forwarded in that order; X-Forwarded-For carries the peer address and X-Forwarded-Proto is `http` |
| SimpleProxy.InjectedNames | examples/simple_proxy/main.c:88-92 | none of the five appended headers is named Proxy-Connection |
| SimpleProxy.BuildExtraHeaders | examples/simple_proxy/main.c:65-92 | the loop over the header slots followed by the five writes produces exactly the serialised header list: the kept headers in order, then Via, X-Forwarded-For, X-Forwarded-Port, X-Forwarded-Proto, Forwarded, each `Name: Value\n` |
| SimpleProxy.SerializeAppend | examples/simple_proxy/main.c:80-92 | the header block of a concatenation is the concatenation of the blocks |
| SimpleProxy.SerializeRoundTrip | examples/simple_proxy/main.c:80 | a header list with no `:` in names and no newline in values reads back from its `Name: Value\n` block unchanged |
| SimpleProxy.UpstreamBlockRoundTrip | examples/simple_proxy/main.c:65-92 | the extra-header block sent upstream reads back as the filtered headers followed by the five appended ones, whenever the header values, host name and addresses hold no newline |
| SimpleProxy.InjectedLineSafe | examples/simple_proxy/main.c:88-92 | the five appended lines contain no line break of their own when the host name and addresses have none |
| Text.DecimalRoundTrip | examples/simple_proxy/main.c:90 | the port written with `%d` reads back as the same number |
| Text.Decimal | examples/simple_proxy/main.c:90 | the port text is a non-empty run of digits with no leading zero except for 0 itself |
| SimpleProxy.JsonEntry | examples/simple_proxy/main.c:129-130 | one header printed as `"name": "value"`, unescaped |
| SimpleProxy.JsonEntries | examples/simple_proxy/main.c:125-131 | the header entries in order, separated by commas, none before the first |
| SimpleProxy.EchoPrefix | examples/simple_proxy/main.c:119-123 | `{"uri": "U", "method": "M", "body": "B", "headers": {` with the three fields copied raw |
| SimpleProxy.EchoBody | examples/simple_proxy/main.c:119-133 | the prefix, the entries of the scanned headers, then `}}` |
| SimpleProxy.JsonEntriesSnoc | examples/simple_proxy/main.c:125-131 | one more header adds its `"name": "value"` entry at the end, preceded by a comma except for the first one |
| SimpleProxy.EchoCopiesUriRaw | examples/simple_proxy/main.c:119-123 | the URI appears verbatim, unescaped, right after `{"uri": "` |
| SimpleProxy.ParseEntryListRoundTrip | examples/simple_proxy/main.c:125-131 | the comma-separated header entries read back as the same headers in order, when no name or value holds a quote |
| SimpleProxy.EchoRoundTrip | examples/simple_proxy/main.c:119-133 | the echo body reads back as the request's method, URI, body and scanned headers in order, when none of them holds a quote |
| ProxyConnection.OctetsAppend | examples/simple_proxy/main.c:107 | queuing two pieces one after the other queues their concatenation |
| ProxyConnection.OctetsInjective | examples/simple_proxy/main.c:175 | equal queued octets come from equal byte strings, so nothing is lost or reordered |
| ProxyConnection.Connection.Accepted | examples/simple_proxy/main.c:268 | a client connection accepted by the listener bound here (its `user_data` is never set by the listener): empty buffers, no flags, a null `user_data` slot, not dialled |
| ProxyConnection.Connection.Dialed | examples/simple_proxy/main.c:35-41 | the connection `mg_connect_opt` / `mg_connect_http_opt` return: its `user_data` is `opts.user_data`, the owner; it records the address or URL it was dialled with and holds only the queued request |
| ProxyConnection.Connection.ForwardTcpConnection | examples/simple_proxy/main.c:32-51 | the dial address is TunnelAddress(uri); on success a fresh upstream with empty buffers points back at the client, dialled at that address, the client points at it and gets a 200 head with `Proxy-agent: simple_proxy/1.0`; on failure the peer slot is null and nothing is queued; receive buffer and flags unchanged |
| ProxyConnection.Connection.ForwardHttpRequest | examples/simple_proxy/main.c:53-102 | on success a fresh upstream dialled with the request URI and paired back to the client holds the one request with the URI, the extra-header block of UpstreamHeaders and the body; on failure the peer slot is null; the client's buffers and flags are unchanged |
| ProxyConnection.Connection.ForwardHttpResponse | examples/simple_proxy/main.c:104-110 | the whole reply is appended to the client's send buffer, the client gains send-and-close, this connection gains close-immediately, nothing else changes (also when the peer slot points at the connection itself) |
| ProxyConnection.Connection.ReplyJsonResponse | examples/simple_proxy/main.c:112-136 | the loop queues a 200 response line with the text/html and close headers followed by exactly the octets of EchoBody, then marks the connection send-and-close; receive buffer and peer unchanged |
| ProxyConnection.Connection.OnHttpRequest | examples/simple_proxy/main.c:145-159 | the route taken is Classify(m) and the state afterwards is that of the route's handler |
| ProxyConnection.Connection.OnConnect | examples/simple_proxy/main.c:161-166 | a non-zero status with a peer appends one 502 error page to the peer's send buffer and changes nothing else; otherwise nothing changes |
| ProxyConnection.Connection.OnRecv | examples/simple_proxy/main.c:172-178 | with a peer, the peer's send buffer gains the whole old receive buffer in order and the receive buffer is emptied, nothing else changes; without one, nothing changes |
| ProxyConnection.Connection.OnClose | examples/simple_proxy/main.c:180-185 | with a peer, the peer gains send-and-close; no buffer and no peer slot changes; without one, nothing changes |
| ProxySessions.TunnelRelay | examples/simple_proxy/main.c:41-45 | after a successful CONNECT and data from both ends, the upstream was dialled at `tcp://` plus the URI, the client holds the 200 head then the upstream's bytes, the upstream holds the client's bytes, both are still paired and both receive buffers are empty |
| ProxySessions.TunnelRefused | examples/simple_proxy/main.c:41-50 | after a failed CONNECT dial, with the error send to the null `user_data` treated as a no-op (main.c:49), the client is sent nothing, has no peer, and its later bytes stay unrelayed in its receive buffer |
| ProxySessions.ForwardExchange | examples/simple_proxy/main.c:94-110 | a forwarded request dials the request URI and sends the upstream exactly one request with the UpstreamHeaders block; the upstream's reply reaches the client whole; the client is send-and-close, the upstream close-immediately |
| ProxySessions.ForwardConnectFailed | examples/simple_proxy/main.c:161-165 | when the upstream connect reports an error, the client is sent one 502 error page and nothing else |
| ProxySessions.Echo | examples/simple_proxy/main.c:154-157 | a request that is neither CONNECT nor proxied gets the response line and the echo body, is send-and-close and stays unpaired |
| ProxySessions.TunnelUpstreamCloses | examples/simple_proxy/main.c:180-185 | when the upstream of a tunnel closes, the client gains send-and-close, nothing new is queued and the pairing stays in place |

## Left out

- `main` and `signal_handler` are not modelled: option parsing, signals,
  binding and the poll loop are process plumbing.
- `create_tracer` is not modelled: it only wraps URI parsing and the
  zipkin/Kafka constructors.
- Socket I/O, event scheduling and the destruction of connections belong to
  the library. Events appear as method calls in the order the sessions make
  them, and received bytes arrive through `Deliver`.
- What `mg_send_head`, `mg_send_response_line`, `mg_http_send_error` and
  `mg_connect_http_opt` write on the wire is kept as one opaque send-buffer
  item each. The item carries the arguments the proxy passes. Any flags
  those library calls set themselves are not modelled.
- The connect options' error string (`errmsg`) is not modelled.
- The fixed-size buffers `addr` and `extra_headers` are unbounded strings,
  so the model has no `snprintf` truncation. The model also leaves out the
  write position running past the end of the buffer (main.c:37, 62).
- Every field the proxy prints with `%.*s` is copied whole: the tunnel
  address (main.c:39), the copied header lines (main.c:80), and the URI,
  method, body and header names and values of the echo (main.c:119-130).
  `%.*s` stops at the first NUL byte even within the given length, so a NUL
  inside any of these fields cuts the printed text short in the source. That
  cut is not modelled: SimpleProxy.TunnelAddress, SimpleProxy.HeaderLine,
  SimpleProxy.EchoBody and ProxyConnection.Connection.ReplyJsonResponse
  describe NUL-free fields only.
- ProxyConnection.Connection.ForwardHttpRequest: the URL is recorded as
  the address the upstream was dialled with; how the library turns it into
  a host and port is not modelled.
- The header bodies are `seq<char>`: there is no byte encoding, and the
  case folding is ASCII only.
- The value of `MG_MAX_HTTP_HEADERS` comes from mongoose.h, which is not
  part of this model. It is fixed at 20, the library's default.
- `mg_get_http_header` is modelled with the same bounded scan as the
  proxy's own loops.
- ProxyConnection.Connection.ForwardTcpConnection: the 400 error sent to
  the null `user_data` when the dial fails (main.c:49) is modelled as a
  no-op. What the library does with a null connection is unknown; it may
  just as well dereference it and crash.
- ProxyConnection.Connection.ForwardHttpRequest: the error send to the null
  `user_data` (main.c:98) is a no-op, for the same reason.
- ProxyConnection.Connection.OnConnect: a failed connect on a connection
  whose peer slot is null sends its 502 to null. That send is a no-op.
- ProxyConnection.Connection.ForwardHttpRequest: the body reaches the
  library as `hm->body.p`, a C string read up to a NUL byte. The model passes
  the parsed body string instead.
- ProxyConnection.Connection.ForwardHttpRequest: `strndup` may fail, and
  the model does not represent that.
- main.c:72 captures a `Proxy-Connection` value, and main.c:76 captures the
  value of every header named neither `Proxy-Connection` nor
  `Proxy-Authorization`, each overwriting the last. Neither variable is ever
  read, so both are omitted.
- The port is a given number below 65536 and is printed as it is. Whether
  it is in network byte order is not modelled.
- ProxyConnection.Connection.ForwardHttpResponse requires a peer. The
  source dereferences `user_data` unconditionally, so a reply on an
  unpaired connection is undefined behaviour.
