/** Whole exchanges through the proxy: a fresh client connection receives one
    request, then each method applies one chosen sequence of events to the
    connections involved and reports what ends up queued on each side.  The
    order in which the library would deliver these events is not modelled. */
module ProxySessions {
  import opened Mongoose
  import opened SimpleProxy
  import opened ProxyConnection

  /** A CONNECT request whose dial succeeds, followed by data from both ends:
      the upstream is dialled at `tcp://` plus the URI, each side's bytes
      reach the other side unchanged and in order, after the client's 200
      head, and both receive buffers are drained. */
  method TunnelRelay(m: HttpMessage, id: NetIdentity, fromClient: string, fromUpstream: string)
    returns (route: Route, dialled: string, toClient: seq<Out>, toUpstream: seq<Out>, paired: bool,
             leftOver: string)
    requires ValidIdentity(id)
    requires IsConnect(m.httpMethod)
    ensures route == Tunnel
    ensures dialled == TunnelAddress(m.uri)
    ensures toClient == [Head(200, 0, ProxyAgentHeader)] + Octets(fromUpstream)
    ensures toUpstream == Octets(fromClient)
    ensures paired
    ensures leftOver == []
  {
    var client := new Connection.Accepted();
    route := client.OnHttpRequest(m, id, true);
    var upstream := client.peer;
    dialled := upstream.address;
    client.Deliver(fromClient);
    client.OnRecv();
    upstream.Deliver(fromUpstream);
    upstream.OnRecv();
    toClient, toUpstream := client.send, upstream.send;
    paired := client.peer == upstream && upstream.peer == client;
    leftOver := client.recv + upstream.recv;
  }

  /** A CONNECT request whose dial fails: the model treats the error send to
      the null peer slot (main.c:49) as a no-op, so the client is sent
      nothing; later client bytes are not relayed but stay in its receive
      buffer. */
  method TunnelRefused(m: HttpMessage, id: NetIdentity, fromClient: string)
    returns (route: Route, toClient: seq<Out>, hasPeer: bool, kept: string)
    requires ValidIdentity(id)
    requires IsConnect(m.httpMethod)
    ensures route == Tunnel
    ensures toClient == []
    ensures !hasPeer
    ensures kept == fromClient
  {
    var client := new Connection.Accepted();
    route := client.OnHttpRequest(m, id, false);
    client.Deliver(fromClient);
    client.OnRecv();
    toClient, hasPeer, kept := client.send, client.peer != null, client.recv;
  }

  /** A proxied HTTP request that connects and is answered: the upstream is
      dialled with the request URI and sent the request with the
      extra-header block, the client is sent the
      upstream's whole reply and closes once it is flushed, and the upstream
      closes at once. */
  method ForwardExchange(m: HttpMessage, id: NetIdentity, reply: string)
    returns (route: Route, dialled: string, toUpstream: seq<Out>, toClient: seq<Out>,
             clientFlags: set<Flag>, upstreamFlags: set<Flag>)
    requires ValidIdentity(id)
    requires !IsConnect(m.httpMethod) && HasHeader(ScannedHeaders(m.headers), "Proxy-Connection")
    ensures route == ForwardHttp
    ensures dialled == m.uri
    ensures toUpstream == [Request(m.uri, Serialize(UpstreamHeaders(m, id)), m.body)]
    ensures toClient == Octets(reply)
    ensures clientFlags == {SendAndClose} && upstreamFlags == {CloseImmediately}
  {
    var client := new Connection.Accepted();
    route := client.OnHttpRequest(m, id, true);
    var upstream := client.peer;
    dialled := upstream.address;
    upstream.OnConnect(0);
    upstream.ForwardHttpResponse(reply);
    toUpstream, toClient := upstream.send, client.send;
    clientFlags, upstreamFlags := client.flags, upstream.flags;
  }

  /** A proxied HTTP request whose connect completes with an error status:
      the client is sent a 502 error page and nothing else. */
  method ForwardConnectFailed(m: HttpMessage, id: NetIdentity, status: int)
    returns (route: Route, toClient: seq<Out>)
    requires ValidIdentity(id) && status != 0
    requires !IsConnect(m.httpMethod) && HasHeader(ScannedHeaders(m.headers), "Proxy-Connection")
    ensures route == ForwardHttp
    ensures toClient == [ErrorPage(502)]
  {
    var client := new Connection.Accepted();
    route := client.OnHttpRequest(m, id, true);
    var upstream := client.peer;
    upstream.OnConnect(status);
    toClient := client.send;
  }

  /** A plain request (neither CONNECT nor proxied) is answered in place
      with the JSON echo and closes once it is flushed; the client stays
      unpaired. */
  method Echo(m: HttpMessage, id: NetIdentity)
    returns (route: Route, toClient: seq<Out>, flags: set<Flag>, hasPeer: bool)
    requires ValidIdentity(id)
    requires !IsConnect(m.httpMethod) && !HasHeader(ScannedHeaders(m.headers), "Proxy-Connection")
    ensures route == JsonEcho
    ensures toClient == [ResponseLine(200, EchoResponseHeaders)] + Octets(EchoBody(m))
    ensures flags == {SendAndClose} && !hasPeer
  {
    var client := new Connection.Accepted();
    route := client.OnHttpRequest(m, id, true);
    toClient, flags, hasPeer := client.send, client.flags, client.peer != null;
  }

  /** An established tunnel whose upstream closes: the client is told to
      close once flushed, nothing is queued on either side, and the pairing
      is left in place. */
  method TunnelUpstreamCloses(m: HttpMessage, id: NetIdentity)
    returns (toClient: seq<Out>, clientFlags: set<Flag>, upstreamFlags: set<Flag>, paired: bool)
    requires ValidIdentity(id)
    requires IsConnect(m.httpMethod)
    ensures toClient == [Head(200, 0, ProxyAgentHeader)]
    ensures clientFlags == {SendAndClose} && upstreamFlags == {}
    ensures paired
  {
    var client := new Connection.Accepted();
    var _ := client.OnHttpRequest(m, id, true);
    var upstream := client.peer;
    upstream.OnClose();
    toClient, clientFlags, upstreamFlags := client.send, client.flags, upstream.flags;
    paired := client.peer == upstream && upstream.peer == client;
  }
}
