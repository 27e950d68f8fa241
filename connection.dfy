/** The connection state the proxy's event handler changes in place: each
    connection has a receive buffer, a send buffer, a peer slot (mongoose's
    `user_data`) and close flags.  The handlers of examples/simple_proxy/main.c
    become methods on the connection the event arrived on. */
module ProxyConnection {
  import opened Mongoose
  import opened SimpleProxy

  /** The two connection flags the proxy sets. */
  datatype Flag = SendAndClose | CloseImmediately

  /** One item of a send buffer.  Bytes queued with `mg_send` or `mg_printf`
      are octets; what the library formats itself (a response head, a
      response line, an error page, an outgoing request) is kept as one
      opaque item carrying the arguments the proxy passed. */
  datatype Out =
    | Octet(c: char)
    | Head(status: int, contentLength: int, extraHeaders: string)
    | ResponseLine(status: int, extraHeaders: string)
    | ErrorPage(status: int)
    | Request(uri: string, extraHeaders: string, body: string)

  /** The bytes of `s`, as queued on a send buffer. */
  function Octets(s: string): (r: seq<Out>)
    ensures |r| == |s|
    ensures forall k :: 0 <= k < |s| ==> r[k] == Octet(s[k])
  {
    if s == [] then [] else [Octet(s[0])] + Octets(s[1..])
  }

  /** Queuing two pieces one after the other queues their concatenation. */
  lemma OctetsAppend(s: string, t: string)
    ensures Octets(s + t) == Octets(s) + Octets(t)
  {
    assert |Octets(s + t)| == |Octets(s) + Octets(t)|;
    forall k | 0 <= k < |s + t| ensures Octets(s + t)[k] == (Octets(s) + Octets(t))[k] {
      if k < |s| { assert (s + t)[k] == s[k]; } else { assert (s + t)[k] == t[k - |s|]; }
    }
  }

  /** The library reads the octets of a send buffer back in order. */
  lemma OctetsInjective(s: string, t: string)
    requires Octets(s) == Octets(t)
    ensures s == t
  {
    assert |s| == |t|;
    forall k | 0 <= k < |s| ensures s[k] == t[k] {
      assert Octets(s)[k] == Octet(s[k]) && Octets(t)[k] == Octet(t[k]);
    }
  }

  /** The extra headers of the JSON reply's response line. */
  const EchoResponseHeaders: string := "Content-Type: text/html\r\nConnection: close\r\n"

  class Connection {
    /** `recv_mbuf`: the bytes received and not yet consumed. */
    var recv: string
    /** `send_mbuf`: what is queued for sending, in order. */
    var send: seq<Out>
    /** `user_data`: the connection at the other end of the proxy, if any. */
    var peer: Connection?
    /** The bits of `flags` the proxy sets. */
    var flags: set<Flag>
    /** What an outgoing connection was dialled with: the `tcp://` address or
        the request URL; empty for a connection the listener accepted. */
    var address: string

    /** A client connection the listener has just accepted. */
    constructor Accepted()
      ensures recv == [] && send == [] && peer == null && flags == {} && address == []
    {
      recv := [];
      send := [];
      peer := null;
      flags := {};
      address := [];
    }

    /** The connection `mg_connect_opt` or `mg_connect_http_opt` creates, with
        `opts.user_data` set to `owner`, dialled with `target`, and `request`
        already queued. */
    constructor Dialed(owner: Connection, target: string, request: seq<Out>)
      ensures recv == [] && send == request && peer == owner && flags == {} && address == target
    {
      recv := [];
      send := request;
      peer := owner;
      flags := {};
      address := target;
    }

    /** The library appends freshly read bytes to the receive buffer. */
    method Deliver(data: string)
      modifies this
      ensures recv == old(recv) + data
      ensures send == old(send) && peer == old(peer) && flags == old(flags) && address == old(address)
    {
      recv := recv + data;
    }

    /** `forward_tcp_connection`: dial `tcp://` plus the request URI; on
        success pair the two connections and answer the client with a 200
        head; on failure the peer slot is set to null (the dial result is
        stored unconditionally) and the error reply is sent to that null
        slot, which the model treats as a no-op. */
    method ForwardTcpConnection(m: HttpMessage, connectOk: bool) returns (addr: string)
      modifies this
      ensures addr == TunnelAddress(m.uri)
      ensures connectOk ==> peer != null && fresh(peer) && peer.peer == this && peer.address == addr
                            && peer.recv == [] && peer.send == [] && peer.flags == {}
                            && send == old(send) + [Head(200, 0, ProxyAgentHeader)]
      ensures !connectOk ==> peer == null && send == old(send)
      ensures recv == old(recv) && flags == old(flags) && address == old(address)
    {
      addr := TunnelAddress(m.uri);
      if connectOk {
        var upstream := new Connection.Dialed(this, addr, []);
        peer := upstream;
        send := send + [Head(200, 0, ProxyAgentHeader)];
      } else {
        peer := null;
      }
    }

    /** `forward_http_request`: build the extra-header block and dial the
        request URI with it and the body; on success the new connection
        holds the request and is paired with this one. */
    method ForwardHttpRequest(m: HttpMessage, id: NetIdentity, connectOk: bool)
      requires ValidIdentity(id)
      modifies this
      ensures connectOk ==> peer != null && fresh(peer) && peer.peer == this && peer.recv == []
                            && peer.send == [Request(m.uri, Serialize(UpstreamHeaders(m, id)), m.body)]
                            && peer.flags == {} && peer.address == m.uri
      ensures !connectOk ==> peer == null
      ensures recv == old(recv) && send == old(send) && flags == old(flags) && address == old(address)
    {
      var extra := BuildExtraHeaders(m, id);
      if connectOk {
        var upstream := new Connection.Dialed(this, m.uri, [Request(m.uri, extra, m.body)]);
        peer := upstream;
      } else {
        peer := null;
      }
    }

    /** `forward_http_response`, on the upstream connection: hand the whole
        reply to the client, let the client close once it is sent, and close
        this connection at once.  The source dereferences the peer slot
        without a test, so a peer is required. */
    method ForwardHttpResponse(message: string)
      requires peer != null
      modifies this, peer
      ensures peer == old(peer) && recv == old(recv) && address == old(address)
      ensures peer != this ==> peer.send == old(peer.send) + Octets(message)
                               && peer.flags == old(peer.flags) + {SendAndClose}
                               && peer.recv == old(peer.recv) && peer.peer == old(peer.peer)
                               && peer.address == old(peer.address)
                               && send == old(send) && flags == old(flags) + {CloseImmediately}
      ensures peer == this ==> send == old(send) + Octets(message)
                               && flags == old(flags) + {SendAndClose, CloseImmediately}
    {
      var client := peer;
      client.send := client.send + Octets(message);
      client.flags := client.flags + {SendAndClose};
      flags := flags + {CloseImmediately};
    }

    /** `reply_json_response`: a 200 response line, then the diagnostic JSON
        body printed piece by piece, one piece per scanned header; the
        connection closes once it is sent. */
    method ReplyJsonResponse(m: HttpMessage)
      modifies this
      ensures send == old(send) + [ResponseLine(200, EchoResponseHeaders)] + Octets(EchoBody(m))
      ensures flags == old(flags) + {SendAndClose}
      ensures recv == old(recv) && peer == old(peer) && address == old(address)
    {
      var hs := m.headers;
      send := send + [ResponseLine(200, EchoResponseHeaders)];
      ghost var start := send;
      ghost var printed := EchoPrefix(m);
      send := send + Octets(EchoPrefix(m));
      var i := 0;
      while i < MaxHttpHeaders && i < |hs| && |hs[i].name| > 0
        invariant i <= |ScannedHeaders(hs)|
        invariant printed == EchoPrefix(m) + JsonEntries(hs[..i])
        invariant send == start + Octets(printed)
        invariant flags == old(flags) && recv == old(recv) && peer == old(peer) && address == old(address)
      {
        ScanStopsAt(hs, i);
        var piece := (if i != 0 then "," else "") + JsonEntry(hs[i]);
        send := send + Octets(piece);
        OctetsAppend(printed, piece);
        SeqAssoc(start, Octets(printed), Octets(piece));
        PrintStep(EchoPrefix(m), hs, i, piece);
        printed := printed + piece;
        i := i + 1;
      }
      ScanStopsAt(hs, i);
      assert hs[..i] == ScannedHeaders(hs);
      assert printed + "}}" == EchoBody(m);
      send := send + Octets("}}");
      OctetsAppend(printed, "}}");
      SeqAssoc(start, Octets(printed), Octets("}}"));
      flags := flags + {SendAndClose};
    }

    /** The `MG_EV_HTTP_REQUEST` case of `ev_handler`: classify the request
        and run the handler of its route. */
    method OnHttpRequest(m: HttpMessage, id: NetIdentity, connectOk: bool) returns (route: Route)
      requires ValidIdentity(id)
      modifies this
      ensures route == Classify(m)
      ensures recv == old(recv) && address == old(address)
      ensures route == JsonEcho ==> peer == old(peer) && flags == old(flags) + {SendAndClose}
                                    && send == old(send) + [ResponseLine(200, EchoResponseHeaders)]
                                                         + Octets(EchoBody(m))
      ensures route == Tunnel ==> flags == old(flags)
                                  && (connectOk ==> peer != null && fresh(peer) && peer.peer == this
                                                    && peer.address == TunnelAddress(m.uri)
                                                    && peer.send == [] && peer.recv == [] && peer.flags == {}
                                                    && send == old(send) + [Head(200, 0, ProxyAgentHeader)])
                                  && (!connectOk ==> peer == null && send == old(send))
      ensures route == ForwardHttp ==> flags == old(flags) && send == old(send)
                                       && (connectOk ==> peer != null && fresh(peer) && peer.peer == this
                                                         && peer.recv == [] && peer.flags == {}
                                                         && peer.address == m.uri
                                                         && peer.send == [Request(m.uri, Serialize(UpstreamHeaders(m, id)), m.body)])
                                       && (!connectOk ==> peer == null)
    {
      if IsConnect(m.httpMethod) {
        route := Tunnel;
        var _ := ForwardTcpConnection(m, connectOk);
      } else if GetHeader(ScannedHeaders(m.headers), "Proxy-Connection").Some? {
        route := ForwardHttp;
        ForwardHttpRequest(m, id, connectOk);
      } else {
        route := JsonEcho;
        ReplyJsonResponse(m);
      }
    }

    /** The `MG_EV_CONNECT` case: a failed outgoing connect sends a 502 to
        the connection that asked for it.  With a null peer slot the error
        send is not modelled, so nothing changes. */
    method OnConnect(status: int)
      modifies peer
      ensures peer == old(peer)
      ensures status != 0 && peer != null ==>
                peer.send == old(peer.send) + [ErrorPage(502)] && peer.recv == old(peer.recv)
                && peer.peer == old(peer.peer) && peer.flags == old(peer.flags)
                && peer.address == old(peer.address)
      ensures status == 0 || peer == null ==> unchanged(this) && (peer == null || unchanged(peer))
    {
      if status != 0 && peer != null {
        peer.send := peer.send + [ErrorPage(502)];
      }
    }

    /** The `MG_EV_RECV` case: with a peer, move the whole receive buffer to
        the peer's send buffer, in order; without one, do nothing. */
    method OnRecv()
      modifies this, peer
      ensures peer == old(peer)
      ensures peer == null ==> unchanged(this)
      ensures peer != null ==> peer.send == old(peer.send) + Octets(old(recv)) && recv == []
      ensures peer != null && peer != this ==> send == old(send) && flags == old(flags)
                                               && peer.recv == old(peer.recv) && peer.peer == old(peer.peer)
                                               && peer.flags == old(peer.flags) && peer.address == old(peer.address)
                                               && address == old(address)
      ensures peer == this ==> flags == old(flags) && address == old(address)
    {
      if peer != null {
        peer.send := peer.send + Octets(recv);
        recv := [];
      }
    }

    /** The `MG_EV_CLOSE` case: the peer, if any, closes once its send
        buffer drains.  Neither peer slot is cleared. */
    method OnClose()
      modifies peer
      ensures peer == old(peer)
      ensures peer != null ==> peer.flags == old(peer.flags) + {SendAndClose}
                               && peer.send == old(peer.send) && peer.recv == old(peer.recv)
                               && peer.peer == old(peer.peer) && peer.address == old(peer.address)
      ensures peer == null ==> unchanged(this)
      ensures peer != this ==> recv == old(recv) && send == old(send) && flags == old(flags)
                               && address == old(address)
    {
      if peer != null {
        peer.flags := peer.flags + {SendAndClose};
      }
    }
  }

  lemma SeqAssoc(a: seq<Out>, b: seq<Out>, c: seq<Out>)
    ensures a + b + c == a + (b + c)
  {
  }

  /** One pass of the JSON reply's header loop: printing the next entry with
      its separator extends the printed text by that entry. */
  lemma PrintStep(printed: string, hs: seq<Header>, i: nat, piece: string)
    requires i < |hs|
    requires piece == (if i != 0 then "," else "") + JsonEntry(hs[i])
    ensures printed + JsonEntries(hs[..i]) + piece == printed + JsonEntries(hs[..i + 1])
  {
    assert hs[..i + 1] == hs[..i] + [hs[i]];
    JsonEntriesSnoc(hs[..i], hs[i]);
    var sep := if i != 0 then "," else "";
    Assoc(printed, JsonEntries(hs[..i]), sep, JsonEntry(hs[i]));
  }
}
