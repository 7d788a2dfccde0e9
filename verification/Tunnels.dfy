/** Connecting through whichever proxy is configured: the tunnel starts right behind the handshake. */
module Tunnels {
  import opened Bytes
  import opened Wrappers
  import opened Sockets
  import opened HttpConnect
  import opened SocksWire
  import opened SocksEndpoints

  datatype ProxyKind = Http | Socks4 | Socks5

  /** Where the proxy's bytes for the tunnel begin, when the handshake succeeds; `octets` is the resolved address. */
  ghost predicate HandshakeEndsAt(
    kind: ProxyKind, input: seq<byte>, lossy: seq<byte> -> string, host: seq<byte>, octets: seq<byte>, port: Port,
    user: Option<seq<byte>>, password: Option<seq<byte>>, at: nat)
  {
    match kind
    case Http => HeaderEndsAt(input, at) && Accepts(lossy(input[..at]))
    case Socks4 =>
      var client := Dial4(octets, port, if user.Some? then user.value else [], input);
      client.end == Connected && client.taken == at
    case Socks5 =>
      var client := Dial(user, password, host, port, input);
      client.end == Connected && client.taken == at
  }

  method ConnectViaProxy(
    kind: ProxyKind, stream: Socket, lossy: seq<byte> -> string, host: seq<byte>, octets: seq<byte>, port: Port,
    user: Option<seq<byte>>, password: Option<seq<byte>>)
    returns (tunnel: Option<Tunnel>)
    modifies stream
    ensures tunnel.Some? <==>
            exists at: nat :: HandshakeEndsAt(kind, old(stream.incoming), lossy, host, octets, port, user, password, at)
    ensures tunnel.Some? ==> fresh(tunnel.value) && tunnel.value.stream == stream
    ensures tunnel.Some? ==>
              forall at: nat :: HandshakeEndsAt(kind, old(stream.incoming), lossy, host, octets, port, user, password, at) ==>
                at <= |old(stream.incoming)| && tunnel.value.Unread() == old(stream.incoming)[at..]
  {
    ghost var input := stream.incoming;
    match kind
    case Http =>
      tunnel := OpenTunnel(stream, lossy);
      if tunnel.Some? {
        ghost var p: nat :| HeaderEndsAt(input, p) && Accepts(lossy(input[..p]));
        assert HandshakeEndsAt(kind, input, lossy, host, octets, port, user, password, p);
      }
    case Socks4 =>
      var end := Socks4Connect(stream, octets, port, user);
      ghost var client := Dial4(octets, port, if user.Some? then user.value else [], input);
      tunnel := None;
      if end == Connected {
        assert HandshakeEndsAt(kind, input, lossy, host, octets, port, user, password, client.taken);
        var t := new Tunnel(stream, []);
        tunnel := Some(t);
      }
    case Socks5 =>
      var end := Socks5Connect(stream, host, port, user, password);
      ghost var client := Dial(user, password, host, port, input);
      tunnel := None;
      if end == Connected {
        assert HandshakeEndsAt(kind, input, lossy, host, octets, port, user, password, client.taken);
        var t := new Tunnel(stream, []);
        tunnel := Some(t);
      }
  }
}
