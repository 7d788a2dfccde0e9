/** The SOCKS server's and clients' code, reading their sockets step by step, against the functions of the bytes. */
module SocksEndpoints {
  import opened Bytes
  import opened Wrappers
  import opened Sockets
  import opened SocksWire
  import opened Text

  /** Everything up to and including the first zero byte, one byte at a time. */
  method ReadUntilNull(stream: Socket, ghost s: seq<byte>, ghost from: nat) returns (buffer: Option<seq<byte>>)
    requires from <= |s| && stream.incoming == s[from..]
    modifies stream`incoming
    ensures match NullAt(s, from)
            case Some(at) => buffer == Some(s[from..at + 1]) && stream.incoming == s[at + 1..]
            case None => buffer == None && stream.incoming == []
  {
    var read: seq<byte> := [];
    while true
      invariant from + |read| <= |s| && read == s[from..from + |read|] && stream.incoming == s[from + |read|..]
      invariant NullAt(s, from) == NullAt(s, from + |read|)
      decreases |stream.incoming|
    {
      var single := stream.ReadExact(1);
      if single.None? {
        return None;
      }
      assert single.value[0] == s[from + |read|];
      read := read + [single.value[0]];
      assert read == s[from..from + |read|];
      if single.value[0] == 0 {
        return Some(read);
      }
    }
  }

  /** The parsing half of a proxied connection, until the target is known. */
  method Handle(stream: Socket) returns (decision: Decision, version: byte)
    modifies stream
    ensures decision.Target? ==> |old(stream.incoming)| >= 2 && version == old(stream.incoming)[0]
    ensures var served := Serve(old(stream.incoming));
            && decision == served.decision && stream.sent == old(stream.sent) + served.replies
            && served.taken <= |old(stream.incoming)| && stream.incoming == old(stream.incoming)[served.taken..]
  {
    ghost var s := stream.incoming;
    var greeting := stream.ReadExact(2);
    version := 0;
    if greeting.None? {
      return Cut, version;
    }
    version := greeting.value[0];
    match version
    case 4 => decision := Handle4(stream, greeting.value[1], s);
    case 5 => decision := Handle5(stream, greeting.value[1], s);
    case _ => decision := Refused;
  }

  method Handle4(stream: Socket, command: byte, ghost s: seq<byte>) returns (decision: Decision)
    requires |s| >= 2 && s[1] == command && stream.incoming == s[2..]
    modifies stream
    ensures var served := Serve4(s);
            && decision == served.decision && stream.sent == old(stream.sent) + served.replies
            && served.taken <= |s| && stream.incoming == s[served.taken..]
  {
    if command != 1 {
      stream.WriteAll(Reply4(0x5b));
      return Refused;
    }
    var rest := stream.ReadExact(6);
    if rest.None? {
      return Cut;
    }
    var port := PortOf(rest.value[0], rest.value[1]);
    var octets := rest.value[2..6];
    assert rest.value == s[2..8] && s[4..8] == octets && s[8..] == stream.incoming;
    var userId := ReadUntilNull(stream, s, 8);
    if userId.None? {
      return Cut;
    }
    if !NameFollows(octets) {
      return Target(V4(octets), port);
    }
    var domain := ReadName(stream, s, NullAt(s, 8).value + 1);
    return if domain.None? then Cut else Target(DomainName(domain.value), port);
  }

  /** The SOCKS4a name, without its terminator. */
  method ReadName(stream: Socket, ghost s: seq<byte>, ghost from: nat) returns (domain: Option<seq<byte>>)
    requires from <= |s| && stream.incoming == s[from..]
    modifies stream`incoming
    ensures match NullAt(s, from)
            case Some(at) => domain == Some(s[from..at]) && stream.incoming == s[at + 1..]
            case None => domain == None && stream.incoming == []
  {
    domain := ReadUntilNull(stream, s, from);
    if domain.None? {
      return;
    }
    var name := domain.value;
    ghost var at := NullAt(s, from).value;
    assert name[at - from] == s[at] == 0 && name[..at - from] == s[from..at];
    if name != [] && name[|name| - 1] == 0 {
      name := name[..|name| - 1];
    }
    domain := Some(name);
  }

  method Handle5(stream: Socket, count: byte, ghost s: seq<byte>) returns (decision: Decision)
    requires |s| >= 2 && s[1] == count && stream.incoming == s[2..]
    modifies stream
    ensures var served := Serve5(s);
            && decision == served.decision && stream.sent == old(stream.sent) + served.replies
            && served.taken <= |s| && stream.incoming == s[served.taken..]
  {
    var methods := stream.ReadExact(count as nat);
    if methods.None? {
      return Cut;
    }
    assert s[2..2 + count as nat] == methods.value;
    if 0 !in methods.value {
      stream.WriteAll([5, 0xff]);
      return Refused;
    }
    stream.WriteAll([5, 0]);
    assert s[2 + count as nat..] == stream.incoming;
    decision := HandleRequest5(stream, s, 2 + count as nat);
    Regrouped(old(stream.sent), [5, 0], ServeRequest5(s, 2 + count as nat).replies);
  }

  method HandleRequest5(stream: Socket, ghost s: seq<byte>, ghost at: nat) returns (decision: Decision)
    requires at <= |s| && stream.incoming == s[at..]
    modifies stream
    ensures var served := ServeRequest5(s, at);
            && decision == served.decision && stream.sent == old(stream.sent) + served.replies
            && served.taken <= |s| && stream.incoming == s[served.taken..]
  {
    var header := stream.ReadExact(4);
    if header.None? {
      return Cut;
    }
    assert header.value == s[at..at + 4];
    if header.value[0] != 5 || header.value[1] != 1 {
      stream.WriteAll(Reply5(0x07));
      return Refused;
    }
    match header.value[3]
    case 1 =>
      var address, port := ReadAddress(stream, 4, s, at + 4);
      decision := if port.Some? then Target(V4(address), port.value) else Cut;
    case 3 =>
      var length := stream.ReadExact(1);
      if length.None? {
        return Cut;
      }
      assert length.value[0] == s[at + 4];
      var name, port := ReadAddress(stream, length.value[0] as nat, s, at + 5);
      decision := if port.Some? then Target(DomainName(name), port.value) else Cut;
    case 4 =>
      var address, port := ReadAddress(stream, 16, s, at + 4);
      decision := if port.Some? then Target(V6(address), port.value) else Cut;
    case _ =>
      stream.WriteAll(Reply5(0x08));
      decision := Refused;
  }

  method ReadAddress(stream: Socket, size: nat, ghost s: seq<byte>, ghost at: nat) returns (address: seq<byte>, port: Option<Port>)
    requires at <= |s| && stream.incoming == s[at..]
    modifies stream`incoming
    ensures match TakeAddress(s, at, size)
            case None => port == None && stream.incoming == []
            case Some((a, p)) => address == a && port == Some(p) && stream.incoming == s[at + size + 2..]
  {
    address, port := [], None;
    var bytes := stream.ReadExact(size);
    if bytes.None? {
      return;
    }
    address := bytes.value;
    assert address == s[at..at + size] && stream.incoming == s[at + size..];
    var p := stream.ReadExact(2);
    if p.None? {
      return;
    }
    assert p.value == s[at + size..at + size + 2];
    port := Some(PortOf(p.value[0], p.value[1]));
  }

  /** A whole connection up to the relay: parse, open the channel, answer. `channel` says what opening each target comes to. */
  method HandleConnection(stream: Socket, channel: (Address, Port) -> Channel) returns (relays: bool)
    modifies stream
    ensures var served := Serve(old(stream.incoming));
            var target := served.decision.Target?;
            && (relays <==> target && channel(served.decision.address, served.decision.port).Opened?)
            && stream.sent == old(stream.sent) + served.replies
                 + (if target then ChannelReply(old(stream.incoming)[0], channel(served.decision.address, served.decision.port)) else [])
            && served.taken <= |old(stream.incoming)| && stream.incoming == old(stream.incoming)[served.taken..]
  {
    var decision, version := Handle(stream);
    if !decision.Target? {
      return false;
    }
    var outcome := channel(decision.address, decision.port);
    stream.WriteAll(ChannelReply(version, outcome));
    return outcome.Opened?;
  }

  // ---------- The clients ----------

  method Socks5Connect(stream: Socket, host: seq<byte>, port: Port, user: Option<seq<byte>>, password: Option<seq<byte>>)
    returns (end: ClientEnd)
    modifies stream
    ensures var client := Dial(user, password, host, port, old(stream.incoming));
            && end == client.end && stream.sent == old(stream.sent) + client.sent
            && client.taken <= |old(stream.incoming)| && stream.incoming == old(stream.incoming)[client.taken..]
  {
    ghost var input := stream.incoming;
    stream.WriteAll(if user.Some? then [5, 2, 0, 2] else [5, 1, 0]);
    var resp := stream.ReadExact(2);
    if resp.None? {
      return CutOff;
    }
    if resp.value[0] != 5 {
      return BadVersion(resp.value[0]);
    }
    match resp.value[1]
    case 0 =>
      end := RequestTarget(stream, host, port, input, 2);
      Regrouped(old(stream.sent), Greeting(user.Some?), AfterMethod(input, 2, host, port).sent);
    case 2 =>
      var name := if user.Some? then user.value else [];
      var secret := if password.Some? then password.value else [];
      var accepted := Authenticate(stream, name, secret, input);
      ghost var sent := Greeting(user.Some?) + Credentials(name, secret);
      Regrouped(old(stream.sent), Greeting(user.Some?), Credentials(name, secret));
      if accepted.None? {
        return CutOff;
      }
      if !accepted.value {
        return NotAuthenticated;
      }
      end := RequestTarget(stream, host, port, input, 4);
      Regrouped(old(stream.sent), sent, AfterMethod(input, 4, host, port).sent);
    case other =>
      end := NoMethod(other);
  }

  /** Username and password, both cut to 255 bytes; the answer's second byte decides. */
  method Authenticate(stream: Socket, user: seq<byte>, pass: seq<byte>, ghost input: seq<byte>) returns (accepted: Option<bool>)
    requires |input| >= 2 && stream.incoming == input[2..]
    modifies stream
    ensures stream.sent == old(stream.sent) + Credentials(user, pass)
    ensures |input| < 4 ==> accepted == None && stream.incoming == []
    ensures |input| >= 4 ==> accepted == Some(input[3] == 0) && stream.incoming == input[4..]
  {
    var userLength, passLength := Min(|user|, 255), Min(|pass|, 255);
    var msg: seq<byte> := [1];
    msg := msg + [userLength as byte];
    msg := msg + user[..userLength];
    msg := msg + [passLength as byte];
    msg := msg + pass[..passLength];
    assert msg == Credentials(user, pass);
    stream.WriteAll(msg);
    var resp := stream.ReadExact(2);
    if resp.None? {
      return None;
    }
    assert resp.value == input[2..4];
    return Some(resp.value[1] == 0);
  }

  method RequestTarget(stream: Socket, host: seq<byte>, port: Port, ghost input: seq<byte>, ghost at: nat) returns (end: ClientEnd)
    requires at <= |input| && stream.incoming == input[at..]
    modifies stream
    ensures var client := AfterMethod(input, at, host, port);
            && end == client.end && stream.sent == old(stream.sent) + client.sent
            && client.taken <= |input| && stream.incoming == input[client.taken..]
  {
    if |host| > 255 {
      return HostTooLong;
    }
    var msg: seq<byte> := [5, 1, 0, 3];
    msg := msg + [|host| as byte];
    msg := msg + host;
    msg := msg + PortBytes(port);
    assert msg == Request5(host, port);
    stream.WriteAll(msg);
    var resp := stream.ReadExact(4);
    if resp.None? {
      return CutOff;
    }
    assert resp.value == input[at..at + 4] && stream.incoming == input[at + 4..];
    if resp.value[0] != 5 || resp.value[1] != 0 {
      return ReplyRefused(resp.value[1]);
    }
    var skip := 0;
    match resp.value[3] {
      case 1 => skip := 4 + 2;
      case 3 =>
        var length := stream.ReadExact(1);
        if length.None? {
          return CutOff;
        }
        assert length.value[0] == input[at + 4];
        skip := length.value[0] as nat + 2;
      case 4 => skip := 16 + 2;
      case kind => return UnknownAddressType(kind);
    }
    var skipped := stream.ReadExact(skip);
    return if skipped.None? then CutOff else Connected;
  }

  /** `octets` is the address the host name resolved to. */
  method Socks4Connect(stream: Socket, octets: seq<byte>, port: Port, username: Option<seq<byte>>) returns (end: ClientEnd)
    modifies stream
    ensures var client := Dial4(octets, port, if username.Some? then username.value else [], old(stream.incoming));
            && end == client.end && stream.sent == old(stream.sent) + client.sent
            && client.taken <= |old(stream.incoming)| && stream.incoming == old(stream.incoming)[client.taken..]
  {
    var msg: seq<byte> := [4];
    msg := msg + [1];
    msg := msg + PortBytes(port);
    msg := msg + octets;
    msg := msg + if username.Some? then username.value else [];
    msg := msg + [0];
    assert msg == Request4(octets, port, if username.Some? then username.value else []);
    stream.WriteAll(msg);
    var resp := stream.ReadExact(8);
    if resp.None? {
      return CutOff;
    }
    if resp.value[0] != 0 || resp.value[1] != 0x5a {
      return ReplyRefused(resp.value[1]);
    }
    return Connected;
  }
}
