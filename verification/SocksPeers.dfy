/**
 * The SOCKS server against every kind of client and the SOCKS client against
 * every kind of proxy, each written down by the message formats of RFC 1928,
 * RFC 1929, SOCKS4 and SOCKS4a.
 */
module SocksPeers {
  import opened Bytes
  import opened SocksWire
  import opened Wrappers

  // ---------- Addresses on the wire ----------

  predicate WellFormed(address: Address) {
    match address
    case V4(octets) => |octets| == 4
    case DomainName(name) => |name| <= 255
    case V6(octets) => |octets| == 16
  }

  /** Type, address and port, as section 4 of RFC 1928 lays them out. */
  function AddressBytes(address: Address, port: Port): seq<byte>
    requires WellFormed(address)
  {
    match address
    case V4(octets) => [1] + octets + PortBytes(port)
    case DomainName(name) => [3, |name| as byte] + name + PortBytes(port)
    case V6(octets) => [4] + octets + PortBytes(port)
  }

  // ---------- Clients of the server ----------

  function Hello(methods: seq<byte>): seq<byte>
    requires |methods| <= 255
  {
    [5, |methods| as byte] + methods
  }

  function Request(command: byte, reserved: byte, address: Address, port: Port): seq<byte>
    requires WellFormed(address)
  {
    [5, command, reserved] + AddressBytes(address, port)
  }

  lemma HelloIsRead(methods: seq<byte>, more: seq<byte>)
    requires |methods| <= 255
    ensures var s := Hello(methods) + more;
            && |s| >= 2 && s[0] == 5 && 2 + s[1] as nat == |Hello(methods)| && s[2..|Hello(methods)|] == methods
            && s[|Hello(methods)|..] == more
  {
  }

  /** Behind a head of fixed length, the address and the two bytes of the port. */
  lemma FieldsAreRead(s: seq<byte>, at: nat, head: seq<byte>, address: seq<byte>, port: Port, rest: seq<byte>)
    requires at <= |s| && s[at..] == head + address + PortBytes(port) + rest
    ensures at + |head| + |address| + 2 <= |s| && s[at..at + |head|] == head
    ensures TakeAddress(s, at + |head|, |address|) == Some((address, port))
  {
    var r := head + address + PortBytes(port) + rest;
    var a := at + |head|;
    assert s[at..at + |head|] == r[..|head|];
    assert s[a..a + |address|] == r[|head|..|head| + |address|] == address;
    assert s[a + |address|] == r[|head| + |address|] == PortBytes(port)[0];
    assert s[a + |address| + 1] == r[|head| + |address| + 1] == PortBytes(port)[1];
    PortSurvives(port);
  }

  /** The part of a request before the address itself. */
  function Head(reserved: byte, address: Address): seq<byte>
    requires WellFormed(address)
  {
    match address
    case V4(_) => [5, 1, reserved, 1]
    case DomainName(name) => [5, 1, reserved, 3, |name| as byte]
    case V6(_) => [5, 1, reserved, 4]
  }

  function Body(address: Address): seq<byte> {
    match address
    case V4(octets) => octets
    case DomainName(name) => name
    case V6(octets) => octets
  }

  lemma RequestParts(reserved: byte, address: Address, port: Port)
    requires WellFormed(address)
    ensures Request(1, reserved, address, port) == Head(reserved, address) + Body(address) + PortBytes(port)
  {
  }

  lemma HeadDecides(s: seq<byte>, at: nat, reserved: byte, address: Address, port: Port)
    requires WellFormed(address) && at + |Head(reserved, address)| + |Body(address)| + 2 <= |s|
    requires s[at..at + |Head(reserved, address)|] == Head(reserved, address)
    requires TakeAddress(s, at + |Head(reserved, address)|, |Body(address)|) == Some((Body(address), port))
    ensures ServeRequest5(s, at) == Served([], at + |Head(reserved, address)| + |Body(address)| + 2, Target(address, port))
  {
    var head := Head(reserved, address);
    var read := s[at..at + |head|];
    assert s[at] == read[0] && s[at + 1] == read[1] && s[at + 3] == read[3];
    assert address.DomainName? ==> s[at + 4] == read[4];
  }

  lemma RequestIsRead(s: seq<byte>, at: nat, reserved: byte, address: Address, port: Port, rest: seq<byte>)
    requires WellFormed(address) && at <= |s| && s[at..] == Request(1, reserved, address, port) + rest
    ensures ServeRequest5(s, at) == Served([], at + |Request(1, reserved, address, port)|, Target(address, port))
  {
    RequestParts(reserved, address, port);
    FieldsAreRead(s, at, Head(reserved, address), Body(address), port, rest);
    HeadDecides(s, at, reserved, address, port);
  }

  lemma ServedAfterHello(methods: seq<byte>, more: seq<byte>)
    requires |methods| <= 255 && 0 in methods
    ensures var request := ServeRequest5(Hello(methods) + more, |Hello(methods)|);
            Serve(Hello(methods) + more) == request.(replies := [5, 0] + request.replies)
  {
    HelloIsRead(methods, more);
  }

  /** A client that offers no authentication, asking for an address of any type: recovered exactly, and nothing more is taken. */
  lemma AnyClientIsServed(methods: seq<byte>, reserved: byte, address: Address, port: Port, rest: seq<byte>)
    requires |methods| <= 255 && 0 in methods && WellFormed(address)
    ensures var sent := Hello(methods) + Request(1, reserved, address, port);
            Serve(sent + rest) == Served([5, 0], |sent|, Target(address, port))
  {
    var hello, request := Hello(methods), Request(1, reserved, address, port);
    assert hello + request + rest == hello + (request + rest);
    ServedAfterHello(methods, request + rest);
    HelloIsRead(methods, request + rest);
    RequestIsRead(hello + (request + rest), |hello|, reserved, address, port, rest);
  }

  /** The refusals: no offered method that needs no authentication, another command, an unknown address type. */
  lemma OtherClientsAreRefused(methods: seq<byte>, command: byte, reserved: byte, kind: byte, rest: seq<byte>)
    requires |methods| <= 255
    ensures 0 !in methods ==> Serve(Hello(methods) + rest) == Served([5, 0xff], |Hello(methods)|, Refused)
    ensures var sent := Hello(methods) + [5, command, reserved, kind];
            && (0 in methods && command != 1 ==> Serve(sent + rest) == Served([5, 0] + Reply5(7), |sent|, Refused))
            && (0 in methods && command == 1 && kind !in [1, 3, 4] ==> Serve(sent + rest) == Served([5, 0] + Reply5(8), |sent|, Refused))
  {
    HelloIsRead(methods, rest);
    var hello, header := Hello(methods), [5, command, reserved, kind];
    assert hello + header + rest == hello + (header + rest);
    HelloIsRead(methods, header + rest);
    var s := hello + (header + rest);
    assert s[|hello|..|hello| + 4] == header;
    assert s[|hello|] == header[0] && s[|hello| + 1] == header[1] && s[|hello| + 3] == header[3];
  }

  lemma TextIsRead(s: seq<byte>, from: nat, text: seq<byte>, rest: seq<byte>)
    requires from <= |s| && s[from..] == text + [0] + rest && 0 !in text
    ensures NullAt(s, from) == Some(from + |text|) && s[from..from + |text|] == text
    ensures s[from + |text| + 1..] == rest
  {
    var tail := s[from..];
    assert tail[..|text|] == text && tail[|text|] == 0 && tail[|text| + 1..] == rest;
    assert s[from..from + |text|] == tail[..|text|] && s[from + |text|] == tail[|text|];
    FirstNull(s, from, text);
  }

  /** A SOCKS4a client: the name behind the user id is the target. */
  lemma NamedClientIsServed(x: byte, port: Port, user: seq<byte>, name: seq<byte>, rest: seq<byte>)
    requires x != 0 && 0 !in user && 0 !in name
    ensures var sent := [4, 1] + PortBytes(port) + [0, 0, 0, x] + user + [0] + name + [0];
            Serve(sent + rest) == Served([], |sent|, Target(DomainName(name), port))
  {
    var header := [4, 1] + PortBytes(port) + [0, 0, 0, x];
    var s := header + user + [0] + name + [0] + rest;
    assert s == Request4([0, 0, 0, x], port, user) + (name + [0] + rest);
    Socks4Header([0, 0, 0, x], port, user, name + [0] + rest);
    TextIsRead(s, 8, user, name + [0] + rest);
    TextIsRead(s, 9 + |user|, name, rest);
  }

  /** A SOCKS4 client without a zero byte in its id: the address is the target, and nothing more is taken, unless it is 0.0.0.x with x non-zero. */
  lemma NumericClientIsServed(a: byte, b: byte, c: byte, d: byte, port: Port, user: seq<byte>, rest: seq<byte>)
    requires 0 !in user
    ensures var sent := [4, 1] + PortBytes(port) + [a, b, c, d] + user + [0];
            Serve(sent + rest) == Served([], |sent|, Target(V4([a, b, c, d]), port)) <==> !(a == b == c == 0 && d != 0)
  {
    Socks4RoundTrip([a, b, c, d], port, user, rest);
    assert [4, 1] + PortBytes(port) + [a, b, c, d] + user + [0] == Request4([a, b, c, d], port, user);
  }

  /** Any other SOCKS4 command is refused with status 0x5b, and any other version without an answer. */
  lemma OtherVersionsAreRefused(version: byte, command: byte, rest: seq<byte>)
    ensures version == 4 && command != 1 ==> Serve([version, command] + rest) == Served(Reply4(0x5b), 2, Refused)
    ensures version != 4 && version != 5 ==> Serve([version, command] + rest) == Served([], 2, Refused)
  {
  }

  // ---------- Proxies the client meets ----------

  /** A server of RFC 1929 reading the credentials: both strings, and how many bytes they took. */
  function ReadCredentials(s: seq<byte>): Option<(seq<byte>, seq<byte>, nat)> {
    if |s| < 2 || s[0] != 1 || |s| < 3 + s[1] as nat then None else
      var u := s[1] as nat;
      var p := s[2 + u] as nat;
      if |s| < 3 + u + p then None else Some((s[2..2 + u], s[3 + u..3 + u + p], 3 + u + p))
  }

  /** It reads exactly the first 255 bytes of each. */
  lemma CredentialsReadBack(user: seq<byte>, password: seq<byte>, rest: seq<byte>)
    ensures var sent := Credentials(user, password);
            ReadCredentials(sent + rest) == Some((user[..Min(|user|, 255)], password[..Min(|password|, 255)], |sent|))
  {
    var u, p := user[..Min(|user|, 255)], password[..Min(|password|, 255)];
    var s := Credentials(user, password) + rest;
    assert s == [1, |u| as byte] + u + [|p| as byte] + p + rest;
    assert s[0] == 1 && s[1] as nat == |u| && s[2..2 + |u|] == u;
    assert s[2 + |u|] as nat == |p| && s[3 + |u|..3 + |u| + |p|] == p;
  }

  /** A proxy's answer to the request: its reply code and the address it is bound to. */
  function Answer5(rep: byte, reserved: byte, bound: Address, port: Port): seq<byte>
    requires WellFormed(bound)
  {
    [5, rep, reserved] + AddressBytes(bound, port)
  }

  /** The server's own answer is such an answer, bound to no address. */
  lemma ServersAnswer(rep: byte)
    ensures Reply5(rep) == Answer5(rep, 0, V4([0, 0, 0, 0]), 0)
  {
  }

  /** The client takes an accepting answer whole, whatever address it carries, and of a refusing one the reply code. */
  lemma AnswerIsTaken(
    sent: seq<byte>, input: seq<byte>, at: nat, rep: byte, reserved: byte, bound: Address, port: Port, rest: seq<byte>)
    requires WellFormed(bound) && at <= |input| && input[at..] == Answer5(rep, reserved, bound, port) + rest
    ensures AfterRequest(sent, input, at)
         == if rep == 0 then Client(sent, at + |Answer5(rep, reserved, bound, port)|, Connected) else Client(sent, at + 4, ReplyRefused(rep))
  {
    var answer := Answer5(rep, reserved, bound, port) + rest;
    assert forall k :: 0 <= k < |answer| ==> input[at + k] == answer[k];
  }

  /** How a proxy opens the conversation: without authentication, or asking for it and accepting it. */
  function Opening(authenticates: bool, version: byte): seq<byte> {
    if authenticates then [5, 2, version, 0] else [5, 0]
  }

  /** What the client has to send to such a proxy. */
  function Expected(authenticates: bool, user: Option<seq<byte>>, password: Option<seq<byte>>, host: seq<byte>, port: Port): seq<byte>
    requires |host| <= 255
  {
    (if user.Some? then Hello([0, 2]) else Hello([0]))
    + (if authenticates then Credentials(if user.Some? then user.value else [], if password.Some? then password.value else []) else [])
    + Request(1, 0, DomainName(host), port)
  }

  lemma ClientsMessages(host: seq<byte>, port: Port)
    requires |host| <= 255
    ensures Greeting(true) == Hello([0, 2]) && Greeting(false) == Hello([0])
    ensures Request5(host, port) == Request(1, 0, DomainName(host), port)
  {
  }

  /**
   * Against every proxy that accepts, with or without authentication and bound
   * to an address of any type, the client sends its greeting, its credentials
   * if asked and the request, takes exactly the proxy's bytes and connects
   * exactly when the reply code is zero.
   */
  lemma ClientMeetsAnyProxy(
    user: Option<seq<byte>>, password: Option<seq<byte>>, host: seq<byte>, port: Port,
    authenticates: bool, version: byte, rep: byte, reserved: byte, bound: Address, boundPort: Port, rest: seq<byte>)
    requires |host| <= 255 && WellFormed(bound)
    ensures var input := Opening(authenticates, version) + Answer5(rep, reserved, bound, boundPort);
            var client := Dial(user, password, host, port, input + rest);
            && client.sent == Expected(authenticates, user, password, host, port)
            && client.end == (if rep == 0 then Connected else ReplyRefused(rep))
            && (rep == 0 ==> client.taken == |input|)
  {
    var opening, answer := Opening(authenticates, version), Answer5(rep, reserved, bound, boundPort);
    var input := opening + answer + rest;
    OpeningThenAnswer(opening, answer, rest);
    ClientsMessages(host, port);
    DialAfterOpening(user, password, host, port, authenticates, version, input);
    AnswerIsTaken(Request5(host, port), input, |opening|, rep, reserved, bound, boundPort, rest);
  }

  lemma OpeningThenAnswer(opening: seq<byte>, answer: seq<byte>, rest: seq<byte>)
    ensures var input := opening + answer + rest;
            opening <= input && input[|opening|..] == answer + rest
  {
  }

  lemma DialAfterOpening(user: Option<seq<byte>>, password: Option<seq<byte>>, host: seq<byte>, port: Port,
                         authenticates: bool, version: byte, input: seq<byte>)
    requires |host| <= 255 && Opening(authenticates, version) <= input
    ensures var after := AfterRequest(Request5(host, port), input, |Opening(authenticates, version)|);
            Dial(user, password, host, port, input)
            == after.(sent := Greeting(user.Some?)
                 + (if authenticates then Credentials(if user.Some? then user.value else [], if password.Some? then password.value else []) else [])
                 + after.sent)
  {
    var opening := Opening(authenticates, version);
    assert input[0] == opening[0] && input[1] == opening[1] && (authenticates ==> input[3] == opening[3]);
    assert Greeting(user.Some?) + [] == Greeting(user.Some?);
  }

  /** Once the client has come to a conclusion, what arrives afterwards changes nothing and is left for the tunnel. */
  lemma ConclusionsAreStable(user: Option<seq<byte>>, password: Option<seq<byte>>, host: seq<byte>, port: Port, s: seq<byte>, t: seq<byte>)
    requires Dial(user, password, host, port, s).end != CutOff
    ensures Dial(user, password, host, port, s + t) == Dial(user, password, host, port, s)
    ensures Dial(user, password, host, port, s).taken <= |s|
  {
    assert forall k :: 0 <= k < |s| ==> (s + t)[k] == s[k];
    if |host| <= 255 {
      if s[0] == 5 && s[1] == 0 {
        AnswersAreStable(Request5(host, port), s, t, 2);
      }
      if s[0] == 5 && s[1] == 2 && |s| >= 4 && s[3] == 0 {
        AnswersAreStable(Request5(host, port), s, t, 4);
      }
    }
  }

  lemma AnswersAreStable(sent: seq<byte>, s: seq<byte>, t: seq<byte>, at: nat)
    requires AfterRequest(sent, s, at).end != CutOff
    ensures AfterRequest(sent, s + t, at) == AfterRequest(sent, s, at) && AfterRequest(sent, s, at).taken <= |s|
  {
    assert forall k :: 0 <= k < |s| ==> (s + t)[k] == s[k];
  }

  /** On no proper prefix of an accepting proxy's bytes does the client act. */
  lemma ClientWaitsForAll(
    user: Option<seq<byte>>, password: Option<seq<byte>>, host: seq<byte>, port: Port,
    authenticates: bool, version: byte, reserved: byte, bound: Address, boundPort: Port, k: nat)
    requires |host| <= 255 && WellFormed(bound)
    requires k < |Opening(authenticates, version) + Answer5(0, reserved, bound, boundPort)|
    ensures Dial(user, password, host, port, (Opening(authenticates, version) + Answer5(0, reserved, bound, boundPort))[..k]).end == CutOff
  {
    var whole := Opening(authenticates, version) + Answer5(0, reserved, bound, boundPort);
    var s, t := whole[..k], whole[k..];
    assert s + t == whole == whole + [];
    ClientMeetsAnyProxy(user, password, host, port, authenticates, version, 0, reserved, bound, boundPort, []);
    if Dial(user, password, host, port, s).end != CutOff {
      ConclusionsAreStable(user, password, host, port, s, t);
    }
  }

  /** A SOCKS4 client takes eight bytes; the first two decide. With fewer it is cut off. */
  lemma Socks4AnswersDecide(octets: seq<byte>, port: Port, user: seq<byte>, version: byte, status: byte, unused: seq<byte>, rest: seq<byte>)
    requires |unused| == 6
    ensures Dial4(octets, port, user, [version, status] + unused + rest)
         == Client(Request4(octets, port, user), 8, if version == 0 && status == 0x5a then Connected else ReplyRefused(status))
    ensures forall k :: 0 <= k < 8 ==> Dial4(octets, port, user, ([version, status] + unused)[..k]).end == CutOff
  {
  }

  /** A proxy that turns the credentials down, wants another method or speaks another version ends it there. */
  lemma ClientGivesUp(user: Option<seq<byte>>, password: Option<seq<byte>>, host: seq<byte>, port: Port,
                      version: byte, method_: byte, status: byte, rest: seq<byte>)
    ensures status != 0 ==> Dial(user, password, host, port, [5, 2, version, status] + rest).end == NotAuthenticated
    ensures method_ != 0 && method_ != 2 ==> Dial(user, password, host, port, [5, method_] + rest).end == NoMethod(method_)
    ensures version != 5 ==> Dial(user, password, host, port, [version, method_] + rest).end == BadVersion(version)
    ensures |host| > 255 ==> Dial(user, password, host, port, [5, 0] + rest) == Client(Greeting(user.Some?), 2, HostTooLong)
  {
  }

  // ---------- This client and this server ----------

  /** Through this server a SOCKS5 client connects exactly when the channel opened, and otherwise learns why it did not. */
  lemma ClientLearnsOfTheChannel(
    user: Option<seq<byte>>, password: Option<seq<byte>>, host: seq<byte>, port: Port, channel: Channel, toServer: seq<byte>, toClient: seq<byte>)
    requires |host| <= 255
    ensures var sent := Greeting(user.Some?) + Request5(host, port);
            var client := Dial(user, password, host, port, Serve(sent + toServer).replies + ChannelReply(5, channel) + toClient);
            && client.sent == sent
            && (client.end == Connected <==> channel.Opened?)
            && (channel.Prohibited? ==> client.end == ReplyRefused(2))
            && (channel.ConnectFailed? ==> client.end == ReplyRefused(5))
            && (channel.OtherFailure? ==> client.end == ReplyRefused(1))
  {
    var rep: byte := match channel
                     case Opened => 0
                     case Prohibited => 2
                     case ConnectFailed => 5
                     case OtherFailure => 1;
    HandshakeAgrees(user, password, host, port, rep, toServer, toClient);
  }

  /** So does a SOCKS4 client. */
  lemma Client4LearnsOfTheChannel(octets: seq<byte>, port: Port, user: seq<byte>, channel: Channel, toClient: seq<byte>)
    requires |octets| == 4
    ensures Dial4(octets, port, user, ChannelReply(4, channel) + toClient).end == Connected <==> channel.Opened?
    ensures !channel.Opened? ==> Dial4(octets, port, user, ChannelReply(4, channel) + toClient).end == ReplyRefused(0x5b)
  {
    Handshake4Agrees(octets, port, user, if channel.Opened? then 0x5a else 0x5b, [], toClient);
  }
}
