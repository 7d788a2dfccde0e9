/**
 * The SOCKS client that tunnels the SSH connection and the SOCKS server in front
 * of it, as functions of the bytes each receives: what it sends, how many bytes
 * it takes and what it concludes.
 */
module SocksWire {
  import opened Bytes
  import opened Wrappers

  type Port = n: nat | n < 65536

  datatype Address = V4(octets: seq<byte>) | DomainName(name: seq<byte>) | V6(octets: seq<byte>)

  function PortBytes(port: Port): (bytes: seq<byte>)
    ensures |bytes| == 2
  {
    [(port / 256) as byte, (port % 256) as byte]
  }

  function PortOf(high: byte, low: byte): Port {
    high as nat * 256 + low as nat
  }

  lemma PortSurvives(port: Port)
    ensures PortOf(PortBytes(port)[0], PortBytes(port)[1]) == port
    ensures 256 * PortBytes(port)[0] as nat + PortBytes(port)[1] as nat == port
  {
  }

  // ---------- The client's messages ----------

  function Greeting(withUser: bool): seq<byte> {
    if withUser then [5, 2, 0, 2] else [5, 1, 0]
  }

  /** Username and password, each cut to 255 bytes. */
  function Credentials(user: seq<byte>, password: seq<byte>): seq<byte> {
    var u, p := Min(|user|, 255), Min(|password|, 255);
    [1, u as byte] + user[..u] + [p as byte] + password[..p]
  }

  function Request5(host: seq<byte>, port: Port): seq<byte>
    requires |host| <= 255
  {
    [5, 1, 0, 3, |host| as byte] + host + PortBytes(port)
  }

  function Request4(octets: seq<byte>, port: Port, user: seq<byte>): seq<byte> {
    [4, 1] + PortBytes(port) + octets + user + [0]
  }

  // ---------- The server ----------

  datatype Decision = Target(address: Address, port: Port) | Refused | Cut

  /** What one side has sent and how much input it has taken when it concludes. */
  datatype Served = Served(replies: seq<byte>, taken: nat, decision: Decision)

  function Reply4(status: byte): seq<byte> {
    [0, status, 0, 0, 0, 0, 0, 0]
  }

  function Reply5(rep: byte): seq<byte> {
    [5, rep, 0, 1, 0, 0, 0, 0, 0, 0]
  }

  /** What opening the channel to the target comes to. */
  datatype Channel = Opened | Prohibited | ConnectFailed | OtherFailure

  /** The answer to a request that was understood. */
  function ChannelReply(version: byte, channel: Channel): seq<byte> {
    if version == 4 then Reply4(if channel.Opened? then 0x5a else 0x5b)
    else Reply5(match channel
                case Opened => 0
                case Prohibited => 2
                case ConnectFailed => 5
                case OtherFailure => 1)
  }

  /** The index of the first zero byte at or after `from`. */
  function NullAt(s: seq<byte>, from: nat): (at: Option<nat>)
    ensures at.Some? ==> from <= at.value < |s| && s[at.value] == 0 && forall k :: from <= k < at.value ==> s[k] != 0
    ensures at.None? ==> forall k :: from <= k < |s| ==> s[k] != 0
    decreases |s| - from
  {
    if from >= |s| then None else if s[from] == 0 then Some(from) else NullAt(s, from + 1)
  }

  /** 0.0.0.x with x non-zero: the name follows the user id (SOCKS4a). */
  predicate NameFollows(octets: seq<byte>)
    requires |octets| == 4
  {
    octets[0] == 0 && octets[1] == 0 && octets[2] == 0 && octets[3] != 0
  }

  function Serve4(s: seq<byte>): Served
    requires |s| >= 2
  {
    if s[1] != 1 then Served(Reply4(0x5b), 2, Refused)
    else if |s| < 8 then Served([], |s|, Cut)
    else
      match NullAt(s, 8)
      case None => Served([], |s|, Cut)
      case Some(user) =>
        if !NameFollows(s[4..8]) then Served([], user + 1, Target(V4(s[4..8]), PortOf(s[2], s[3])))
        else
          match NullAt(s, user + 1)
          case None => Served([], |s|, Cut)
          case Some(name) => Served([], name + 1, Target(DomainName(s[user + 1..name]), PortOf(s[2], s[3])))
  }

  /** Fixed-size address of `size` bytes at `at`, then the port. */
  function TakeAddress(s: seq<byte>, at: nat, size: nat): Option<(seq<byte>, Port)> {
    if |s| < at + size + 2 then None else Some((s[at..at + size], PortOf(s[at + size], s[at + size + 1])))
  }

  /** The request that follows the method negotiation. */
  function ServeRequest5(s: seq<byte>, at: nat): Served {
    if |s| < at + 4 then Served([], |s|, Cut)
    else if s[at] != 5 || s[at + 1] != 1 then Served(Reply5(0x07), at + 4, Refused)
    else if s[at + 3] == 1 then
      match TakeAddress(s, at + 4, 4)
      case None => Served([], |s|, Cut)
      case Some((address, port)) => Served([], at + 10, Target(V4(address), port))
    else if s[at + 3] == 3 then
      if |s| < at + 5 then Served([], |s|, Cut) else
        match TakeAddress(s, at + 5, s[at + 4] as nat)
        case None => Served([], |s|, Cut)
        case Some((name, port)) => Served([], at + 5 + s[at + 4] as nat + 2, Target(DomainName(name), port))
    else if s[at + 3] == 4 then
      match TakeAddress(s, at + 4, 16)
      case None => Served([], |s|, Cut)
      case Some((address, port)) => Served([], at + 22, Target(V6(address), port))
    else Served(Reply5(0x08), at + 4, Refused)
  }

  function Serve5(s: seq<byte>): Served
    requires |s| >= 2
  {
    var at := 2 + s[1] as nat;
    if |s| < at then Served([], |s|, Cut)
    else if 0 !in s[2..at] then Served([5, 0xff], at, Refused)
    else
      var request := ServeRequest5(s, at);
      request.(replies := [5, 0] + request.replies)
  }

  /** The parsing half of a connection, up to the channel being opened. */
  function Serve(s: seq<byte>): Served {
    if |s| < 2 then Served([], |s|, Cut)
    else if s[0] == 4 then Serve4(s)
    else if s[0] == 5 then Serve5(s)
    else Served([], 2, Refused)
  }

  // ---------- What the server recovers ----------

  /** The server recovers host and port from the client's bytes and takes exactly those. */
  lemma Socks5RoundTrip(withUser: bool, host: seq<byte>, port: Port, rest: seq<byte>)
    requires |host| <= 255
    ensures var sent := Greeting(withUser) + Request5(host, port);
            Serve(sent + rest) == Served([5, 0], |sent|, Target(DomainName(host), port))
  {
    var hello := Greeting(withUser);
    var s := hello + Request5(host, port) + rest;
    assert s[0] == 5 && 2 + s[1] as nat == |hello| && s[2..|hello|][0] == 0;
    assert s[|hello|..] == Request5(host, port) + rest;
    RequestRoundTrip(s, |hello|, host, port, rest);
  }

  lemma RequestRoundTrip(s: seq<byte>, at: nat, host: seq<byte>, port: Port, rest: seq<byte>)
    requires |host| <= 255 && at <= |s| && s[at..] == Request5(host, port) + rest
    ensures ServeRequest5(s, at) == Served([], at + |Request5(host, port)|, Target(DomainName(host), port))
  {
    var r := Request5(host, port) + rest;
    assert forall k :: 0 <= k < |r| ==> s[at + k] == r[k];
    assert r[..5] == [5, 1, 0, 3, |host| as byte];
    assert r[5..5 + |host|] == host == s[at + 5..at + 5 + |host|];
    assert r[5 + |host|..7 + |host|] == PortBytes(port);
    assert r[5 + |host|] == PortBytes(port)[0] && r[6 + |host|] == PortBytes(port)[1];
    PortSurvives(port);
  }

  /** SOCKS4 does so exactly when the user id holds no zero byte and the address is not 0.0.0.x. */
  lemma Socks4RoundTrip(octets: seq<byte>, port: Port, user: seq<byte>, rest: seq<byte>)
    requires |octets| == 4
    ensures var sent := Request4(octets, port, user);
            Serve(sent + rest) == Served([], |sent|, Target(V4(octets), port)) <==> 0 !in user && !NameFollows(octets)
  {
    var sent := Request4(octets, port, user);
    var s := sent + rest;
    assert s[0] == 4 && s[1] == 1 && s[2..4] == PortBytes(port) && s[4..8] == octets;
    assert s[2] == s[2..4][0] && s[3] == s[2..4][1];
    PortSurvives(port);
    assert s[8..8 + |user|] == user && s[8 + |user|] == 0;
    FirstNull(s, 8, user);
  }

  /**
   * The target alone survives exactly when the address is not 0.0.0.x: a zero
   * byte in the user id costs no target, it only ends the id early.
   */
  lemma Socks4KeepsTheTarget(octets: seq<byte>, port: Port, user: seq<byte>, rest: seq<byte>)
    requires |octets| == 4
    ensures Serve(Request4(octets, port, user) + rest).decision == Target(V4(octets), port) <==> !NameFollows(octets)
  {
    Socks4Header(octets, port, user, rest);
    var s := Request4(octets, port, user) + rest;
    assert s[8 + |user|] == 0;
    assert NullAt(s, 8).Some?;
  }

  lemma Socks4Header(octets: seq<byte>, port: Port, user: seq<byte>, rest: seq<byte>)
    requires |octets| == 4
    ensures var s := Request4(octets, port, user) + rest;
            s[0] == 4 && s[1] == 1 && PortOf(s[2], s[3]) == port && s[4..8] == octets && s[8..] == user + [0] + rest
  {
    var s := Request4(octets, port, user) + rest;
    assert s[2..4] == PortBytes(port) && s[2] == s[2..4][0] && s[3] == s[2..4][1];
    PortSurvives(port);
  }

  /**
   * The server takes exactly the request when the user id holds no zero byte, or,
   * for an address 0.0.0.x, when it holds exactly one (the name's place is then
   * taken by the rest of the id) or when none and the client sends nothing more.
   */
  lemma Socks4TakesTheRequest(octets: seq<byte>, port: Port, user: seq<byte>, rest: seq<byte>)
    requires |octets| == 4
    ensures Serve(Request4(octets, port, user) + rest).taken == |Request4(octets, port, user)| <==>
            if NameFollows(octets) then multiset(user)[0] == 1 || (0 !in user && rest == []) else 0 !in user
  {
    Socks4Header(octets, port, user, rest);
    var s := Request4(octets, port, user) + rest;
    assert s[8..8 + |user|] == user && s[8 + |user|] == 0;
    FirstNull(s, 8, user);
    if 0 in user {
      SecondNull(s, user);
    }
  }

  /** After the first zero byte of the id, the next one ends the request exactly when the id holds no other. */
  lemma SecondNull(s: seq<byte>, user: seq<byte>)
    requires 8 + |user| < |s| && s[8..8 + |user|] == user && s[8 + |user|] == 0 && 0 in user
    ensures NullAt(s, 8).Some? && NullAt(s, 8).value < 8 + |user|
    ensures var next := NullAt(s, NullAt(s, 8).value + 1);
            next.Some? && (next.value == 8 + |user| <==> multiset(user)[0] == 1)
  {
    FirstNull(s, 8, user);
    var z := NullAt(s, 8).value - 8;
    assert forall k :: 0 <= k < |user| ==> user[k] == s[8 + k];
    OneZero(user, z);
    assert s[9 + z..9 + z + |user[z + 1..]|] == user[z + 1..];
    FirstNull(s, 9 + z, user[z + 1..]);
  }

  lemma OneZero(user: seq<byte>, z: nat)
    requires z < |user| && user[z] == 0 && forall k :: 0 <= k < z ==> user[k] != 0
    ensures multiset(user)[0] == 1 <==> 0 !in user[z + 1..]
  {
    assert user == user[..z] + [user[z]] + user[z + 1..];
    assert multiset(user) == multiset(user[..z]) + multiset{user[z]} + multiset(user[z + 1..]);
    assert 0 !in multiset(user[..z]);
    assert 0 in user[z + 1..] <==> 0 in multiset(user[z + 1..]);
  }

  /** With a zero byte in the user id the rest of the id is left for the relay. */
  lemma Socks4LeavesTheRestOfTheId(octets: seq<byte>, port: Port, head: seq<byte>, tail: seq<byte>, rest: seq<byte>)
    requires |octets| == 4 && !NameFollows(octets) && 0 !in head
    ensures var s := Request4(octets, port, head + [0] + tail) + rest;
            Serve(s).taken <= |s| && s[Serve(s).taken..] == tail + [0] + rest
  {
    var user := head + [0] + tail;
    var s := Request4(octets, port, user) + rest;
    Socks4Header(octets, port, user, rest);
    assert s[8..][..|head|] == head && s[8..][|head|] == 0;
    assert s[8..8 + |head|] == head && s[8 + |head|] == 0;
    FirstNull(s, 8, head);
    assert s[8..][|head| + 1..] == tail + [0] + rest;
  }

  lemma FirstNull(s: seq<byte>, from: nat, text: seq<byte>)
    requires from + |text| < |s| && s[from..from + |text|] == text && s[from + |text|] == 0
    ensures NullAt(s, from).Some? && NullAt(s, from).value <= from + |text|
    ensures NullAt(s, from).value == from + |text| <==> 0 !in text
  {
  }

  // ---------- Nothing is decided early, nothing is decided twice ----------

  lemma {:induction false} NullStays(s: seq<byte>, t: seq<byte>, from: nat)
    requires NullAt(s, from).Some?
    ensures NullAt(s + t, from) == NullAt(s, from)
    decreases |s| - from
  {
    if s[from] != 0 { NullStays(s, t, from + 1); }
  }

  lemma Serve4IsStable(s: seq<byte>, t: seq<byte>)
    requires |s| >= 2 && !Serve4(s).decision.Cut?
    ensures Serve4(s + t) == Serve4(s) && Serve4(s).taken <= |s|
  {
    var all := s + t;
    assert all[1] == s[1];
    if s[1] == 1 {
      assert all[4..8] == s[4..8] && all[2] == s[2] && all[3] == s[3];
      NullStays(s, t, 8);
      var user := NullAt(s, 8).value;
      if NameFollows(s[4..8]) {
        NullStays(s, t, user + 1);
        var name := NullAt(s, user + 1).value;
        assert all[user + 1..name] == s[user + 1..name];
      }
    }
  }

  lemma Serve5IsStable(s: seq<byte>, t: seq<byte>)
    requires |s| >= 2 && !Serve5(s).decision.Cut?
    ensures Serve5(s + t) == Serve5(s) && Serve5(s).taken <= |s|
  {
    var all, at := s + t, 2 + s[1] as nat;
    assert all[1] == s[1] && all[2..at] == s[2..at];
    if 0 in s[2..at] { RequestIsStable(s, t, at); }
  }

  /** Once the server has decided, what arrives afterwards changes nothing and is left for the relay. */
  lemma DecisionsAreStable(s: seq<byte>, t: seq<byte>)
    requires !Serve(s).decision.Cut?
    ensures Serve(s + t) == Serve(s) && Serve(s).taken <= |s|
  {
    assert (s + t)[0] == s[0];
    if s[0] == 4 {
      Serve4IsStable(s, t);
    } else if s[0] == 5 {
      Serve5IsStable(s, t);
    }
  }

  lemma RequestIsStable(s: seq<byte>, t: seq<byte>, at: nat)
    requires !ServeRequest5(s, at).decision.Cut?
    ensures ServeRequest5(s + t, at) == ServeRequest5(s, at) && ServeRequest5(s, at).taken <= |s|
  {
    var all := s + t;
    assert all[at] == s[at] && all[at + 1] == s[at + 1] && all[at + 3] == s[at + 3];
    if s[at] == 5 && s[at + 1] == 1 {
      if s[at + 3] == 1 { AddressIsStable(s, t, at + 4, 4); }
      if s[at + 3] == 3 { assert all[at + 4] == s[at + 4]; AddressIsStable(s, t, at + 5, s[at + 4] as nat); }
      if s[at + 3] == 4 { AddressIsStable(s, t, at + 4, 16); }
    }
  }

  lemma AddressIsStable(s: seq<byte>, t: seq<byte>, at: nat, size: nat)
    requires TakeAddress(s, at, size).Some?
    ensures TakeAddress(s + t, at, size) == TakeAddress(s, at, size)
  {
    assert (s + t)[at..at + size] == s[at..at + size];
  }

  /** No proper prefix of the client's bytes makes the server act. */
  lemma PrefixesAreCut(withUser: bool, host: seq<byte>, port: Port, k: nat)
    requires |host| <= 255 && k < |Greeting(withUser) + Request5(host, port)|
    ensures Serve((Greeting(withUser) + Request5(host, port))[..k]).decision == Cut
  {
    var sent := Greeting(withUser) + Request5(host, port);
    var s, t := sent[..k], sent[k..];
    assert s + t == sent == sent + [];
    Socks5RoundTrip(withUser, host, port, []);
    if !Serve(s).decision.Cut? {
      DecisionsAreStable(s, t);
    }
  }

  /**
   * SOCKS4: no proper prefix of the request makes the server act exactly when
   * the user id holds no zero byte, or at most one for an address 0.0.0.x.
   */
  lemma Socks4PrefixesAreCut(octets: seq<byte>, port: Port, user: seq<byte>)
    requires |octets| == 4
    ensures var sent := Request4(octets, port, user);
            (forall k :: 0 <= k < |sent| ==> Serve(sent[..k]).decision == Cut)
            <==> if NameFollows(octets) then multiset(user)[0] <= 1 else 0 !in user
  {
    var sent := Request4(octets, port, user);
    assert sent + [] == sent;
    Socks4TakesTheRequest(octets, port, user, []);
    assert 0 in user <==> 0 in multiset(user);
    if Serve(sent).taken == |sent| {
      forall k | 0 <= k < |sent|
        ensures Serve(sent[..k]).decision == Cut
      {
        assert sent[..k] + sent[k..] == sent;
        if !Serve(sent[..k]).decision.Cut? {
          DecisionsAreStable(sent[..k], sent[k..]);
        }
      }
    } else {
      Socks4Header(octets, port, user, []);
      TakenIsEnough(sent);
    }
  }

  /** What the SOCKS4 server has taken when it connects is all it needed. */
  lemma TakenIsEnough(s: seq<byte>)
    requires |s| >= 8 && s[0] == 4 && s[1] == 1
    ensures Serve(s).taken <= |s| && (Serve(s).taken < |s| ==> !Serve(s[..Serve(s).taken]).decision.Cut?)
  {
    if NullAt(s, 8).Some? {
      var user := NullAt(s, 8).value;
      EarlyNull(s, 8, user, Serve(s).taken);
      if NameFollows(s[4..8]) && NullAt(s, user + 1).Some? {
        EarlyNull(s, user + 1, NullAt(s, user + 1).value, Serve(s).taken);
      }
      assert s[..Serve(s).taken][4..8] == s[4..8];
    }
  }

  lemma {:induction false} EarlyNull(s: seq<byte>, from: nat, at: nat, end: nat)
    requires NullAt(s, from) == Some(at) && at < end <= |s|
    ensures NullAt(s[..end], from) == Some(at)
    decreases at - from
  {
    if from < at {
      EarlyNull(s, from + 1, at, end);
    }
  }

  // ---------- The client ----------

  datatype ClientEnd =
    | Connected
    | BadVersion(version: byte)
    | NotAuthenticated
    | NoMethod(method_: byte)
    | HostTooLong
    | ReplyRefused(rep: byte)
    | UnknownAddressType(kind: byte)
    | CutOff

  datatype Client = Client(sent: seq<byte>, taken: nat, end: ClientEnd)

  /** The reply's bind address is skipped. */
  function AfterRequest(sent: seq<byte>, input: seq<byte>, at: nat): Client {
    if |input| < at + 4 then Client(sent, |input|, CutOff)
    else if input[at] != 5 || input[at + 1] != 0 then Client(sent, at + 4, ReplyRefused(input[at + 1]))
    else if input[at + 3] == 1 then Skip(sent, input, at + 4, 6)
    else if input[at + 3] == 3 then
      if |input| < at + 5 then Client(sent, |input|, CutOff) else Skip(sent, input, at + 5, input[at + 4] as nat + 2)
    else if input[at + 3] == 4 then Skip(sent, input, at + 4, 18)
    else Client(sent, at + 4, UnknownAddressType(input[at + 3]))
  }

  function Skip(sent: seq<byte>, input: seq<byte>, at: nat, count: nat): Client {
    if |input| < at + count then Client(sent, |input|, CutOff) else Client(sent, at + count, Connected)
  }

  /** What is left to do once the server has accepted a method. */
  function AfterMethod(input: seq<byte>, at: nat, host: seq<byte>, port: Port): Client {
    if |host| > 255 then Client([], at, HostTooLong) else AfterRequest(Request5(host, port), input, at)
  }

  function Prefixed(sent: seq<byte>, client: Client): Client {
    client.(sent := sent + client.sent)
  }

  /** The whole SOCKS5 handshake against a server that sends `input`. */
  function Dial(user: Option<seq<byte>>, password: Option<seq<byte>>, host: seq<byte>, port: Port, input: seq<byte>): Client {
    var hello := Greeting(user.Some?);
    if |input| < 2 then Client(hello, |input|, CutOff)
    else if input[0] != 5 then Client(hello, 2, BadVersion(input[0]))
    else if input[1] == 0 then Prefixed(hello, AfterMethod(input, 2, host, port))
    else if input[1] == 2 then
      var sent := hello + Credentials(if user.Some? then user.value else [], if password.Some? then password.value else []);
      if |input| < 4 then Client(sent, |input|, CutOff)
      else if input[3] != 0 then Client(sent, 4, NotAuthenticated)
      else Prefixed(sent, AfterMethod(input, 4, host, port))
    else Client(hello, 2, NoMethod(input[1]))
  }

  /**
   * Client and server together: the server reads what the client sends and
   * answers `rep` for the channel, the client reads that. The client connects
   * exactly when the channel opened, both take exactly the handshake's bytes, and
   * what either side sends afterwards is left untouched for the relay.
   */
  lemma HandshakeAgrees(
    user: Option<seq<byte>>, password: Option<seq<byte>>, host: seq<byte>, port: Port, rep: byte,
    toServer: seq<byte>, toClient: seq<byte>)
    requires |host| <= 255
    ensures var sent := Greeting(user.Some?) + Request5(host, port);
            var served := Serve(sent + toServer);
            var answer := served.replies + Reply5(rep);
            var client := Dial(user, password, host, port, answer + toClient);
            && served.decision == Target(DomainName(host), port) && served.taken == |sent|
            && client.sent == sent
            && client.end == (if rep == 0 then Connected else ReplyRefused(rep))
            && (rep == 0 ==> client.taken == |answer|)
  {
    Socks5RoundTrip(user.Some?, host, port, toServer);
    var input := [5, 0] + Reply5(rep) + toClient;
    assert input[0] == 5 && input[1] == 0 && input[2] == 5 && input[3] == rep && input[5] == 1;
  }

  // ---------- SOCKS4 client ----------

  function Dial4(octets: seq<byte>, port: Port, user: seq<byte>, input: seq<byte>): Client {
    var sent := Request4(octets, port, user);
    if |input| < 8 then Client(sent, |input|, CutOff)
    else if input[0] != 0 || input[1] != 0x5a then Client(sent, 8, ReplyRefused(input[1]))
    else Client(sent, 8, Connected)
  }

  /**
   * SOCKS4 client and server: the client connects exactly on status 0x5a and
   * takes exactly the reply; the server understands it and takes exactly its
   * bytes if and only if the id holds no zero byte and the address is not 0.0.0.x.
   */
  lemma Handshake4Agrees(octets: seq<byte>, port: Port, user: seq<byte>, status: byte, toServer: seq<byte>, toClient: seq<byte>)
    requires |octets| == 4
    ensures var client := Dial4(octets, port, user, Reply4(status) + toClient);
            && client.sent == Request4(octets, port, user)
            && client.end == (if status == 0x5a then Connected else ReplyRefused(status))
            && client.taken == |Reply4(status)|
            && (Serve(client.sent + toServer) == Served([], |client.sent|, Target(V4(octets), port))
                <==> 0 !in user && !NameFollows(octets))
  {
    Socks4RoundTrip(octets, port, user, toServer);
    var input := Reply4(status) + toClient;
    assert input[0] == 0 && input[1] == status;
  }
}
