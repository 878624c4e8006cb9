// Which byte streams the server accepts (RFC 1928 sections 3 to 5, RFC 1929 section 2), and what it dials.
module SocksLaws {
  import opened Model
  import opened Text
  import opened Socks

  // ---- the messages, each followed by the rest of the stream ----

  predicate Offered(methods: seq<Byte>) {
    1 <= |methods| <= 255 && 2 in methods
  }

  function GreetingThen(methods: seq<Byte>, rest: seq<Byte>): seq<Byte>
    requires |methods| <= 255
  {
    [5, |methods|] + (methods + rest)
  }

  predicate Sendable(cfg: Config) {
    |cfg.username| <= 255 && |cfg.password| <= 255
  }

  function LoginThen(cfg: Config, rest: seq<Byte>): seq<Byte>
    requires Sendable(cfg)
  {
    [1, |cfg.username|] + (cfg.username + ([|cfg.password|] + (cfg.password + rest)))
  }

  predicate WellFormed(a: Address) {
    match a
    case V4(b) => |b| == 4
    case Name(b) => |b| <= 255
    case V6(b) => |b| == 16
  }

  function RequestThen(a: Address, port: seq<Byte>, rest: seq<Byte>): seq<Byte>
    requires WellFormed(a)
  {
    match a
    case V4(b) => [5, 1, 0, 1] + (b + (port + rest))
    case Name(b) => [5, 1, 0, 3] + ([|b|] + (b + (port + rest)))
    case V6(b) => [5, 1, 0, 4] + (b + (port + rest))
  }

  function Handshake(methods: seq<Byte>, cfg: Config, a: Address, port: seq<Byte>, rest: seq<Byte>): seq<Byte>
    requires |methods| <= 255 && Sendable(cfg) && WellFormed(a)
  {
    GreetingThen(methods, LoginThen(cfg, RequestThen(a, port, rest)))
  }

  // ---- every handshake is accepted ----

  // The bytes the server waits for, and whatever follows them.
  lemma Fed(cfg: Config, p: Server, b: seq<Byte>, rest: seq<Byte>, half: bool)
    requires !Stops(p, half) && |b| == Need(p)
    ensures var (p', out) := Advance(cfg, p, b);
            && Drive(cfg, p, b + rest, half) == After(out, Drive(cfg, p', rest, half))
            && (out == [] ==> Drive(cfg, p, b + rest, half) == Drive(cfg, p', rest, half))
            && (Stops(p', half) ==> Drive(cfg, p, b + rest, half) == Ending(p', rest, out))
  {
    DriveEnds(cfg, p, b + rest, half);
    assert (b + rest)[..|b|] == b && (b + rest)[|b|..] == rest;
  }

  lemma FedRequest(cfg: Config, a: Address, port: seq<Byte>, rest: seq<Byte>)
    requires WellFormed(a) && |port| == 2
    ensures Drive(cfg, Request, RequestThen(a, port, rest), false) == Ending(Dialing(Target(a, Number(port))), rest, [])
  {
    hide Drive, Number;
    match a {
      case V4(b) =>
        Fed(cfg, Request, [5, 1, 0, 1], b + (port + rest), false);
        Fed(cfg, Host(AsV4, 4), b, port + rest, false);
      case Name(b) =>
        Fed(cfg, Request, [5, 1, 0, 3], [|b|] + (b + (port + rest)), false);
        Fed(cfg, NameLength, [|b|], b + (port + rest), false);
        Fed(cfg, Host(AsName, |b|), b, port + rest, false);
      case V6(b) =>
        Fed(cfg, Request, [5, 1, 0, 4], b + (port + rest), false);
        Fed(cfg, Host(AsV6, 16), b, port + rest, false);
    }
    Fed(cfg, Port(a), port, rest, false);
  }

  lemma FedLogin(cfg: Config, rest: seq<Byte>, half: bool)
    requires Sendable(cfg)
    ensures Drive(cfg, AuthHead, LoginThen(cfg, rest), half) == After([1, 0], Drive(cfg, Request, rest, half))
  {
    hide Drive;
    var u, p := cfg.username, cfg.password;
    Fed(cfg, AuthHead, [1, |u|], u + ([|p|] + (p + rest)), half);
    Fed(cfg, User(|u|), u, [|p|] + (p + rest), half);
    Fed(cfg, PassLength(u), [|p|], p + rest, half);
    Fed(cfg, Pass(u, |p|), p, rest, half);
  }

  lemma FedGreeting(cfg: Config, methods: seq<Byte>, rest: seq<Byte>, half: bool)
    requires Offered(methods)
    ensures Drive(cfg, Greeting, GreetingThen(methods, rest), half) == After([5, 2], Drive(cfg, AuthHead, rest, half))
  {
    hide Drive;
    Fed(cfg, Greeting, [5, |methods|], methods + rest, half);
    Fed(cfg, Methods(|methods|), methods, rest, half);
  }

  lemma HandshakeAccepted(cfg: Config, methods: seq<Byte>, a: Address, port: seq<Byte>, rest: seq<Byte>)
    requires Offered(methods) && Sendable(cfg) && WellFormed(a) && |port| == 2
    ensures Drive(cfg, Greeting, Handshake(methods, cfg, a, port, rest), false)
         == Ending(Dialing(Target(a, Number(port))), rest, [5, 2, 1, 0])
  {
    hide Drive, Number;
    var request := RequestThen(a, port, rest);
    FedGreeting(cfg, methods, LoginThen(cfg, request), false);
    FedLogin(cfg, request, false);
    FedRequest(cfg, a, port, rest);
    assert [5, 2] + ([1, 0] + []) == [5, 2, 1, 0];
  }

  // ---- and nothing else is ----

  lemma Cut(input: seq<Byte>, n: nat)
    requires n <= |input|
    ensures input == input[..n] + input[n..]
  {
  }

  // A read that leads on found what it needed and what it wanted.
  lemma LeadsOn(cfg: Config, p: Server, input: seq<Byte>) returns (b: seq<Byte>, rest: seq<Byte>)
    requires !Settled(p) && Drive(cfg, p, input, false).server.Dialing?
    ensures input == b + rest && |b| == Need(p)
    ensures var (p', out) := Advance(cfg, p, b);
            && Drive(cfg, p, input, false) == After(out, Drive(cfg, p', rest, false))
            && (out == [] ==> Drive(cfg, p, input, false) == Drive(cfg, p', rest, false))
            && Drive(cfg, p', rest, false).server.Dialing?
            && p' != Closed && !p'.Refusing?
            && (p'.Dialing? ==> Drive(cfg, p, input, false) == Ending(p', rest, out))
  {
    DriveEnds(cfg, p, input, false);
    b, rest := input[..Need(p)], input[Need(p)..];
    Cut(input, Need(p));
  }

  lemma RequestFound(cfg: Config, input: seq<Byte>) returns (a: Address, port: seq<Byte>, rest: seq<Byte>)
    requires Drive(cfg, Request, input, false).server.Dialing?
    ensures WellFormed(a) && |port| == 2 && input == RequestThen(a, port, rest)
  {
    hide Drive, Number;
    var head, r1 := LeadsOn(cfg, Request, input);
    assert head == [5, 1, 0, head[3]];
    var r2;
    if head[3] == 3 {
      var length, r := LeadsOn(cfg, NameLength, r1);
      assert length == [length[0]];
      var b;
      b, r2 := LeadsOn(cfg, Host(AsName, length[0]), r);
      a := Name(b);
    } else if head[3] == 1 {
      var b;
      b, r2 := LeadsOn(cfg, Host(AsV4, 4), r1);
      a := V4(b);
    } else {
      var b;
      b, r2 := LeadsOn(cfg, Host(AsV6, 16), r1);
      a := V6(b);
    }
    port, rest := LeadsOn(cfg, Port(a), r2);
  }

  lemma LoginFound(cfg: Config, input: seq<Byte>) returns (rest: seq<Byte>)
    requires Drive(cfg, AuthHead, input, false).server.Dialing?
    ensures Sendable(cfg) && input == LoginThen(cfg, rest) && Drive(cfg, Request, rest, false).server.Dialing?
  {
    hide Drive;
    var head, r1 := LeadsOn(cfg, AuthHead, input);
    assert head == [1, head[1]];
    var user, r2 := LeadsOn(cfg, User(head[1]), r1);
    var length, r3 := LeadsOn(cfg, PassLength(user), r2);
    assert length == [length[0]];
    var pass;
    pass, rest := LeadsOn(cfg, Pass(user, length[0]), r3);
  }

  lemma GreetingFound(cfg: Config, input: seq<Byte>) returns (methods: seq<Byte>, rest: seq<Byte>)
    requires Drive(cfg, Greeting, input, false).server.Dialing?
    ensures Offered(methods) && input == GreetingThen(methods, rest) && Drive(cfg, AuthHead, rest, false).server.Dialing?
  {
    hide Drive;
    var head, r1 := LeadsOn(cfg, Greeting, input);
    assert head == [5, head[1]];
    methods, rest := LeadsOn(cfg, Methods(head[1]), r1);
  }

  // The server, on any stream, fragmented in any way, accepts exactly those that start with a greeting offering
  // method 2, its own credentials and a CONNECT request of address type 1, 3 or 4. It reads exactly that prefix,
  // dials exactly the requested address and port, and has answered both first messages with success.
  lemma Recognises(cfg: Config, input: seq<Byte>)
    ensures var e := Drive(cfg, Greeting, input, false);
            && (e.server.Dialing? <==>
                  Sendable(cfg) && exists methods, a, port, rest :: Offered(methods) && WellFormed(a) && |port| == 2
                                                                   && input == Handshake(methods, cfg, a, port, rest))
            && (e.server.Dialing? ==>
                  forall methods, a, port, rest :: Offered(methods) && WellFormed(a) && |port| == 2
                                                   && input == Handshake(methods, cfg, a, port, rest) ==>
                    e == Ending(Dialing(Target(a, Number(port))), rest, [5, 2, 1, 0]))
  {
    hide Drive, Number;
    if Drive(cfg, Greeting, input, false).server.Dialing? {
      var methods, r1 := GreetingFound(cfg, input);
      var r2 := LoginFound(cfg, r1);
      var a, port, rest := RequestFound(cfg, r2);
      assert input == Handshake(methods, cfg, a, port, rest);
    }
    forall methods, a, port, rest | Sendable(cfg) && Offered(methods) && WellFormed(a) && |port| == 2
                                    && input == Handshake(methods, cfg, a, port, rest)
      ensures Drive(cfg, Greeting, input, false) == Ending(Dialing(Target(a, Number(port))), rest, [5, 2, 1, 0])
    {
      HandshakeAccepted(cfg, methods, a, port, rest);
    }
  }

  // ---- what every other stream is answered with ----

  // The greeting: closed without a word unless it is complete, of version 5 and with a method; refused with 255 when it
  // does not offer method 2; otherwise method 2 is chosen.
  lemma GreetingAnswers(cfg: Config, input: seq<Byte>, half: bool)
    ensures var e := Drive(cfg, Greeting, input, half);
            if |input| < 2 then e == Ending(Closed, [], [])
            else if input[0] != 5 || input[1] == 0 then e == Ending(Closed, input[2..], [])
            else
              var n: nat := input[1];
              if |input| < 2 + n then e == Ending(Closed, [], [])
              else if 2 !in input[2..2 + n] then e == Ending(Closed, input[2 + n..], [5, 255])
              else e == After([5, 2], Drive(cfg, AuthHead, input[2 + n..], half))
  {
    hide Drive;
    DriveEnds(cfg, Greeting, input, half);
    if |input| >= 2 && input[0] == 5 && input[1] != 0 {
      var rest, n: nat := input[2..], input[1];
      DriveEnds(cfg, Methods(input[1]), rest, half);
      if |rest| >= n {
        assert rest[..n] == input[2..2 + n] && rest[n..] == input[2 + n..];
      }
    }
  }

  lemma PasswordAnswers(cfg: Config, user: seq<Byte>, input: seq<Byte>, half: bool)
    ensures var e := Drive(cfg, PassLength(user), input, half);
            if |input| < 1 then e == Ending(Closed, [], [])
            else
              var v: nat := input[0];
              if |input| < 1 + v then e == Ending(Closed, [], [])
              else if user == cfg.username && input[1..1 + v] == cfg.password
              then e == After([1, 0], Drive(cfg, Request, input[1 + v..], half))
              else e == Ending(Closed, input[1 + v..], [1, 1])
  {
    hide Drive;
    DriveEnds(cfg, PassLength(user), input, half);
    if |input| >= 1 {
      var rest, v: nat := input[1..], input[0];
      assert input[..1] == [input[0]];
      DriveEnds(cfg, Pass(user, input[0]), rest, half);
      if |rest| >= v {
        assert rest[..v] == input[1..1 + v] && rest[v..] == input[1 + v..];
      }
    }
  }

  // The login: closed without a word unless it is complete and of version 1; answered with 0 for the server's own
  // credentials and with 1 for any others.
  lemma LoginAnswers(cfg: Config, input: seq<Byte>, half: bool)
    ensures var e := Drive(cfg, AuthHead, input, half);
            if |input| < 2 then e == Ending(Closed, [], [])
            else if input[0] != 1 then e == Ending(Closed, input[2..], [])
            else
              var u: nat := input[1];
              if |input| < 2 + u then e == Ending(Closed, [], [])
              else e == Drive(cfg, PassLength(input[2..2 + u]), input[2 + u..], half)
  {
    hide Drive;
    DriveEnds(cfg, AuthHead, input, half);
    if |input| >= 2 && input[0] == 1 {
      var rest, u: nat := input[2..], input[1];
      DriveEnds(cfg, User(input[1]), rest, half);
      if |rest| >= u {
        assert rest[..u] == input[2..2 + u] && rest[u..] == input[2 + u..];
      }
    }
  }

  // Address and port of a request: the address, how many bytes it takes, or nothing when the stream ends before it does.
  lemma HostAnswers(cfg: Config, kind: Kind, n: nat, input: seq<Byte>)
    ensures Drive(cfg, Host(kind, n), input, false)
         == if |input| < n + 2 then Ending(Refusing(1), [], [])
            else Ending(Dialing(Target(Addressed(kind, input[..n]), Number(input[n..n + 2]))), input[n + 2..], [])
  {
    hide Drive, Number;
    DriveEnds(cfg, Host(kind, n), input, false);
    if |input| >= n {
      var a, rest := Addressed(kind, input[..n]), input[n..];
      DriveEnds(cfg, Port(a), rest, false);
      if |rest| >= 2 {
        assert rest[..2] == input[n..n + 2] && rest[2..] == input[n + 2..];
      }
    }
  }

  // The request: code 1 when the stream ends early, 7 for anything but a version 5 CONNECT with a zero byte after it, 8
  // for an address type other than 1, 3 and 4.
  lemma RequestAnswers(cfg: Config, input: seq<Byte>)
    ensures var e := Drive(cfg, Request, input, false);
            if |input| < 4 then e == Ending(Refusing(1), [], [])
            else if input[0] != 5 || input[1] != 1 || input[2] != 0 then e == Ending(Refusing(7), input[4..], [])
            else if input[3] == 1 then e == Drive(cfg, Host(AsV4, 4), input[4..], false)
            else if input[3] == 4 then e == Drive(cfg, Host(AsV6, 16), input[4..], false)
            else if input[3] != 3 then e == Ending(Refusing(8), input[4..], [])
            else if |input| < 5 then e == Ending(Refusing(1), [], [])
            else e == Drive(cfg, Host(AsName, input[4]), input[5..], false)
  {
    hide Drive;
    DriveEnds(cfg, Request, input, false);
    if |input| >= 4 && input[0] == 5 && input[1] == 1 && input[2] == 0 && input[3] == 3 {
      DriveEnds(cfg, NameLength, input[4..], false);
      if |input| >= 5 {
        assert input[4..][..1] == [input[4]] && input[4..][1..] == input[5..];
      }
    }
  }

  // The last answer, always of ten bytes: code 0 and the tunnel for a target that can be reached, 5 for one that cannot,
  // the refusal's own code, and none for a connection that was closed.
  lemma ReplyAnswers(p: Server, reachable: Target -> bool)
    ensures p.Dialing? && reachable(p.target) ==> Concluded(p, reachable) == (Some(p.target), [5, 0, 0, 1, 0, 0, 0, 0, 0, 0])
    ensures p.Dialing? && !reachable(p.target) ==> Concluded(p, reachable) == (None, [5, 5, 0, 1, 0, 0, 0, 0, 0, 0])
    ensures p.Refusing? ==> Concluded(p, reachable) == (None, [5, p.code, 0, 1, 0, 0, 0, 0, 0, 0])
    ensures p == Closed ==> Concluded(p, reachable) == (None, [])
  {
  }

  // The kinds of address by their numbers, and the port high byte first.
  lemma TargetAnswers(bytes: seq<Byte>, high: Byte, low: Byte)
    ensures Addressed(AsV4, bytes) == V4(bytes) && Addressed(AsName, bytes) == Name(bytes) && Addressed(AsV6, bytes) == V6(bytes)
    ensures var h: nat, l: nat := high, low; Number([high, low]) == 256 * h + l
  {
  }

  // ---- the text handed to the dialer ----

  function Chars(b: seq<Byte>): (s: string)
    ensures |s| == |b| && forall i :: 0 <= i < |b| ==> s[i] == b[i] as char
  {
    seq(|b|, i requires 0 <= i < |b| => b[i] as char)
  }

  // net.JoinHostPort
  function JoinHostPort(host: string, port: string): string {
    if ':' in host then "[" + host + "]" + ":" + port else host + ":" + port
  }

  lemma ColonPlace(a: string, c: string, b: string, d: string)
    requires a + ":" + c == b + ":" + d && |c| < |d|
    ensures ':' in d
  {
    var s := b + ":" + d;
    assert (a + ":" + c)[|a|] == ':';
    assert s[|a|] == d[|a| - |b| - 1];
  }

  lemma LastColon(a: string, c: string, b: string, d: string)
    requires a + ":" + c == b + ":" + d && ':' !in c && ':' !in d
    ensures a == b && c == d
  {
    if |c| < |d| {
      ColonPlace(a, c, b, d);
    } else if |c| > |d| {
      ColonPlace(b, d, a, c);
    } else {
      var s := a + ":" + c;
      assert s[..|a|] == a && s[..|b|] == b;
      assert s[|a| + 1..] == c && s[|b| + 1..] == d;
    }
  }

  lemma BracketsKeepColon(h: string)
    requires ':' in h
    ensures ':' in "[" + h + "]"
  {
    var i :| 0 <= i < |h| && h[i] == ':';
    assert ("[" + h + "]")[i + 1] == ':';
  }

  lemma JoinIsExact(h1: string, n1: nat, h2: string, n2: nat)
    requires JoinHostPort(h1, Itoa(n1)) == JoinHostPort(h2, Itoa(n2))
    ensures h1 == h2 && n1 == n2
  {
    var a := if ':' in h1 then "[" + h1 + "]" else h1;
    var b := if ':' in h2 then "[" + h2 + "]" else h2;
    LastColon(a, Itoa(n1), b, Itoa(n2));
    assert DigitsValue(Itoa(n1)) == n1 && DigitsValue(Itoa(n2)) == n2;
    if ':' in h1 {
      BracketsKeepColon(h1);
    }
    if ':' in h2 {
      BracketsKeepColon(h2);
    }
    if ':' in h1 {
      assert a[1..|a| - 1] == h1 && b[1..|b| - 1] == h2;
    }
  }

  // A host with a colon stands in brackets, every other as it is.
  lemma JoinedAs(host: string, port: string)
    ensures JoinHostPort(host, port) == (if exists i :: 0 <= i < |host| && host[i] == ':' then "[" + host + "]:" + port
                                         else host + ":" + port)
  {
    assert "]" + ":" == "]:";
    assert "[" + host + "]" + ":" + port == "[" + host + ("]" + ":") + port;
  }

  // show is net.IP.String.
  function HostText(show: seq<Byte> -> string, a: Address): string {
    match a
    case Name(b) => Chars(b)
    case V4(b) => show(b)
    case V6(b) => show(b)
  }

  function DialText(show: seq<Byte> -> string, t: Target): string {
    JoinHostPort(HostText(show, t.address), Itoa(t.port))
  }

  lemma CharsExact(a: seq<Byte>, b: seq<Byte>)
    requires Chars(a) == Chars(b)
    ensures a == b
  {
    assert forall i :: 0 <= i < |a| ==> Chars(a)[i] == a[i] as char && Chars(b)[i] == b[i] as char;
  }

  // The text handed to the dialer determines host text and port, whatever bytes the host is made of; for requests by
  // name it determines the target.
  lemma DialTextIsExact(show: seq<Byte> -> string, s: Target, t: Target)
    requires DialText(show, s) == DialText(show, t)
    ensures HostText(show, s.address) == HostText(show, t.address) && s.port == t.port
    ensures s.address.Name? && t.address.Name? ==> s == t
  {
    JoinIsExact(HostText(show, s.address), s.port, HostText(show, t.address), t.port);
    if s.address.Name? && t.address.Name? {
      CharsExact(s.address.bytes, t.address.bytes);
    }
  }
}
