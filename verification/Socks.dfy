// The server half of SOCKS5 in internal/engine/server.go (RFC 1928, RFC 1929), over byte streams that arrive in
// fragments of any size.
module Socks {
  import opened Model
  import opened Text

  type Byte = b: nat | b < 256

  // ---- a connection ----

  // One end of a connection: what the peer sends before it closes, and what has been written. cut says how much of
  // what is asked for a read returns.
  class Conn {
    var input: seq<Byte>
    var output: seq<Byte>
    var turn: nat
    const cut: (nat, nat) -> nat

    constructor (input: seq<Byte>, cut: (nat, nat) -> nat)
      ensures this.input == input && output == []
    {
      this.input, output, turn := input, [], 0;
      this.cut := cut;
    }

    // At least one byte and at most n, or nothing at the end of the stream.
    method Read(n: nat) returns (got: seq<Byte>)
      requires n > 0
      modifies this`input, this`turn
      ensures |got| <= n && got + input == old(input)
      ensures got == [] <==> old(input) == []
    {
      var most := if n < |input| then n else |input|;
      var some := cut(turn, n);
      var take := if some < 1 then 1 else some;
      take := if take < most then take else most;
      turn := turn + 1;
      got := input[..take];
      input := input[take..];
    }

    // io.ReadFull: exactly n bytes, or everything that was left and an error.
    method ReadFull(n: nat) returns (r: Option<seq<Byte>>)
      modifies this`input, this`turn
      ensures if |old(input)| >= n
              then r == Some(old(input)[..n]) && input == old(input)[n..]
              else r == None && input == []
    {
      var got: seq<Byte> := [];
      while |got| < n
        invariant |got| <= n && got + input == old(input)
        decreases n - |got|
      {
        var more := Read(n - |got|);
        if more == [] {
          return None;
        }
        assert (got + more) + input == got + (more + input);
        got := got + more;
      }
      assert old(input)[..n] == got && old(input)[n..] == input;
      return Some(got);
    }

    method Write(bytes: seq<Byte>)
      modifies this`output
      ensures output == old(output) + bytes
    {
      output := output + bytes;
    }
  }

  // ---- what the server is doing ----

  datatype Address = V4(bytes: seq<Byte>) | Name(bytes: seq<Byte>) | V6(bytes: seq<Byte>)

  datatype Target = Target(address: Address, port: nat)

  datatype Kind = AsV4 | AsName | AsV6

  // The server between two reads.
  datatype Server =
    | Greeting
    | Methods(count: Byte)
    | AuthHead
    | User(length: Byte)
    | PassLength(user: seq<Byte>)
    | Pass(user: seq<Byte>, length: Byte)
    | Request
    | NameLength
    | Host(kind: Kind, size: nat)
    | Port(address: Address)
    | Dialing(target: Target)       // a complete request
    | Refusing(code: Byte)          // a request to be answered with an error code
    | Closed

  datatype Config = Config(username: seq<Byte>, password: seq<Byte>)

  function Need(p: Server): nat {
    match p
    case Greeting => 2
    case Methods(n) => n
    case AuthHead => 2
    case User(n) => n
    case PassLength(_) => 1
    case Pass(_, n) => n
    case Request => 4
    case NameLength => 1
    case Host(_, n) => n
    case Port(_) => 2
    case _ => 0
  }

  predicate Settled(p: Server) {
    p.Dialing? || p.Refusing? || p.Closed?
  }

  function Rank(p: Server): nat {
    match p
    case Greeting => 10
    case Methods(_) => 9
    case AuthHead => 8
    case User(_) => 7
    case PassLength(_) => 6
    case Pass(_, _) => 5
    case Request => 4
    case NameLength => 3
    case Host(_, _) => 2
    case Port(_) => 1
    case _ => 0
  }

  // Two bytes in network order.
  function Number(b: seq<Byte>): (n: nat)
    requires |b| == 2
    ensures n < 65536
  {
    var high: nat, low: nat := b[0], b[1];
    256 * high + low
  }

  function Addressed(kind: Kind, b: seq<Byte>): Address {
    match kind
    case AsV4 => V4(b)
    case AsName => Name(b)
    case AsV6 => V6(b)
  }

  // What the server does once the bytes it waits for are there, and what it writes.
  function Advance(cfg: Config, p: Server, b: seq<Byte>): (r: (Server, seq<Byte>))
    requires !Settled(p) && |b| == Need(p)
    ensures Rank(r.0) < Rank(p)
  {
    match p
    case Greeting => if b[0] != 5 || b[1] == 0 then (Closed, []) else (Methods(b[1]), [])
    case Methods(_) => if 2 in b then (AuthHead, [5, 2]) else (Closed, [5, 255])
    case AuthHead => if b[0] != 1 then (Closed, []) else (User(b[1]), [])
    case User(_) => (PassLength(b), [])
    case PassLength(user) => (Pass(user, b[0]), [])
    case Pass(user, _) => if user == cfg.username && b == cfg.password then (Request, [1, 0]) else (Closed, [1, 1])
    case Request =>
      if b[0] != 5 || b[1] != 1 || b[2] != 0 then (Refusing(7), [])
      else if b[3] == 1 then (Host(AsV4, 4), [])
      else if b[3] == 3 then (NameLength, [])
      else if b[3] == 4 then (Host(AsV6, 16), [])
      else (Refusing(8), [])
    case NameLength => (Host(AsName, b[0]), [])
    case Host(kind, _) => (Port(Addressed(kind, b)), [])
    case Port(address) => (Dialing(Target(address, Number(b))), [])
  }

  // When the stream ends before the bytes are there.
  function AtEnd(p: Server): Server {
    if Rank(p) <= 4 then Refusing(1) else Closed
  }

  // How a stretch of the server's work ends: where it is, what is left to read, what it has written.
  datatype Ending = Ending(server: Server, rest: seq<Byte>, sent: seq<Byte>)

  function After(out: seq<Byte>, e: Ending): Ending {
    e.(sent := out + e.sent)
  }

  lemma AfterNothing(e: Ending)
    ensures After([], e) == e
  {
    assert [] + e.sent == e.sent;
  }

  lemma AfterSends(out: seq<Byte>, e: Ending, before: seq<Byte>, written: seq<Byte>)
    requires written == before + out
    ensures written + e.sent == before + After(out, e).sent
    ensures After(out, e).server == e.server && After(out, e).rest == e.rest
  {
  }

  lemma AfterTwice(a: seq<Byte>, b: seq<Byte>, e: Ending)
    ensures After(a, After(b, e)) == After(a + b, e)
  {
    assert a + (b + e.sent) == (a + b) + e.sent;
  }

  predicate Stops(p: Server, half: bool) {
    Settled(p) || (half && p == Request)
  }

  // The server on a whole stream. With half set it stops after the authentication.
  function Drive(cfg: Config, p: Server, input: seq<Byte>, half: bool): Ending
    decreases Rank(p)
  {
    if Stops(p, half) then Ending(p, input, [])
    else if |input| < Need(p) then Ending(AtEnd(p), [], [])
    else
      var (p', out) := Advance(cfg, p, input[..Need(p)]);
      After(out, Drive(cfg, p', input[Need(p)..], half))
  }

  // One read of the server, whichever way it goes.
  lemma DriveEnds(cfg: Config, p: Server, input: seq<Byte>, half: bool)
    requires !Stops(p, half)
    ensures |input| < Need(p) ==> Drive(cfg, p, input, half) == Ending(AtEnd(p), [], [])
    ensures |input| >= Need(p) ==>
              var (p', out) := Advance(cfg, p, input[..Need(p)]);
              var rest := input[Need(p)..];
              && Drive(cfg, p, input, half) == After(out, Drive(cfg, p', rest, half))
              && (out == [] ==> Drive(cfg, p, input, half) == Drive(cfg, p', rest, half))
              && (Stops(p', half) ==> Drive(cfg, p, input, half) == Ending(p', rest, out))
  {
    if |input| >= Need(p) {
      var (p', out) := Advance(cfg, p, input[..Need(p)]);
      AfterNothing(Drive(cfg, p', input[Need(p)..], half));
      assert out + [] == out;
    }
  }

  function ReplyOf(code: Byte): seq<Byte> {
    [5, code, 0, 1, 0, 0, 0, 0, 0, 0]
  }

  // ---- the server's methods ----

  // authenticate; the error texts are not modelled.
  method Authenticate(conn: Conn, cfg: Config) returns (ok: bool)
    modifies conn
    ensures var e := Drive(cfg, Greeting, old(conn.input), true);
            ok == (e.server == Request) && conn.input == e.rest && conn.output == old(conn.output) + e.sent
  {
    hide Drive, After, Number;
    DriveEnds(cfg, Greeting, conn.input, true);
    var header := conn.ReadFull(2);
    if header == None || header.value[0] != 5 || header.value[1] == 0 {
      return false;
    }
    DriveEnds(cfg, Methods(header.value[1]), conn.input, true);
    var methods := conn.ReadFull(header.value[1]);
    if methods == None {
      return false;
    }
    var found := false;
    for i := 0 to |methods.value|
      invariant found == (2 in methods.value[..i])
    {
      found := found || methods.value[i] == 2;
    }
    assert methods.value[..|methods.value|] == methods.value;
    if !found {
      conn.Write([5, 255]);
      return false;
    }
    conn.Write([5, 2]);
    ghost var written, rest := conn.output, conn.input;
    ok := ReadLogin(conn, cfg);
    AfterSends([5, 2], Drive(cfg, AuthHead, rest, true), old(conn.output), written);
  }

  // The second half of authenticate, after the method is agreed.
  method ReadLogin(conn: Conn, cfg: Config) returns (ok: bool)
    modifies conn
    ensures var e := Drive(cfg, AuthHead, old(conn.input), true);
            ok == (e.server == Request) && conn.input == e.rest && conn.output == old(conn.output) + e.sent
  {
    hide Drive, After, Number;
    DriveEnds(cfg, AuthHead, conn.input, true);
    var header := conn.ReadFull(2);
    if header == None || header.value[0] != 1 {
      return false;
    }
    DriveEnds(cfg, User(header.value[1]), conn.input, true);
    var user := conn.ReadFull(header.value[1]);
    if user == None {
      return false;
    }
    DriveEnds(cfg, PassLength(user.value), conn.input, true);
    var length := conn.ReadFull(1);
    if length == None {
      return false;
    }
    DriveEnds(cfg, Pass(user.value, length.value[0]), conn.input, true);
    var pass := conn.ReadFull(length.value[0]);
    if pass == None {
      return false;
    }
    var valid := |user.value| == |cfg.username| && |pass.value| == |cfg.password|;
    if valid {
      valid := user.value == cfg.username && pass.value == cfg.password;
    }
    assert valid == (user.value == cfg.username && pass.value == cfg.password);
    if !valid {
      conn.Write([1, 1]);
      return false;
    }
    conn.Write([1, 0]);
    return true;
  }

  // readConnectRequest: a target, or the code to reply with.
  method ReadConnectRequest(conn: Conn, cfg: Config) returns (r: Result<Target, Byte>)
    modifies conn
    ensures var e := Drive(cfg, Request, old(conn.input), false);
            && e == Ending(match r case Ok(t) => Dialing(t) case Err(code) => Refusing(code), conn.input, [])
            && conn.output == old(conn.output)
  {
    var header := conn.ReadFull(4);
    if header == None {
      return Err(1);
    }
    var h := header.value;
    if h[0] != 5 || h[1] != 1 || h[2] != 0 {
      return Err(7);
    }
    var kind, size := AsName, 0;
    if h[3] == 1 {
      kind, size := AsV4, 4;
    } else if h[3] == 4 {
      kind, size := AsV6, 16;
    } else if h[3] == 3 {
      var length := conn.ReadFull(1);
      if length == None {
        return Err(1);
      }
      size := length.value[0];
    } else {
      return Err(8);
    }
    r := ReadHostAndPort(conn, cfg, kind, size);
  }

  method ReadHostAndPort(conn: Conn, cfg: Config, kind: Kind, size: nat) returns (r: Result<Target, Byte>)
    modifies conn
    ensures var e := Drive(cfg, Host(kind, size), old(conn.input), false);
            && e == Ending(match r case Ok(t) => Dialing(t) case Err(code) => Refusing(code), conn.input, [])
            && conn.output == old(conn.output)
  {
    hide Drive, Number;
    DriveEnds(cfg, Host(kind, size), conn.input, false);
    var host := conn.ReadFull(size);
    if host == None {
      return Err(1);
    }
    DriveEnds(cfg, Port(Addressed(kind, host.value)), conn.input, false);
    var port := conn.ReadFull(2);
    if port == None {
      return Err(1);
    }
    return Ok(Target(Addressed(kind, host.value), Number(port.value)));
  }

  // How a connection ends, given whether the target can be reached.
  function Concluded(p: Server, reachable: Target -> bool): (Option<Target>, seq<Byte>) {
    match p
    case Dialing(t) => if reachable(t) then (Some(t), ReplyOf(0)) else (None, ReplyOf(5))
    case Refusing(code) => (None, ReplyOf(code))
    case _ => (None, [])
  }

  // serveConnection up to the tunnel: the target it tunnels to, if any.
  method ServeConnection(conn: Conn, cfg: Config, reachable: Target -> bool) returns (tunnel: Option<Target>)
    modifies conn
    ensures var e := Drive(cfg, Greeting, old(conn.input), false);
            && conn.input == e.rest && conn.output == old(conn.output) + e.sent + Concluded(e.server, reachable).1
            && tunnel == Concluded(e.server, reachable).0
  {
    hide Drive;
    HalfThenRest(cfg, Greeting, conn.input);
    var ok := Authenticate(conn, cfg);
    if !ok {
      return None;
    }
    var request := ReadConnectRequest(conn, cfg);
    match request {
      case Err(code) =>
        conn.Write(ReplyOf(code));
        return None;
      case Ok(target) =>
        if !reachable(target) {
          conn.Write(ReplyOf(5));
          return None;
        }
        conn.Write(ReplyOf(0));
        return Some(target);
    }
  }

  lemma AuthNext(cfg: Config, p: Server, b: seq<Byte>)
    requires !Settled(p) && |b| == Need(p) && Rank(p) > 4
    ensures var p' := Advance(cfg, p, b).0; Rank(p') >= 4 || p' == Closed
  {
  }

  // Stopping after the authentication and going on is the same as not stopping.
  lemma {:induction false} HalfThenRest(cfg: Config, p: Server, input: seq<Byte>)
    requires Rank(p) >= 4 || p == Closed
    ensures var e := Drive(cfg, p, input, true);
            && (e.server == Request || e.server == Closed)
            && Drive(cfg, p, input, false)
               == if e.server == Request then After(e.sent, Drive(cfg, Request, e.rest, false)) else e
    decreases Rank(p)
  {
    hide Advance, Need;
    if p == Request {
      AfterNothing(Drive(cfg, p, input, false));
    } else if p != Closed && |input| >= Need(p) {
      var (p', out) := Advance(cfg, p, input[..Need(p)]);
      var rest := input[Need(p)..];
      AuthNext(cfg, p, input[..Need(p)]);
      HalfThenRest(cfg, p', rest);
      var e := Drive(cfg, p', rest, true);
      AfterTwice(out, e.sent, Drive(cfg, Request, e.rest, false));
    }
  }
}
