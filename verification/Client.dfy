// The client half of SOCKS5 in internal/proxy/check.go, with which the health check talks to a proxy.
module Client {
  import opened Model
  import opened Socks

  datatype Wish = Wish(username: seq<Byte>, password: seq<Byte>, host: seq<Byte>, port: nat)

  datatype Failure = LongCredentials | LongHost | NotAccepted | Rejected | Refused(code: Byte) | UnknownType | Broken

  // The client between two reads.
  datatype Caller =
    | AwaitMethod
    | AwaitLogin
    | Ready                          // logged in, nothing requested yet
    | AwaitReply
    | AwaitNameLength
    | AwaitBound(size: nat)
    | Connected
    | GaveUp(why: Failure)

  function Want(c: Caller): nat {
    match c
    case AwaitMethod => 2
    case AwaitLogin => 2
    case AwaitReply => 4
    case AwaitNameLength => 1
    case AwaitBound(n) => n
    case _ => 0
  }

  predicate Over(c: Caller) {
    c.Connected? || c.GaveUp?
  }

  function Left(c: Caller): nat {
    match c
    case AwaitMethod => 6
    case AwaitLogin => 5
    case Ready => 4
    case AwaitReply => 3
    case AwaitNameLength => 2
    case AwaitBound(_) => 1
    case _ => 0
  }

  const HELLO: seq<Byte> := [5, 1, 2]

  function LoginBytes(w: Wish): seq<Byte>
    requires |w.username| <= 255 && |w.password| <= 255
  {
    [1, |w.username|] + w.username + [|w.password|] + w.password
  }

  // The port is cut to 16 bits, high byte first.
  function PortBytes(port: nat): (b: seq<Byte>)
    ensures |b| == 2 && Number(b) == port % 65536
  {
    var n := port % 65536;
    [n / 256, n % 256]
  }

  function RequestBytes(w: Wish): seq<Byte>
    requires |w.host| <= 255
  {
    [5, 1, 0, 3, |w.host|] + w.host + PortBytes(w.port)
  }

  function Begin(w: Wish): (Caller, seq<Byte>) {
    if |w.username| > 255 || |w.password| > 255 then (GaveUp(LongCredentials), []) else (AwaitMethod, HELLO)
  }

  // What the client does once the bytes it waits for are there, and what it writes.
  function Proceed(w: Wish, c: Caller, b: seq<Byte>): (r: (Caller, seq<Byte>))
    requires !Over(c) && |b| == Want(c) && |w.username| <= 255 && |w.password| <= 255
    ensures Left(r.0) < Left(c)
  {
    match c
    case AwaitMethod => if b[0] == 5 && b[1] == 2 then (AwaitLogin, LoginBytes(w)) else (GaveUp(NotAccepted), [])
    case AwaitLogin => if b[1] == 0 then (Ready, []) else (GaveUp(Rejected), [])
    case Ready => if |w.host| > 255 then (GaveUp(LongHost), []) else (AwaitReply, RequestBytes(w))
    case AwaitReply =>
      if b[0] != 5 || b[1] != 0 then (GaveUp(Refused(b[1])), [])
      else if b[3] == 1 then (AwaitBound(6), [])
      else if b[3] == 4 then (AwaitBound(18), [])
      else if b[3] == 3 then (AwaitNameLength, [])
      else (GaveUp(UnknownType), [])
    case AwaitNameLength => var n: nat := b[0]; (AwaitBound(n + 2), [])
    case AwaitBound(_) => (Connected, [])
  }

  datatype Spoken = Spoken(caller: Caller, rest: seq<Byte>, sent: seq<Byte>)

  predicate Pauses(c: Caller, half: bool) {
    Over(c) || (half && c == Ready)
  }

  // The client on everything the server sends. With half set it stops when it is logged in.
  function Talk(w: Wish, c: Caller, input: seq<Byte>, half: bool): Spoken
    requires |w.username| <= 255 && |w.password| <= 255
    decreases Left(c)
  {
    if Pauses(c, half) then Spoken(c, input, [])
    else if |input| < Want(c) then Spoken(GaveUp(Broken), [], [])
    else
      var (c', out) := Proceed(w, c, input[..Want(c)]);
      var r := Talk(w, c', input[Want(c)..], half);
      r.(sent := out + r.sent)
  }

  lemma TalkStep(w: Wish, c: Caller, input: seq<Byte>, half: bool)
    requires |w.username| <= 255 && |w.password| <= 255 && !Pauses(c, half)
    ensures |input| < Want(c) ==> Talk(w, c, input, half) == Spoken(GaveUp(Broken), [], [])
    ensures |input| >= Want(c) ==>
              var (c', out) := Proceed(w, c, input[..Want(c)]);
              var rest := input[Want(c)..];
              && (out == [] ==> Talk(w, c, input, half) == Talk(w, c', rest, half))
              && (Pauses(c', half) ==> Talk(w, c, input, half) == Spoken(c', rest, out))
              && Talk(w, c, input, half) == Talk(w, c', rest, half).(sent := out + Talk(w, c', rest, half).sent)
  {
    if |input| >= Want(c) {
      var (c', out) := Proceed(w, c, input[..Want(c)]);
      var r := Talk(w, c', input[Want(c)..], half);
      assert [] + r.sent == r.sent;
      assert out + [] == out;
    }
  }

  method SocksAuthenticate(conn: Conn, w: Wish) returns (failure: Option<Failure>)
    modifies conn
    ensures |w.username| > 255 || |w.password| > 255 ==>
              failure == Some(LongCredentials) && conn.input == old(conn.input) && conn.output == old(conn.output)
    ensures |w.username| <= 255 && |w.password| <= 255 ==>
              var r := Talk(w, AwaitMethod, old(conn.input), true);
              && conn.input == r.rest && conn.output == old(conn.output) + HELLO + r.sent
              && r.caller == match failure case None => Ready case Some(why) => GaveUp(why)
  {
    hide Talk, LoginBytes, RequestBytes;
    if |w.username| > 255 || |w.password| > 255 {
      return Some(LongCredentials);
    }
    conn.Write([5, 1, 2]);
    TalkStep(w, AwaitMethod, conn.input, true);
    var reply := conn.ReadFull(2);
    if reply == None {
      return Some(Broken);
    }
    if reply.value[0] != 5 || reply.value[1] != 2 {
      return Some(NotAccepted);
    }
    conn.Write(LoginBytes(w));
    TalkStep(w, AwaitLogin, conn.input, true);
    reply := conn.ReadFull(2);
    if reply == None {
      return Some(Broken);
    }
    if reply.value[1] != 0 {
      return Some(Rejected);
    }
    return None;
  }

  // The bound address of the reply is read and thrown away.
  method SocksConnect(conn: Conn, w: Wish) returns (failure: Option<Failure>)
    requires |w.username| <= 255 && |w.password| <= 255
    modifies conn
    ensures var r := Talk(w, Ready, old(conn.input), false);
            && conn.input == r.rest && conn.output == old(conn.output) + r.sent
            && r.caller == match failure case None => Connected case Some(why) => GaveUp(why)
  {
    hide Talk, LoginBytes, RequestBytes;
    TalkStep(w, Ready, conn.input, false);
    assert conn.input[..0] == [] && conn.input[0..] == conn.input;
    if |w.host| > 255 {
      return Some(LongHost);
    }
    conn.Write(RequestBytes(w));
    failure := ReadReply(conn, w);
  }

  method ReadReply(conn: Conn, w: Wish) returns (failure: Option<Failure>)
    requires |w.username| <= 255 && |w.password| <= 255
    modifies conn
    ensures var r := Talk(w, AwaitReply, old(conn.input), false);
            && conn.input == r.rest && conn.output == old(conn.output) && r.sent == []
            && r.caller == match failure case None => Connected case Some(why) => GaveUp(why)
  {
    hide Talk, LoginBytes, RequestBytes;
    TalkStep(w, AwaitReply, conn.input, false);
    var header := conn.ReadFull(4);
    if header == None {
      return Some(Broken);
    }
    var h := header.value;
    if h[0] != 5 || h[1] != 0 {
      return Some(Refused(h[1]));
    }
    var addressLength: nat := 0;
    if h[3] == 1 {
      addressLength := 4;
    } else if h[3] == 4 {
      addressLength := 16;
    } else if h[3] == 3 {
      TalkStep(w, AwaitNameLength, conn.input, false);
      var length := conn.ReadFull(1);
      if length == None {
        return Some(Broken);
      }
      addressLength := length.value[0];
    } else {
      return Some(UnknownType);
    }
    TalkStep(w, AwaitBound(addressLength + 2), conn.input, false);
    var bound := conn.ReadFull(addressLength + 2);
    return if bound == None then Some(Broken) else None;
  }

  // ---- what the client makes of every answer, and exactly what it says ----

  // Logging in: it accepts method 2 of version 5 and nothing else, then sends the credentials, each behind its length, and
  // goes on if the second byte of the answer is 0.
  lemma LoginTalk(w: Wish, input: seq<Byte>)
    requires |w.username| <= 255 && |w.password| <= 255
    ensures var r := Talk(w, AwaitMethod, input, true);
            var login: seq<Byte> := [1, |w.username|] + w.username + [|w.password|] + w.password;
            if |input| < 2 then r == Spoken(GaveUp(Broken), [], [])
            else if input[0] != 5 || input[1] != 2 then r == Spoken(GaveUp(NotAccepted), input[2..], [])
            else if |input| < 4 then r == Spoken(GaveUp(Broken), [], login)
            else if input[3] != 0 then r == Spoken(GaveUp(Rejected), input[4..], login)
            else r == Spoken(Ready, input[4..], login)
  {
    hide Talk;
    TalkStep(w, AwaitMethod, input, true);
    if |input| >= 2 && input[0] == 5 && input[1] == 2 {
      TalkStep(w, AwaitLogin, input[2..], true);
      assert LoginBytes(w) + [] == LoginBytes(w);
      if |input| >= 4 {
        assert input[2..][..2] == [input[2], input[3]] && input[2..][2..] == input[4..];
      }
    }
  }

  // Asking: a host of more than 255 bytes is not asked for; otherwise the request names it and the port, high byte first.
  lemma AskTalk(w: Wish, input: seq<Byte>)
    requires |w.username| <= 255 && |w.password| <= 255
    ensures var r := Talk(w, Ready, input, false);
            if |w.host| > 255 then r == Spoken(GaveUp(LongHost), input, [])
            else
              && r.caller == Talk(w, AwaitReply, input, false).caller && r.rest == Talk(w, AwaitReply, input, false).rest
              && r.sent == [5, 1, 0, 3, |w.host|] + w.host + [w.port / 256 % 256, w.port % 256]
  {
    hide Talk;
    TalkStep(w, Ready, input, false);
    assert input[..0] == [] && input[0..] == input;
    if |w.host| <= 255 {
      ReplyTalk(w, input);
      assert RequestBytes(w) + [] == RequestBytes(w);
      assert w.port % 65536 / 256 == w.port / 256 % 256 && w.port % 65536 % 256 == w.port % 256;
    }
  }

  // The bytes of a bound address and its port, by the type of the address.
  lemma BoundTalk(w: Wish, n: nat, input: seq<Byte>)
    requires |w.username| <= 255 && |w.password| <= 255
    ensures Talk(w, AwaitBound(n), input, false)
         == if |input| < n then Spoken(GaveUp(Broken), [], []) else Spoken(Connected, input[n..], [])
  {
    hide Talk;
    TalkStep(w, AwaitBound(n), input, false);
  }

  // The reply: refused with its code unless it is of version 5 with code 0; an address of 4, 16 or as many bytes as it says
  // and a port of two are read and dropped.
  lemma ReplyTalk(w: Wish, input: seq<Byte>)
    requires |w.username| <= 255 && |w.password| <= 255
    ensures var r := Talk(w, AwaitReply, input, false);
            && r.sent == []
            && if |input| < 4 then r == Spoken(GaveUp(Broken), [], [])
               else if input[0] != 5 || input[1] != 0 then r == Spoken(GaveUp(Refused(input[1])), input[4..], [])
               else if input[3] != 1 && input[3] != 3 && input[3] != 4 then r == Spoken(GaveUp(UnknownType), input[4..], [])
               else if input[3] == 3 && |input| < 5 then r == Spoken(GaveUp(Broken), [], [])
               else
                 var extra: nat := if input[3] == 3 then input[4] else 0;
                 var n := if input[3] == 1 then 10 else if input[3] == 4 then 22 else 7 + extra;
                 if |input| < n then r == Spoken(GaveUp(Broken), [], []) else r == Spoken(Connected, input[n..], [])
  {
    hide Talk;
    TalkStep(w, AwaitReply, input, false);
    if |input| >= 4 && input[0] == 5 && input[1] == 0 {
      var rest := input[4..];
      if input[3] == 1 {
        BoundTalk(w, 6, rest);
      } else if input[3] == 4 {
        BoundTalk(w, 18, rest);
      } else if input[3] == 3 {
        TalkStep(w, AwaitNameLength, rest, false);
        if |rest| >= 1 {
          var n: nat := rest[0];
          assert rest[..1] == [rest[0]] && rest[1..] == input[5..];
          BoundTalk(w, n + 2, rest[1..]);
        }
      }
    }
  }
}
