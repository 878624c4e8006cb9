// The client of internal/proxy/check.go and the server of internal/engine/server.go talking to each other, with
// every byte delivered when the network likes: all interleavings and all fragmentations.
module Handshakes {
  import opened Model
  import opened Socks
  import opened SocksLaws
  import opened Client

  // What each side has written so far, how much of it the other side has read, and where in it the read that is under
  // way began. done says that the server has finished with the handshake.
  datatype Pair = Pair(
    caller: Caller, callerFrom: nat, callerRead: nat, toServer: seq<Byte>,
    server: Server, serverFrom: nat, serverRead: nat, toCaller: seq<Byte>,
    done: bool, tunnel: Option<Target>)

  datatype Setting = Setting(wish: Wish, cfg: Config, reachable: Target -> bool)

  // What the client sends without complaint: credentials and host of at most 255 bytes, and a 16-bit port.
  predicate Proper(w: Wish) {
    |w.username| <= 255 && |w.password| <= 255 && |w.host| <= 255 && w.port < 65536
  }

  function Opening(w: Wish): Pair {
    var (caller, out) := Begin(w);
    Pair(caller, 0, 0, out, Greeting, 0, 0, [], false, None)
  }

  // A read step delivers any positive number of the bytes asked for that are there.
  datatype Action = CallerReads(n: nat) | CallerActs | ServerReads(n: nat) | ServerActs | ServerEnds

  predicate InOrder(s: Pair) {
    s.callerFrom <= s.callerRead <= |s.toCaller| && s.serverFrom <= s.serverRead <= |s.toServer|
  }

  predicate CanStep(s: Pair, a: Action) {
    InOrder(s) &&
    match a
    case CallerReads(n) =>
      !Over(s.caller) && 0 < n && s.callerRead + n <= |s.toCaller| && s.callerRead + n <= s.callerFrom + Want(s.caller)
    case CallerActs => !Over(s.caller) && s.callerRead == s.callerFrom + Want(s.caller)
    case ServerReads(n) =>
      !Settled(s.server) && 0 < n && s.serverRead + n <= |s.toServer| && s.serverRead + n <= s.serverFrom + Need(s.server)
    case ServerActs => !Settled(s.server) && s.serverRead == s.serverFrom + Need(s.server)
    case ServerEnds => Settled(s.server) && !s.done
  }

  function Next(x: Setting, s: Pair, a: Action): Pair
    requires Proper(x.wish) && CanStep(s, a)
  {
    match a
    case CallerReads(n) => s.(callerRead := s.callerRead + n)
    case ServerReads(n) => s.(serverRead := s.serverRead + n)
    case CallerActs =>
      var (c, out) := Proceed(x.wish, s.caller, s.toCaller[s.callerFrom..s.callerRead]);
      s.(caller := c, callerFrom := s.callerRead, toServer := s.toServer + out)
    case ServerActs =>
      var (p, out) := Advance(x.cfg, s.server, s.toServer[s.serverFrom..s.serverRead]);
      s.(server := p, serverFrom := s.serverRead, toCaller := s.toCaller + out)
    case ServerEnds =>
      var (t, out) := Concluded(s.server, x.reachable);
      s.(done := true, tunnel := t, toCaller := s.toCaller + out)
  }

  // ---- the two scripts ----

  function Given(w: Wish): Config {
    Config(w.username, w.password)
  }

  function Wanted(w: Wish): Target {
    Target(Name(w.host), w.port)
  }

  function AskThen(w: Wish): seq<Byte>
    requires Proper(w)
  {
    RequestThen(Name(w.host), PortBytes(w.port), [])
  }

  // Everything the client may say.
  function Script(w: Wish): seq<Byte>
    requires Proper(w)
  {
    Handshake([2], Given(w), Name(w.host), PortBytes(w.port), [])
  }

  // The server phases that this client can lead to.
  predicate Expected(w: Wish, p: Server) {
    match p
    case Greeting => true
    case Methods(n) => n == 1
    case AuthHead => true
    case User(n) => n == |w.username|
    case PassLength(u) => u == w.username
    case Pass(u, n) => u == w.username && n == |w.password|
    case Request => true
    case NameLength => true
    case Host(kind, n) => kind == AsName && n == |w.host|
    case Port(a) => a == Name(w.host)
    case Dialing(t) => t == Wanted(w)
    case Refusing(_) => false
    case Closed => true
  }

  // How far into the script a phase begins.
  function Place(w: Wish, p: Server): nat {
    var u, v, h := |w.username|, |w.password|, |w.host|;
    match p
    case Greeting => 0
    case Methods(_) => 2
    case AuthHead => 3
    case User(_) => 5
    case PassLength(_) => 5 + u
    case Pass(_, _) => 6 + u
    case Request => 6 + u + v
    case Closed => 6 + u + v
    case NameLength => 10 + u + v
    case Host(_, _) => 11 + u + v
    case Port(_) => 11 + u + v + h
    case _ => 13 + u + v + h
  }

  // What the server finds there.
  function Finds(w: Wish, p: Server): seq<Byte>
    requires Proper(w) && Expected(w, p) && !Settled(p)
  {
    match p
    case Greeting => [5, 1]
    case Methods(_) => [2]
    case AuthHead => [1, |w.username|]
    case User(_) => w.username
    case PassLength(_) => [|w.password|]
    case Pass(_, _) => w.password
    case Request => [5, 1, 0, 3]
    case NameLength => [|w.host|]
    case Host(_, _) => w.host
    case Port(_) => PortBytes(w.port)
  }

  // What the server has said by then.
  function Told(x: Setting, p: Server, done: bool): seq<Byte> {
    if Rank(p) >= 9 then []
    else if Rank(p) >= 5 then [5, 2]
    else if p == Closed then [5, 2, 1, 1]
    else if p.Dialing? && done then [5, 2, 1, 0] + ReplyOf(if x.reachable(p.target) then 0 else 5)
    else [5, 2, 1, 0]
  }

  // How much the client has said by then, and how far it has read.
  function Said(w: Wish, c: Caller): nat {
    var login := 6 + |w.username| + |w.password|;
    match c
    case AwaitMethod => 3
    case AwaitLogin => login
    case Ready => login
    case GaveUp(why) => if why == Rejected then login else login + 7 + |w.host|
    case _ => login + 7 + |w.host|
  }

  function Heard(c: Caller): nat {
    match c
    case AwaitMethod => 0
    case AwaitLogin => 2
    case Ready => 4
    case AwaitReply => 4
    case GaveUp(why) => if why == Rejected then 4 else 8
    case Connected => 14
    case _ => 8
  }

  // ---- the invariant ----

  ghost predicate CallerFits(x: Setting, c: Caller) {
    var matches, reached := Given(x.wish) == x.cfg, x.reachable(Wanted(x.wish));
    match c
    case AwaitMethod => true
    case AwaitLogin => true
    case Ready => matches
    case AwaitReply => matches
    case AwaitBound(n) => matches && reached && n == 6
    case Connected => matches && reached
    case GaveUp(why) => (why == Rejected && !matches) || (why == Refused(5) && matches && !reached)
    case AwaitNameLength => false
  }

  ghost predicate ServerFits(x: Setting, p: Server) {
    && Expected(x.wish, p)
    && (p == Closed ==> Given(x.wish) != x.cfg)
    && (Rank(p) <= 4 && p != Closed ==> Given(x.wish) == x.cfg)
  }

  ghost predicate Good(x: Setting, s: Pair)
    requires Proper(x.wish)
  {
    && InOrder(s) && ServerFits(x, s.server) && CallerFits(x, s.caller)
    && s.serverFrom == Place(x.wish, s.server) && s.callerFrom == Heard(s.caller)
    && |s.toServer| == Said(x.wish, s.caller) && s.toServer <= Script(x.wish)
    && s.toCaller == Told(x, s.server, s.done)
    && (!Settled(s.server) ==> s.serverRead <= s.serverFrom + Need(s.server) && !s.done)
    && (Settled(s.server) ==> s.serverRead == s.serverFrom)
    && (!Over(s.caller) ==> s.callerRead <= s.callerFrom + Want(s.caller))
    && (Over(s.caller) ==> s.callerRead == s.callerFrom)
    && s.tunnel == (if s.done then Concluded(s.server, x.reachable).0 else None)
  }

  // ---- where everything is in the script ----

  lemma Parts(w: Wish)
    requires Proper(w)
    ensures |Script(w)| == 13 + |w.username| + |w.password| + |w.host|
    ensures |LoginBytes(w)| == 3 + |w.username| + |w.password| && |RequestBytes(w)| == 7 + |w.host|
    ensures Script(w) == HELLO + LoginBytes(w) + RequestBytes(w)
  {
    hide LoginThen, RequestThen;
    AskIsRequest(w);
    LoginIsLogin(w, AskThen(w));
    assert [5, 1] + ([2] + (LoginBytes(w) + RequestBytes(w))) == HELLO + LoginBytes(w) + RequestBytes(w);
  }

  lemma AskIsRequest(w: Wish)
    requires Proper(w)
    ensures AskThen(w) == RequestBytes(w)
  {
  }

  lemma LoginIsLogin(w: Wish, rest: seq<Byte>)
    requires Proper(w)
    ensures LoginThen(Given(w), rest) == LoginBytes(w) + rest
  {
  }

  // The script from the place of a phase on.
  function Tail(w: Wish, p: Server): seq<Byte>
    requires Proper(w) && Expected(w, p) && !Settled(p)
  {
    match p
    case Greeting => Script(w)
    case Methods(_) => [2] + LoginThen(Given(w), AskThen(w))
    case AuthHead => LoginThen(Given(w), AskThen(w))
    case User(_) => w.username + ([|w.password|] + (w.password + AskThen(w)))
    case PassLength(_) => [|w.password|] + (w.password + AskThen(w))
    case Pass(_, _) => w.password + AskThen(w)
    case Request => AskThen(w)
    case NameLength => [|w.host|] + (w.host + (PortBytes(w.port) + []))
    case Host(_, _) => w.host + (PortBytes(w.port) + [])
    case Port(_) => PortBytes(w.port) + []
  }

  lemma Drop(s: seq<Byte>, k: nat, a: seq<Byte>, rest: seq<Byte>)
    requires k <= |s| && s[k..] == a + rest
    ensures k + |a| <= |s| && s[k..k + |a|] == a && s[k + |a|..] == rest
  {
    assert |s[k..]| == |a| + |rest|;
    assert s[k..k + |a|] == s[k..][..|a|];
    assert s[k + |a|..] == s[k..][|a|..];
  }

  lemma TailsOfLogin(w: Wish)
    requires Proper(w)
    ensures 6 + |w.username| + |w.password| <= |Script(w)|
    ensures Script(w)[2..] == Tail(w, Methods(1)) && Script(w)[3..] == Tail(w, AuthHead)
    ensures Script(w)[5..] == Tail(w, User(|w.username|))
    ensures Script(w)[5 + |w.username|..] == Tail(w, PassLength(w.username))
    ensures Script(w)[6 + |w.username|..] == Tail(w, Pass(w.username, |w.password|))
    ensures Script(w)[6 + |w.username| + |w.password|..] == Tail(w, Request)
  {
    hide Script, AskThen, Tail;
    var s, u, v, ask := Script(w), w.username, w.password, AskThen(w);
    LoginTails(w);
    ScriptOpens(w);
    Drop(s, 0, [5, 1], Tail(w, Methods(1)));
    Drop(s, 2, [2], Tail(w, AuthHead));
    Drop(s, 3, [1, |u|], Tail(w, User(|u|)));
    Drop(s, 5, u, Tail(w, PassLength(u)));
    Drop(s, 5 + |u|, [|v|], Tail(w, Pass(u, |v|)));
    Drop(s, 6 + |u|, v, ask);
  }

  lemma LoginTails(w: Wish)
    requires Proper(w)
    ensures var u, v := w.username, w.password;
            && Tail(w, Methods(1)) == [2] + Tail(w, AuthHead)
            && Tail(w, AuthHead) == [1, |u|] + Tail(w, User(|u|))
            && Tail(w, User(|u|)) == u + Tail(w, PassLength(u))
            && Tail(w, PassLength(u)) == [|v|] + Tail(w, Pass(u, |v|))
            && Tail(w, Pass(u, |v|)) == v + AskThen(w)
            && Tail(w, Request) == AskThen(w)
  {
  }

  lemma ScriptOpens(w: Wish)
    requires Proper(w)
    ensures Script(w)[0..] == [5, 1] + Tail(w, Methods(1))
  {
  }

  lemma TailsOfRequest(w: Wish)
    requires Proper(w)
    ensures 11 + |w.username| + |w.password| + |w.host| <= |Script(w)|
    ensures Script(w)[10 + |w.username| + |w.password|..] == Tail(w, NameLength)
    ensures Script(w)[11 + |w.username| + |w.password|..] == Tail(w, Host(AsName, |w.host|))
    ensures Script(w)[11 + |w.username| + |w.password| + |w.host|..] == Tail(w, Port(Name(w.host)))
  {
    hide Script, Tail, LoginThen, AskThen, PortBytes;
    TailsOfLogin(w);
    RequestTails(w);
    DropThree(Script(w), 6 + |w.username| + |w.password|, [5, 1, 0, 3], [|w.host|], w.host,
              Tail(w, NameLength), Tail(w, Host(AsName, |w.host|)), Tail(w, Port(Name(w.host))));
  }

  lemma DropThree(s: seq<Byte>, k: nat, a: seq<Byte>, b: seq<Byte>, c: seq<Byte>,
      t1: seq<Byte>, t2: seq<Byte>, t3: seq<Byte>)
    requires k <= |s| && s[k..] == a + t1 && t1 == b + t2 && t2 == c + t3
    ensures k + |a| + |b| + |c| <= |s|
    ensures s[k + |a|..] == t1 && s[k + |a| + |b|..] == t2 && s[k + |a| + |b| + |c|..] == t3
  {
    Drop(s, k, a, t1);
    Drop(s, k + |a|, b, t2);
    Drop(s, k + |a| + |b|, c, t3);
  }

  lemma RequestTails(w: Wish)
    requires Proper(w)
    ensures Tail(w, Request) == [5, 1, 0, 3] + Tail(w, NameLength)
    ensures Tail(w, NameLength) == [|w.host|] + Tail(w, Host(AsName, |w.host|))
    ensures Tail(w, Host(AsName, |w.host|)) == w.host + Tail(w, Port(Name(w.host)))
  {
  }

  // At its place in the script every phase finds what it needs.
  lemma FindsThere(w: Wish, p: Server)
    requires Proper(w) && Expected(w, p) && !Settled(p)
    ensures |Finds(w, p)| == Need(p) && Place(w, p) + Need(p) <= |Script(w)|
    ensures Script(w)[Place(w, p)..Place(w, p) + Need(p)] == Finds(w, p)
  {
    TailsOfLogin(w);
    TailsOfRequest(w);
    Parts(w);
    TailOpens(w, p);
  }

  lemma TailOpens(w: Wish, p: Server)
    requires Proper(w) && Expected(w, p) && !Settled(p)
    requires Place(w, p) <= |Script(w)| && Script(w)[Place(w, p)..] == Tail(w, p)
    ensures |Finds(w, p)| == Need(p) && Place(w, p) + Need(p) <= |Script(w)|
    ensures Script(w)[Place(w, p)..Place(w, p) + Need(p)] == Finds(w, p)
  {
    var s, k, rest := Script(w), Place(w, p), Tail(w, p)[|Finds(w, p)|..];
    assert Tail(w, p) == Finds(w, p) + rest;
    Drop(s, k, Finds(w, p), rest);
  }

  // ---- every step keeps the invariant ----

  lemma AdvanceFits(x: Setting, p: Server)
    requires Proper(x.wish) && ServerFits(x, p) && !Settled(p) && |Finds(x.wish, p)| == Need(p)
    ensures var (p', out) := Advance(x.cfg, p, Finds(x.wish, p));
            && ServerFits(x, p') && Place(x.wish, p') == Place(x.wish, p) + Need(p)
            && Told(x, p', false) == Told(x, p, false) + out
  {
    var w := x.wish;
    match p
    case Pass(_, _) =>
      assert Given(w) == x.cfg <==> w.username == x.cfg.username && w.password == x.cfg.password;
    case Port(_) =>
      assert Number(PortBytes(w.port)) == w.port;
    case _ =>
  }

  lemma ServerActsKeeps(x: Setting, s: Pair)
    requires Proper(x.wish) && Good(x, s) && CanStep(s, ServerActs)
    ensures Good(x, Next(x, s, ServerActs))
  {
    hide Advance, Finds, Place, Told, Script, Expected;
    FindsThere(x.wish, s.server);
    assert s.toServer[s.serverFrom..s.serverRead] == Script(x.wish)[s.serverFrom..s.serverRead];
    AdvanceFits(x, s.server);
  }

  lemma ServerEndsKeeps(x: Setting, s: Pair)
    requires Proper(x.wish) && Good(x, s) && CanStep(s, ServerEnds)
    ensures Good(x, Next(x, s, ServerEnds))
  {
    assert [5, 2, 1, 1] + [] == [5, 2, 1, 1];
  }

  // What the caller has in hand when its read is complete.
  ghost predicate Hears(x: Setting, c: Caller, b: seq<Byte>) {
    match c
    case AwaitMethod => b == [5, 2]
    case AwaitLogin => b == if Given(x.wish) == x.cfg then [1, 0] else [1, 1]
    case AwaitReply => b == [5, if x.reachable(Wanted(x.wish)) then 0 else 5, 0, 1]
    case _ => true
  }

  lemma CallerHears(x: Setting, s: Pair)
    requires Proper(x.wish) && Good(x, s) && CanStep(s, CallerActs)
    ensures Hears(x, s.caller, s.toCaller[s.callerFrom..s.callerRead])
  {
    var told := s.toCaller;
    match s.caller
    case AwaitMethod =>
      assert told[0..2] == [told[0], told[1]];
    case AwaitLogin =>
      assert told[2..4] == [told[2], told[3]];
    case AwaitReply =>
      assert told[4..8] == [told[4], told[5], told[6], told[7]];
    case _ =>
  }

  lemma ProceedFits(x: Setting, c: Caller, b: seq<Byte>)
    requires Proper(x.wish) && CallerFits(x, c) && !Over(c) && |b| == Want(c) && Hears(x, c, b)
    ensures var (c', out) := Proceed(x.wish, c, b);
            && CallerFits(x, c') && Heard(c') == Heard(c) + Want(c) && Said(x.wish, c') == Said(x.wish, c) + |out|
            && Said(x.wish, c') <= |Script(x.wish)|
            && Script(x.wish)[..Said(x.wish, c')] == Script(x.wish)[..Said(x.wish, c)] + out
  {
    Parts(x.wish);
    var s, l, r := Script(x.wish), LoginBytes(x.wish), RequestBytes(x.wish);
    match c
    case AwaitMethod =>
      assert s[..3] == HELLO && s[..3 + |l|] == HELLO + l;
    case Ready =>
      assert s[..3 + |l|] == HELLO + l && s[..3 + |l| + |r|] == HELLO + l + r;
    case _ =>
  }

  lemma CallerActsKeeps(x: Setting, s: Pair)
    requires Proper(x.wish) && Good(x, s) && CanStep(s, CallerActs)
    ensures Good(x, Next(x, s, CallerActs))
  {
    hide Proceed, Script, Told, Place, Expected, Hears;
    CallerHears(x, s);
    ProceedFits(x, s.caller, s.toCaller[s.callerFrom..s.callerRead]);
    assert s.toServer == Script(x.wish)[..Said(x.wish, s.caller)];
  }

  lemma StepKeeps(x: Setting, s: Pair, a: Action)
    requires Proper(x.wish) && Good(x, s) && CanStep(s, a)
    ensures Good(x, Next(x, s, a))
  {
    match a
    case CallerActs => CallerActsKeeps(x, s);
    case ServerActs => ServerActsKeeps(x, s);
    case ServerEnds => ServerEndsKeeps(x, s);
    case _ =>
  }

  // ---- progress ----

  predicate Finished(s: Pair) {
    Over(s.caller) && s.done
  }

  // Waiting for bytes that are not there.
  predicate CallerBlocked(s: Pair) {
    !Over(s.caller) && s.callerRead == |s.toCaller| && s.callerRead < s.callerFrom + Want(s.caller)
  }

  predicate ServerBlocked(s: Pair) {
    !Settled(s.server) && s.serverRead == |s.toServer| && s.serverRead < s.serverFrom + Need(s.server)
  }

  // The two sides are never both blocked on a read, and neither is blocked once the other has finished.
  lemma NeverBothBlocked(x: Setting, s: Pair)
    requires Proper(x.wish) && Good(x, s)
    ensures !(CallerBlocked(s) && ServerBlocked(s))
    ensures s.done ==> !CallerBlocked(s)
    ensures Over(s.caller) ==> !ServerBlocked(s)
  {
    hide Script, Expected;
    FitsFacts(x, s.server);
  }

  lemma FitsFacts(x: Setting, p: Server)
    requires ServerFits(x, p)
    ensures var w := x.wish;
            match p
            case Methods(n) => n == 1
            case User(n) => n == |w.username|
            case Pass(_, n) => n == |w.password|
            case Host(_, n) => n == |w.host|
            case Dialing(t) => t == Wanted(w)
            case Refusing(_) => false
            case _ => true
  {
  }

  // So as long as the handshake is not finished, some step can be taken.
  lemma SomeoneMoves(x: Setting, s: Pair) returns (a: Action)
    requires Proper(x.wish) && Good(x, s) && !Finished(s)
    ensures CanStep(s, a)
  {
    NeverBothBlocked(x, s);
    if !Over(s.caller) && !CallerBlocked(s) {
      a := if s.callerRead == s.callerFrom + Want(s.caller) then CallerActs else CallerReads(1);
    } else if Settled(s.server) {
      a := ServerEnds;
    } else {
      a := if s.serverRead == s.serverFrom + Need(s.server) then ServerActs else ServerReads(1);
    }
  }

  function Measure(w: Wish, s: Pair): int {
    (13 + |w.username| + |w.password| + |w.host| - s.serverRead) + (14 - s.callerRead)
    + Rank(s.server) + Left(s.caller) + (if s.done then 0 else 1)
  }

  lemma StepDecreases(x: Setting, s: Pair, a: Action)
    requires Proper(x.wish) && Good(x, s) && CanStep(s, a)
    ensures 0 <= Measure(x.wish, Next(x, s, a)) < Measure(x.wish, s)
  {
    StepKeeps(x, s, a);
    MeasureNatural(x, Next(x, s, a));
  }

  lemma MeasureNatural(x: Setting, s: Pair)
    requires Proper(x.wish) && Good(x, s)
    ensures Measure(x.wish, s) >= 0
  {
    Parts(x.wish);
    assert s.serverRead <= |Script(x.wish)|;
    assert |Told(x, s.server, s.done)| <= 14;
  }

  // ---- whole handshakes ----

  ghost predicate Reaches(x: Setting, s: Pair, actions: seq<Action>, t: Pair)
    requires Proper(x.wish)
    decreases |actions|
  {
    if actions == [] then s == t
    else CanStep(s, actions[0]) && Reaches(x, Next(x, s, actions[0]), actions[1..], t)
  }

  lemma OpeningGood(x: Setting)
    requires Proper(x.wish)
    ensures Good(x, Opening(x.wish))
  {
    Parts(x.wish);
  }

  lemma {:induction false} RunKeeps(x: Setting, s: Pair, actions: seq<Action>, t: Pair)
    requires Proper(x.wish) && Good(x, s) && Reaches(x, s, actions, t)
    ensures Good(x, t) && |actions| + Measure(x.wish, t) <= Measure(x.wish, s)
    decreases |actions|
  {
    if actions != [] {
      StepKeeps(x, s, actions[0]);
      StepDecreases(x, s, actions[0]);
      RunKeeps(x, Next(x, s, actions[0]), actions[1..], t);
    }
  }

  // Each side has read everything the other has written.
  predicate AllRead(t: Pair) {
    t.serverRead == |t.toServer| && t.callerRead == |t.toCaller|
  }

  // What a finished handshake has come to.
  ghost predicate Agreed(x: Setting, t: Pair) {
    if Given(x.wish) != x.cfg then t.caller == GaveUp(Rejected) && t.tunnel == None
    else if !x.reachable(Wanted(x.wish)) then t.caller == GaveUp(Refused(5)) && t.tunnel == None
    else t.caller == Connected && t.tunnel == Some(Wanted(x.wish)) && AllRead(t)
  }

  // For all credentials and hosts of up to 255 bytes, all 16-bit ports, any fragmentation and any interleaving:
  // the handshake takes a bounded number of steps and never gets stuck; when it is finished, the client is connected
  // exactly when both credentials match and the target can be reached, the server tunnels to exactly the client's
  // host and port, and both streams are fully read, so the first tunnelled byte is the next one on either side.
  // A tunnel is never opened without matching credentials, at any moment.
  lemma HandshakeWorks(x: Setting, actions: seq<Action>, t: Pair)
    requires Proper(x.wish) && Reaches(x, Opening(x.wish), actions, t)
    ensures |actions| <= Measure(x.wish, Opening(x.wish))
    ensures !Finished(t) ==> exists a :: CanStep(t, a)
    ensures Finished(t) ==> Agreed(x, t)
    ensures t.tunnel.Some? ==> Given(x.wish) == x.cfg && t.tunnel.value == Wanted(x.wish)
    ensures t.caller == Connected ==> t.tunnel == Some(Wanted(x.wish)) && AllRead(t)
  {
    OpeningGood(x);
    RunKeeps(x, Opening(x.wish), actions, t);
    MeasureNatural(x, t);
    if !Finished(t) {
      var a := SomeoneMoves(x, t);
    }
    EndFacts(x, t);
  }

  lemma EndFacts(x: Setting, t: Pair)
    requires Proper(x.wish) && Good(x, t)
    ensures Finished(t) ==> Agreed(x, t)
    ensures t.tunnel.Some? ==> Given(x.wish) == x.cfg && t.tunnel.value == Wanted(x.wish)
    ensures t.caller == Connected ==> t.tunnel == Some(Wanted(x.wish)) && AllRead(t)
  {
    hide Script;
    FitsFacts(x, t.server);
  }

  // The two methods, each given what the other side says in a successful handshake, say exactly that themselves.
  lemma ServerMethodAgrees(x: Setting)
    requires Proper(x.wish) && Given(x.wish) == x.cfg
    ensures Drive(x.cfg, Greeting, Script(x.wish), false) == Ending(Dialing(Wanted(x.wish)), [], [5, 2, 1, 0])
  {
    hide Drive, Handshake;
    var w := x.wish;
    assert Number(PortBytes(w.port)) == w.port;
    HandshakeAccepted(x.cfg, [2], Name(w.host), PortBytes(w.port), []);
  }

  lemma ClientMethodAgrees(w: Wish)
    requires Proper(w)
    ensures var r := Talk(w, AwaitMethod, [5, 2, 1, 0] + ReplyOf(0), false);
            r.caller == Connected && r.rest == [] && HELLO + r.sent == Script(w)
  {
    hide Talk, Script, LoginBytes, RequestBytes;
    var bound: seq<Byte> := [0, 0, 0, 0, 0, 0];
    assert [5, 2, 1, 0] + ReplyOf(0) == [5, 2] + ([1, 0] + ([5, 0, 0, 1] + bound));
    TalkLogin(w, [5, 0, 0, 1] + bound);
    TalkReply(w, bound);
    Parts(w);
    assert HELLO + (LoginBytes(w) + RequestBytes(w)) == HELLO + LoginBytes(w) + RequestBytes(w);
  }

  lemma TalkLogin(w: Wish, rest: seq<Byte>)
    requires Proper(w)
    ensures var r := Talk(w, Ready, rest, false);
            Talk(w, AwaitMethod, [5, 2] + ([1, 0] + rest), false) == r.(sent := LoginBytes(w) + r.sent)
  {
    hide Talk, LoginBytes;
    var i0: seq<Byte>, i1: seq<Byte> := [5, 2] + ([1, 0] + rest), [1, 0] + rest;
    assert i0[..2] == [5, 2] && i0[2..] == i1;
    assert i1[..2] == [1, 0] && i1[2..] == rest;
    TalkStep(w, AwaitMethod, i0, false);
    TalkStep(w, AwaitLogin, i1, false);
  }

  lemma TalkReply(w: Wish, bound: seq<Byte>)
    requires Proper(w) && |bound| == 6
    ensures Talk(w, Ready, [5, 0, 0, 1] + bound, false) == Spoken(Connected, [], RequestBytes(w))
  {
    hide Talk, RequestBytes;
    var reply: seq<Byte> := [5, 0, 0, 1] + bound;
    assert reply[..0] == [] && reply[0..] == reply;
    assert reply[..4] == [5, 0, 0, 1] && reply[4..] == bound;
    TalkStep(w, Ready, reply, false);
    TalkStep(w, AwaitReply, reply, false);
    TalkStep(w, AwaitBound(6), bound, false);
    assert RequestBytes(w) + [] == RequestBytes(w);
  }
}
