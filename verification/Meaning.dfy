// What the rendered configuration means to 3proxy, and what internal/engine/server.go opens for the same proxies.
module Meaning {
  import opened Model
  import opened Text
  import opened Netip
  import opened Order
  import opened Config
  import opened ConfigLaws
  import opened ListLaws

  datatype Login = Login(username: string, password: string)

  // An open port: where it listens, the address it goes out from, and who may use it (None: anyone).
  datatype Listener = Listener(host: string, port: int, ipv6: string, logins: Option<set<Login>>)

  // ---- 3proxy's reading of a configuration ----

  datatype Service = Service(at: Imported, strong: bool, allowed: set<string>)

  // The authentication mode, the user table, the access list being collected, and the services started so far.
  datatype Machine = Machine(strong: bool, users: map<string, string>, allowed: set<string>, services: seq<Service>)

  const IDLE := Machine(false, map[], {}, [])

  // users NAME:CL:PASSWORD
  function AddUser(users: map<string, string>, field: string): map<string, string> {
    var parts := Split(field, ':');
    if |parts| == 3 && parts[1] == "CL" then users[parts[0] := parts[2]] else users
  }

  function Obey(m: Machine, line: string): Machine {
    var fields := Fields(TrimSpace(line));
    if fields == [] then m
    else if fields[0] == "flush" then m.(allowed := {})
    else if |fields| < 2 then m
    else if fields[0] == "auth" then m.(strong := fields[1] == "strong")
    else if fields[0] == "users" then m.(users := AddUser(m.users, fields[1]))
    else if fields[0] == "allow" then m.(allowed := m.allowed + {fields[1]})
    else if fields[0] == "socks" then
      m.(services := m.services + [Service(ReadFlags(fields[1..], Imported("", 0, "")), m.strong, m.allowed)])
    else m
  }

  function ObeyAll(m: Machine, lines: seq<string>): Machine
    decreases |lines|
  {
    if lines == [] then m else ObeyAll(Obey(m, lines[0]), lines[1..])
  }

  function LoginsOf(users: map<string, string>, allowed: set<string>): set<Login> {
    set n | n in allowed && n in users :: Login(n, users[n])
  }

  function Opened(users: map<string, string>, s: Service): Listener {
    Listener(s.at.host, s.at.port, s.at.ipv6, if s.strong then Some(LoginsOf(users, s.allowed)) else None)
  }

  function OpenAll(users: map<string, string>, services: seq<Service>): seq<Listener> {
    if services == [] then [] else [Opened(users, services[0])] + OpenAll(users, services[1..])
  }

  // The listeners 3proxy serves for a configuration text.
  function Serves(config: string): seq<Listener> {
    var m := ObeyAll(IDLE, ScanLines(config).lines);
    OpenAll(m.users, m.services)
  }

  // ---- the engine's own table ----

  function ListenerOf(p: Proxy): Listener {
    Listener(p.host, p.port, p.ipv6, Some({Login(p.username, p.password)}))
  }

  function ListenersOf(ps: seq<Proxy>): (r: seq<Listener>)
    ensures |r| == |ps| && forall i :: 0 <= i < |ps| ==> r[i] == ListenerOf(ps[i])
  {
    if ps == [] then [] else [ListenerOf(ps[0])] + ListenersOf(ps[1..])
  }

  const KEPT_ALIVE := Listener("127.0.0.1", 65535, "", None)

  function EngineTable(ps: seq<Proxy>): seq<Listener> {
    if Enabled(ps) == [] then [KEPT_ALIVE] else ListenersOf(Enabled(ps))
  }

  // Every listener of a table could be opened, or this is the port of the first that could not.
  ghost predicate OpensOrFails(table: seq<Listener>, listens: (string, int) -> bool, r: Result<seq<Listener>, int>) {
    match r
    case Ok(running) => running == table && forall l :: l in table ==> listens(l.host, l.port)
    case Err(port) => exists k :: FirstToFail(table, listens, k) && table[k].port == port
  }

  ghost predicate FirstToFail(table: seq<Listener>, listens: (string, int) -> bool, k: int) {
    0 <= k < |table| && !listens(table[k].host, table[k].port) && forall j :: 0 <= j < k ==> listens(table[j].host, table[j].port)
  }

  method Active(ps: seq<Proxy>) returns (active: seq<Proxy>)
    ensures active == Enabled(ps)
  {
    active := [];
    for i := 0 to |ps|
      invariant active == Enabled(ps[..i])
    {
      EnabledStep(ps, i);
      if ps[i].enabled {
        active := active + [ps[i]];
      }
    }
    assert ps[..|ps|] == ps;
  }

  method Listen(active: seq<Proxy>, listens: (string, int) -> bool) returns (r: Result<seq<Listener>, int>)
    ensures OpensOrFails(ListenersOf(active), listens, r)
  {
    var listeners: seq<Listener> := [];
    ghost var table := ListenersOf(active);
    for i := 0 to |active|
      invariant listeners == table[..i]
      invariant forall k :: 0 <= k < i ==> listens(table[k].host, table[k].port)
    {
      assert table[i] == ListenerOf(active[i]) && table[i] in table;
      if !listens(active[i].host, active[i].port) {
        assert FirstToFail(table, listens, i);
        return Err(active[i].port);
      }
      listeners := listeners + [ListenerOf(active[i])];
    }
    return Ok(listeners);
  }

  // Run up to the point where it waits.
  method Run(ps: seq<Proxy>, listens: (string, int) -> bool) returns (r: Result<seq<Listener>, int>)
    ensures OpensOrFails(EngineTable(ps), listens, r)
  {
    var active := Active(ps);
    if |active| > 0 {
      r := Listen(active, listens);
    } else if listens("127.0.0.1", 65535) {
      r := Ok([KEPT_ALIVE]);
    } else {
      assert FirstToFail(EngineTable(ps), listens, 0);
      r := Err(65535);
    }
  }

  // ---- both agree ----

  lemma ObeyStep(m: Machine, line: string, rest: seq<string>)
    ensures ObeyAll(m, [line] + rest) == ObeyAll(Obey(m, line), rest)
  {
    assert ([line] + rest)[1..] == rest;
  }

  lemma {:induction false} ObeyAppend(m: Machine, a: seq<string>, b: seq<string>)
    ensures ObeyAll(m, a + b) == ObeyAll(ObeyAll(m, a), b)
    decreases |a|
  {
    if a == [] {
      assert a + b == b;
    } else {
      assert (a + b)[1..] == a[1..] + b;
      ObeyAppend(Obey(m, a[0]), a[1..], b);
    }
  }

  // Comments, limits and name servers start with other letters than the commands above.
  ghost predicate Remark(line: string) {
    line != [] && !IsSpace(line[0]) && line[0] !in {'a', 'u', 's', 'f'}
  }

  lemma ObeyRemark(m: Machine, line: string)
    requires Remark(line)
    ensures Obey(m, line) == m
  {
    FirstField(line);
  }

  lemma CommandWords()
    ensures Word("auth") && Word("none") && Word("strong") && Word("users") && Word("allow") && Word("flush")
  {
  }

  lemma ObeyWord(m: Machine, value: string)
    requires Word(value)
    ensures Obey(m, "allow" + " " + value) == m.(allowed := m.allowed + {value})
    ensures Obey(m, "users" + " " + value) == m.(users := AddUser(m.users, value))
    ensures Obey(m, "auth" + " " + value) == m.(strong := value == "strong")
  {
    CommandWords();
    PairFields("allow", value);
    PairFields("users", value);
    PairFields("auth", value);
  }

  lemma ObeyFlush(m: Machine)
    ensures Obey(m, FLUSH) == m.(allowed := {})
  {
    CommandWords();
    FieldsOf([FLUSH], FLUSH);
  }

  lemma ObeySocks(net: Codec, m: Machine, p: Proxy)
    requires net.Lawful() && Printable(net, p)
    ensures Obey(m, SocksLine(p)) == m.(services := m.services + [Service(ServiceOf(p), m.strong, m.allowed)])
  {
    SocksFields(net, p);
    SocksFlags(p);
  }

  // ---- the sections of the configuration ----

  lemma ObeyOne(net: Codec, m: Machine, p: Proxy, rest: seq<string>)
    requires net.Lawful() && Printable(net, p) && m.strong && m.allowed == {}
    ensures ObeyAll(m, ["allow " + p.username, SocksLine(p), FLUSH] + rest)
         == ObeyAll(m.(services := m.services + [Service(ServiceOf(p), true, {p.username})]), rest)
  {
    hide Obey, ObeyAll, SocksLine;
    var allow, socks, flush := "allow " + p.username, SocksLine(p), FLUSH;
    assert [allow, socks, flush] + rest == [allow] + ([socks] + ([flush] + rest));
    assert allow == "allow" + " " + p.username;
    CredentialIsWord(p.username);
    ObeyStep(m, allow, [socks] + ([flush] + rest));
    ObeyWord(m, p.username);
    assert m.allowed + {p.username} == {p.username};
    var m1 := m.(allowed := {p.username});
    ObeyStep(m1, socks, [flush] + rest);
    ObeySocks(net, m1, p);
    var m2 := m1.(services := m.services + [Service(ServiceOf(p), true, {p.username})]);
    ObeyStep(m2, flush, rest);
    ObeyFlush(m2);
    assert m2.(allowed := {}) == m.(services := m2.services);
  }

  function Started(ps: seq<Proxy>): seq<Service> {
    if ps == [] then [] else [Service(ServiceOf(ps[0]), true, {ps[0].username})] + Started(ps[1..])
  }

  lemma {:induction false} ObeyServices(net: Codec, m: Machine, ps: seq<Proxy>)
    requires net.Lawful() && m.strong && m.allowed == {} && forall p :: p in ps ==> Printable(net, p)
    ensures ObeyAll(m, ServiceLines(ps)) == m.(services := m.services + Started(ps))
    decreases |ps|
  {
    hide Obey, SocksLine, Printable;
    if ps != [] {
      var one := Service(ServiceOf(ps[0]), true, {ps[0].username});
      ObeyOne(net, m, ps[0], ServiceLines(ps[1..]));
      ObeyServices(net, m.(services := m.services + [one]), ps[1..]);
      assert m.services + [one] + Started(ps[1..]) == m.services + ([one] + Started(ps[1..]));
    }
  }

  lemma UserField(name: string, password: string)
    ensures name + ":CL:" + password == name + ":" + ("CL" + ":" + password)
  {
    assert ":CL:" == ":" + "CL" + ":";
  }

  lemma CutUser(users: map<string, string>, name: string, password: string)
    requires ':' !in name && ':' !in password
    ensures AddUser(users, name + ":CL:" + password) == users[name := password]
  {
    hide Split;
    UserField(name, password);
    CutCell(password, "");
    CutCell("CL", password);
    CutCell(name, "CL" + ":" + password);
    assert [name] + (["CL"] + [password]) == [name, "CL", password];
  }

  lemma UserWord(name: string, password: string)
    requires ValidCredential(name) && ValidCredential(password)
    ensures Word(name + ":CL:" + password)
  {
    CredentialIsWord(name);
    CredentialIsWord(password);
    assert Word(":CL:");
    FlagWord(name, ":CL:");
    FlagWord(name + ":CL:", password);
  }

  // The user table after some names have been read.
  function Known(names: seq<string>, users: map<string, string>, before: map<string, string>): map<string, string>
    requires forall n :: n in names ==> n in users
    decreases |names|
  {
    if names == [] then before else Known(names[1..], users, before[names[0] := users[names[0]]])
  }

  lemma {:induction false} ObeyUsers(m: Machine, names: seq<string>, users: map<string, string>)
    requires forall n :: n in names ==> n in users && ValidCredential(n) && ValidCredential(users[n])
    ensures ObeyAll(m, UserLines(names, users)) == m.(users := Known(names, users, m.users))
    decreases |names|
  {
    if names != [] {
      var name, password := names[0], users[names[0]];
      assert name in names;
      var field := name + ":CL:" + password;
      UserWord(name, password);
      CredentialIsWord(name);
      CredentialIsWord(password);
      assert UserLine(name, password) == "users" + " " + field;
      ObeyStep(m, UserLine(name, password), UserLines(names[1..], users));
      ObeyWord(m, field);
      CutUser(m.users, name, password);
      ObeyUsers(m.(users := m.users[name := password]), names[1..], users);
    }
  }

  lemma {:induction false} KnownExact(names: seq<string>, users: map<string, string>, before: map<string, string>)
    requires forall n :: n in names ==> n in users
    ensures var known := Known(names, users, before);
            && (forall n :: n in names ==> n in known && known[n] == users[n])
            && (forall n :: n in before && n !in names ==> n in known && known[n] == before[n])
            && (forall n :: n in known ==> n in names || n in before)
    decreases |names|
  {
    if names != [] {
      assert names == [names[0]] + names[1..];
      KnownExact(names[1..], users, before[names[0] := users[names[0]]]);
    }
  }

  lemma RemarksOfHeader()
    ensures forall l :: l in HEADER ==> Remark(l)
  {
  }

  lemma {:induction false} ObeyRemarks(m: Machine, lines: seq<string>)
    requires forall l :: l in lines ==> Remark(l)
    ensures ObeyAll(m, lines) == m
    decreases |lines|
  {
    if lines != [] {
      ObeyRemark(m, lines[0]);
      ObeyRemarks(m, lines[1..]);
    }
  }

  lemma ReservedPort()
    ensures Atoi("65535") == (65535, true)
  {
    assert Digits(6) == "6";
    assert Digits(65) == Digits(6) + "5";
    assert Digits(655) == Digits(65) + "5";
    assert Digits(6553) == Digits(655) + "3";
    assert Digits(65535) == Digits(6553) + "5";
    assert "6" + "5" + "5" + "3" + "5" == "65535";
    AtoiItoa(65535);
  }

  lemma ReadBind(s: Imported, value: string)
    ensures ReadFlag(s, "-p" + value) == s.(port := Atoi(value).0)
    ensures ReadFlag(s, "-i" + value) == s.(host := value)
  {
    var a, b := "-p" + value, "-i" + value;
    assert a[..2] == "-p" && a[2..] == value;
    assert b[..2] == "-i" && b[2..] == value;
  }

  lemma ReadLoopback()
    ensures ReadFlags(["-p65535", "-i127.0.0.1"], Imported("", 0, "")) == Imported("127.0.0.1", 65535, "")
  {
    hide ReadFlag, Atoi;
    var a, b := "-p65535", "-i127.0.0.1";
    ReservedPort();
    assert a == "-p" + "65535" && b == "-i" + "127.0.0.1";
    assert [a, b] == [a] + ([b] + []);
    ReadFlagsStep(a, [b] + [], Imported("", 0, ""));
    ReadBind(Imported("", 0, ""), "65535");
    ReadFlagsStep(b, [], Imported("", 65535, ""));
    ReadBind(Imported("", 65535, ""), "127.0.0.1");
  }

  const LOOPBACK_SERVICE := Service(Imported("127.0.0.1", 65535, ""), false, {})

  lemma ObeyLoopback(m: Machine)
    requires !m.strong && m.allowed == {}
    ensures Obey(m, LOOPBACK) == m.(services := m.services + [LOOPBACK_SERVICE])
  {
    KeepaliveFields();
    ReadLoopback();
    assert ["socks", "-p65535", "-i127.0.0.1"][1..] == ["-p65535", "-i127.0.0.1"];
  }

  lemma ObeyKeepalive()
    ensures ObeyAll(IDLE, KEEPALIVE) == IDLE.(services := [LOOPBACK_SERVICE])
  {
    hide Obey, ObeyAll;
    assert KEEPALIVE == [NOAUTH] + ([LOOPBACK] + ([FLUSH] + []));
    CommandWords();
    ObeyStep(IDLE, NOAUTH, [LOOPBACK] + ([FLUSH] + []));
    ObeyWord(IDLE, "none");
    ObeyStep(IDLE, LOOPBACK, [FLUSH] + []);
    ObeyLoopback(IDLE);
    assert IDLE.services + [LOOPBACK_SERVICE] == [LOOPBACK_SERVICE];
    var m := IDLE.(services := [LOOPBACK_SERVICE]);
    ObeyStep(m, FLUSH, []);
    ObeyFlush(m);
    ObeyNothing(m);
  }

  lemma ObeyNothing(m: Machine)
    ensures ObeyAll(m, []) == m
  {
  }

  // What the machine has after the fixed lines.
  function AfterTop(keepalive: bool): Machine {
    Machine(true, map[], {}, if keepalive then [LOOPBACK_SERVICE] else [])
  }

  lemma ObeyTop(keepalive: bool)
    ensures ObeyAll(IDLE, HEADER + (if keepalive then KEEPALIVE else []) + [STRONG]) == AfterTop(keepalive)
  {
    hide Obey, ObeyAll;
    var k := if keepalive then KEEPALIVE else [];
    RemarksOfHeader();
    ObeyRemarks(IDLE, HEADER);
    ObeyAppend(IDLE, HEADER, k);
    ObeyNothing(IDLE);
    ObeyKeepalive();
    var m := ObeyAll(IDLE, k);
    ObeyAppend(IDLE, HEADER + k, [STRONG]);
    assert [STRONG] == [STRONG] + [];
    ObeyStep(m, STRONG, []);
    CommandWords();
    ObeyWord(m, "strong");
    ObeyNothing(m.(strong := true));
  }

  lemma KnownAll(net: Codec, en: seq<Proxy>, users: map<string, string>)
    requires Gathered(net, en, users)
    ensures Known(SortedNames(en), users, map[]) == users
  {
    NamesValid(net, en, users);
    KnownExact(SortedNames(en), users, map[]);
  }

  lemma ConfigMachine(keepalive: bool)
    ensures var m := AfterTop(keepalive); m.strong && m.allowed == {} && m.users == map[]
  {
  }

  lemma GatheredPrintable(net: Codec, en: seq<Proxy>, users: map<string, string>)
    requires Gathered(net, en, users) && forall p :: p in en ==> net.ZoneFreeV6(p.ipv6)
    ensures forall p :: p in en ==> Printable(net, p)
  {
  }

  lemma ObeyConfig(net: Codec, en: seq<Proxy>, users: map<string, string>, keepalive: bool)
    requires net.Lawful() && Gathered(net, en, users) && forall p :: p in en ==> net.ZoneFreeV6(p.ipv6)
    ensures ObeyAll(IDLE, ConfigLines(en, users, keepalive))
         == Machine(true, users, {}, AfterTop(keepalive).services + Started(SortByPort(en)))
  {
    hide Obey, ObeyAll, UserLine, UserLines, ServiceLines, Servable, ValidCredential, SortedNames, SortByPort,
         AfterTop, Started, Known, Printable, FlawOf;
    var top := HEADER + (if keepalive then KEEPALIVE else []) + [STRONG];
    var names, m := SortedNames(en), AfterTop(keepalive);
    NamesValid(net, en, users);
    ObeyTop(keepalive);
    ObeyAppend(IDLE, top, UserLines(names, users));
    ObeyUsers(m, names, users);
    KnownAll(net, en, users);
    ObeyAppend(IDLE, top + UserLines(names, users), ServiceLines(SortByPort(en)));
    ConfigMachine(keepalive);
    assert forall p :: p in en ==> Printable(net, p) by { GatheredPrintable(net, en, users); }
    ObeyServices(net, m.(users := users), SortByPort(en));
  }

  // ---- from services to listeners ----

  lemma {:induction false} OpenAllAppend(users: map<string, string>, a: seq<Service>, b: seq<Service>)
    ensures OpenAll(users, a + b) == OpenAll(users, a) + OpenAll(users, b)
  {
    if a == [] {
      assert a + b == b;
    } else {
      assert (a + b)[1..] == a[1..] + b;
      OpenAllAppend(users, a[1..], b);
    }
  }

  lemma {:induction false} OpensEach(users: map<string, string>, ps: seq<Proxy>)
    requires forall p :: p in ps ==> p.username in users && users[p.username] == p.password
    ensures OpenAll(users, Started(ps)) == ListenersOf(ps)
  {
    if ps != [] {
      var p := ps[0];
      assert p in ps;
      OpensEach(users, ps[1..]);
      var first := Service(ServiceOf(p), true, {p.username});
      assert Started(ps)[0] == first && Started(ps)[1..] == Started(ps[1..]);
      assert LoginsOf(users, {p.username}) == {Login(p.username, p.password)};
      assert Opened(users, first) == ListenerOf(p);
    }
  }

  lemma OpensSorted(net: Codec, en: seq<Proxy>, users: map<string, string>, first: seq<Service>)
    requires Gathered(net, en, users)
    ensures OpenAll(users, first + Started(SortByPort(en))) == OpenAll(users, first) + ListenersOf(SortByPort(en))
  {
    OpenAllAppend(users, first, Started(SortByPort(en)));
    OpensEach(users, SortByPort(en));
  }

  lemma OpensTop(users: map<string, string>, keepalive: bool)
    ensures OpenAll(users, AfterTop(keepalive).services) == if keepalive then [KEPT_ALIVE] else []
  {
    if keepalive {
      assert OpenAll(users, [LOOPBACK_SERVICE]) == [Opened(users, LOOPBACK_SERVICE)] + OpenAll(users, []);
    }
  }

  // 3proxy, reading the rendered configuration, opens exactly the listeners that the built-in engine opens for the
  // same proxies, in port order: same address and port, same outbound address, and one login each. The only other
  // listener is the loopback one that keeps the process alive.
  lemma ConfigMeansEngine(net: Codec, ps: seq<Proxy>, keepalive: bool)
    requires net.Lawful() && PrintableSet(net, ps)
    ensures Render(net, ps, keepalive).Ok?
    ensures Serves(Render(net, ps, keepalive).value)
         == (if keepalive then [KEPT_ALIVE] else []) + ListenersOf(SortByPort(Enabled(ps)))
  {
    hide Obey, ObeyAll, OpenAll, ConfigLines, Gathered, Unlines, ScanLines, AfterTop, Started, ListenersOf, UserTable,
         Collect, Render, SortByPort;
    RenderedText(net, ps, keepalive);
    var en, users := Enabled(ps), UserTable(net, ps);
    AllPlain(net, en, users, keepalive);
    ObeyConfig(net, en, users, keepalive);
    OpensSorted(net, en, users, AfterTop(keepalive).services);
    OpensTop(users, keepalive);
  }

  // As sets of listeners the two tables agree, whatever order the proxies are stored in: the configuration that is written
  // to disk always has the loopback listener, and the engine has it exactly when no proxy is enabled.
  lemma SameListeners(net: Codec, ps: seq<Proxy>, l: Listener)
    requires net.Lawful() && PrintableSet(net, ps)
    ensures RenderConfig(net, ps).Ok?
    ensures var loopback := Listener("127.0.0.1", 65535, "", None);
            && (l in Serves(RenderConfig(net, ps).value) <==> l == loopback || l in EngineTable(ps))
            && (Enabled(ps) == [] ==> Serves(RenderConfig(net, ps).value) == EngineTable(ps) == [loopback])
  {
    ConfigMeansEngine(net, ps, true);
    TablesAgree(Enabled(ps), SortByPort(Enabled(ps)), l);
    assert Enabled(ps) == [] ==> SortByPort(Enabled(ps)) == [];
  }

  lemma TablesAgree(ps: seq<Proxy>, qs: seq<Proxy>, l: Listener)
    requires forall p :: p in ps <==> p in qs
    ensures l in ListenersOf(ps) <==> l in ListenersOf(qs)
  {
    InTable(ps, l);
    InTable(qs, l);
  }

  lemma InTable(ps: seq<Proxy>, l: Listener)
    ensures l in ListenersOf(ps) <==> exists p :: p in ps && ListenerOf(p) == l
  {
    var table := ListenersOf(ps);
    if l in table {
      var i :| 0 <= i < |table| && table[i] == l;
      assert ps[i] in ps && ListenerOf(ps[i]) == l;
    }
    if p :| p in ps && ListenerOf(p) == l {
      var i :| 0 <= i < |ps| && ps[i] == p;
      assert table[i] == l;
    }
  }
}
