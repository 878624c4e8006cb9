// The printers and parsers of internal/proxy/config.go.
module Config {
  import opened Model
  import opened Text
  import opened Netip
  import opened Order

  // ---- credentials ----

  predicate CredentialChar(c: char) {
    'A' <= c <= 'Z' || 'a' <= c <= 'z' || '0' <= c <= '9' || c in {'.', '_', '@', '-'}
  }

  predicate ValidCredential(v: string) {
    4 <= |v| <= 64 && forall c :: c in v ==> CredentialChar(c)
  }

  lemma CredentialIsWord(v: string)
    requires ValidCredential(v)
    ensures Word(v) && ':' !in v && '\n' !in v && '\r' !in v
  {
  }

  // ---- what is rendered ----

  datatype Flaw = BadUsername | BadPassword | BadPort | DuplicatePort | BadHost | BadIPv6 | PasswordConflict

  datatype Reject = Reject(port: int, flaw: Flaw)

  function FlawOf(net: Codec, p: Proxy, ports: set<int>, users: map<string, string>): Option<Flaw> {
    if !ValidCredential(p.username) then Some(BadUsername)
    else if !ValidCredential(p.password) then Some(BadPassword)
    else if p.port < 1024 || p.port > 65535 then Some(BadPort)
    else if p.port in ports then Some(DuplicatePort)
    else if !net.IsV4(p.host) then Some(BadHost)
    else if !net.IsV6(p.ipv6) then Some(BadIPv6)
    else if p.username in users && users[p.username] != p.password then Some(PasswordConflict)
    else None
  }

  // The first loop of renderConfig, from proxy i on.
  function Collect(net: Codec, ps: seq<Proxy>, i: nat, ports: set<int>, users: map<string, string>,
      enabled: seq<Proxy>):
    Result<(map<string, string>, seq<Proxy>), Reject>
    requires i <= |ps|
    decreases |ps| - i
  {
    if i == |ps| then Ok((users, enabled))
    else if !ps[i].enabled then Collect(net, ps, i + 1, ports, users, enabled)
    else
      var p := ps[i];
      match FlawOf(net, p, ports, users)
      case Some(flaw) => Err(Reject(p.port, flaw))
      case None => Collect(net, ps, i + 1, ports + {p.port}, users[p.username := p.password], enabled + [p])
  }

  function SortedNames(ps: seq<Proxy>): (ns: seq<string>)
    ensures forall n :: n in ns <==> exists p :: p in ps && p.username == n
  {
    if ps == [] then [] else
      assert ps == [ps[0]] + ps[1..];
      InsertName(ps[0].username, SortedNames(ps[1..]))
  }

  // In parts, because the verifier does not look into a literal this long.
  const TITLE := "# Generated by IPv6 " + "Proxy Manager. Manual " + "changes are overwritten."
  const MAXCONN := "maxconn 16"
  const NSERVER1 := "nserver 1.1.1.1"
  const NSERVER2 := "nserver 8.8.8.8"
  const NSCACHE := "nscache 65536"
  const HEADER: seq<string> := [TITLE, MAXCONN, NSERVER1, NSERVER2, NSCACHE]

  const STRONG := "auth" + " " + "strong"
  const NOAUTH := "auth" + " " + "none"
  const LOOPBACK := "socks" + " " + "-p65535" + " " + "-i127.0.0.1"
  const FLUSH := "flush"
  const KEEPALIVE: seq<string> := [NOAUTH, LOOPBACK, FLUSH]

  function UserLine(name: string, password: string): string {
    "users " + name + ":CL:" + password
  }

  const SOCKS_FLAGS := "socks" + " " + "-S-32768" + " " + "-6" + " " + "-n" + " " + "-a" + " "

  function SocksLine(p: Proxy): string {
    SOCKS_FLAGS + "-p" + Itoa(p.port) + " " + "-i" + p.host + " " + "-e" + p.ipv6
  }

  function UserLines(names: seq<string>, users: map<string, string>): (r: seq<string>)
    requires forall n :: n in names ==> n in users
    ensures |r| == |names|
  {
    if names == [] then [] else [UserLine(names[0], users[names[0]])] + UserLines(names[1..], users)
  }

  function ServiceLines(ps: seq<Proxy>): seq<string> {
    if ps == [] then [] else ["allow " + ps[0].username, SocksLine(ps[0]), FLUSH] + ServiceLines(ps[1..])
  }

  function ConfigLines(enabled: seq<Proxy>, users: map<string, string>, keepalive: bool): seq<string>
    requires forall p :: p in enabled ==> p.username in users
  {
    HEADER + (if keepalive then KEEPALIVE else []) + [STRONG]
    + UserLines(SortedNames(enabled), users) + ServiceLines(SortByPort(enabled))
  }

  predicate Servable(net: Codec, p: Proxy) {
    && ValidCredential(p.username) && ValidCredential(p.password)
    && 1024 <= p.port <= 65535 && net.IsV4(p.host) && net.IsV6(p.ipv6)
  }

  function PortsOf(ps: seq<Proxy>): set<int> {
    set p | p in ps :: p.port
  }

  ghost predicate UsersOf(ps: seq<Proxy>, users: map<string, string>) {
    && (forall p :: p in ps ==> p.username in users && users[p.username] == p.password)
    && (forall n :: n in users ==> exists p :: p in ps && p.username == n)
  }

  // What the loop has established about the proxies it has taken.
  ghost predicate Gathered(net: Codec, enabled: seq<Proxy>, users: map<string, string>) {
    && UniquePorts(enabled)
    && (forall p :: p in enabled ==> Servable(net, p))
    && UsersOf(enabled, users)
  }

  lemma UsersOfStep(ps: seq<Proxy>, users: map<string, string>, p: Proxy)
    requires UsersOf(ps, users) && (p.username in users ==> users[p.username] == p.password)
    ensures UsersOf(ps + [p], users[p.username := p.password])
  {
    var us := users[p.username := p.password];
    forall n | n in us
      ensures exists q :: q in ps + [p] && q.username == n
    {
      if n == p.username {
        assert p in ps + [p];
      } else {
        var q :| q in ps && q.username == n;
        assert q in ps + [p];
      }
    }
  }

  lemma UniquePortsStep(ps: seq<Proxy>, p: Proxy)
    requires UniquePorts(ps) && p.port !in PortsOf(ps)
    ensures UniquePorts(ps + [p]) && PortsOf(ps + [p]) == PortsOf(ps) + {p.port}
  {
    forall i | 0 <= i < |ps|
      ensures ps[i].port != p.port
    {
      assert ps[i] in ps;
    }
    assert p in ps + [p];
    assert forall q :: q in ps ==> q in ps + [p];
  }

  lemma {:induction false} CollectGives(net: Codec, ps: seq<Proxy>, i: nat, users: map<string, string>,
      enabled: seq<Proxy>)
    requires i <= |ps| && Collect(net, ps, i, PortsOf(enabled), users, enabled).Ok?
    requires Gathered(net, enabled, users)
    ensures var (us, en) := Collect(net, ps, i, PortsOf(enabled), users, enabled).value;
            en == enabled + Enabled(ps[i..]) && Gathered(net, en, us)
    decreases |ps| - i
  {
    if i < |ps| {
      assert ps[i..] == [ps[i]] + ps[i + 1..];
      if ps[i].enabled {
        GatheredStep(net, enabled, users, ps[i]);
        CollectGives(net, ps, i + 1, users[ps[i].username := ps[i].password], enabled + [ps[i]]);
      } else {
        CollectGives(net, ps, i + 1, users, enabled);
      }
    }
  }

  lemma GatheredStep(net: Codec, enabled: seq<Proxy>, users: map<string, string>, p: Proxy)
    requires Gathered(net, enabled, users) && FlawOf(net, p, PortsOf(enabled), users).None?
    ensures Gathered(net, enabled + [p], users[p.username := p.password])
    ensures PortsOf(enabled + [p]) == PortsOf(enabled) + {p.port}
  {
    UsersOfStep(enabled, users, p);
    UniquePortsStep(enabled, p);
  }

  lemma CollectAll(net: Codec, ps: seq<Proxy>)
    requires Collect(net, ps, 0, {}, map[], []).Ok?
    ensures var (us, en) := Collect(net, ps, 0, {}, map[], []).value; en == Enabled(ps) && Gathered(net, en, us)
  {
    assert PortsOf([]) == {};
    assert ps[0..] == ps;
    CollectGives(net, ps, 0, map[], []);
  }

  function ConfigText(enabled: seq<Proxy>, users: map<string, string>, keepalive: bool): string
    requires UsersOf(enabled, users)
  {
    Unlines(ConfigLines(enabled, users, keepalive))
  }

  function Render(net: Codec, ps: seq<Proxy>, keepalive: bool): Result<string, Reject> {
    match Collect(net, ps, 0, {}, map[], [])
    case Err(e) => Err(e)
    case Ok((users, enabled)) =>
      CollectAll(net, ps);
      Ok(ConfigText(enabled, users, keepalive))
  }

  function RenderConfig(net: Codec, ps: seq<Proxy>): Result<string, Reject> {
    Render(net, ps, true)
  }

  // ---- what is accepted, said without the loop ----

  ghost predicate Agreeable(net: Codec, en: seq<Proxy>) {
    && (forall p :: p in en ==> Servable(net, p))
    && UniquePorts(en)
    && (forall p, q :: p in en && q in en && p.username == q.username ==> p.password == q.password)
  }

  ghost predicate Renderable(net: Codec, ps: seq<Proxy>) {
    Agreeable(net, Enabled(ps))
  }

  lemma EnabledStep(ps: seq<Proxy>, i: nat)
    requires i < |ps|
    ensures Enabled(ps[..i + 1]) == if ps[i].enabled then Enabled(ps[..i]) + [ps[i]] else Enabled(ps[..i])
  {
    var before, last := ps[..i], [ps[i]];
    assert ps[..i + 1] == before + last;
    EnabledAppend(before, last);
    EnabledOne(ps[i]);
  }

  lemma EnabledOne(p: Proxy)
    ensures Enabled([p]) == if p.enabled then [p] else []
  {
    assert [p][1..] == [];
  }

  lemma EnabledPrefix(ps: seq<Proxy>, i: nat)
    requires i <= |ps|
    ensures Enabled(ps[..i]) <= Enabled(ps)
  {
    assert ps == ps[..i] + ps[i..];
    EnabledAppend(ps[..i], ps[i..]);
  }

  lemma NoFlaw(net: Codec, ps: seq<Proxy>, i: nat, users: map<string, string>)
    requires i < |ps| && ps[i].enabled && Renderable(net, ps) && UsersOf(Enabled(ps[..i]), users)
    ensures FlawOf(net, ps[i], PortsOf(Enabled(ps[..i])), users).None?
  {
    EnabledStep(ps, i);
    EnabledPrefix(ps, i + 1);
    NextHasNoFlaw(net, Enabled(ps), Enabled(ps[..i]), users, ps[i]);
  }

  lemma NextHasNoFlaw(net: Codec, all: seq<Proxy>, taken: seq<Proxy>, users: map<string, string>, p: Proxy)
    requires taken + [p] <= all && Agreeable(net, all) && UsersOf(taken, users)
    ensures FlawOf(net, p, PortsOf(taken), users).None?
  {
    assert all[|taken|] == p && p in all && Servable(net, p);
    forall q | q in taken
      ensures q in all && q.port != p.port
    {
      var j :| 0 <= j < |taken| && taken[j] == q;
      assert all[j] == q;
    }
    assert p.port !in PortsOf(taken);
    if p.username in users {
      var q :| q in taken && q.username == p.username;
      assert q in all;
    }
  }

  lemma {:induction false} CollectAccepts(net: Codec, ps: seq<Proxy>, i: nat, users: map<string, string>)
    requires i <= |ps| && Renderable(net, ps) && Gathered(net, Enabled(ps[..i]), users)
    ensures Collect(net, ps, i, PortsOf(Enabled(ps[..i])), users, Enabled(ps[..i])).Ok?
    decreases |ps| - i
  {
    if i < |ps| {
      var p := ps[i];
      EnabledStep(ps, i);
      if p.enabled {
        NoFlaw(net, ps, i, users);
        GatheredStep(net, Enabled(ps[..i]), users, p);
        CollectAccepts(net, ps, i + 1, users[p.username := p.password]);
      } else {
        CollectAccepts(net, ps, i + 1, users);
      }
    }
  }

  // A proxy set is rendered exactly when every enabled proxy can be served, no two share a port and no user
  // name has two passwords; disabled proxies never matter.
  lemma AcceptedExactly(net: Codec, ps: seq<Proxy>, keepalive: bool)
    ensures Render(net, ps, keepalive).Ok? <==> Renderable(net, ps)
  {
    assert Render(net, ps, keepalive).Ok? <==> Collect(net, ps, 0, {}, map[], []).Ok?;
    if Renderable(net, ps) {
      assert ps[..0] == [] && PortsOf([]) == {};
      CollectAccepts(net, ps, 0, map[]);
      assert Enabled(ps[..0]) == [];
    }
    if Collect(net, ps, 0, {}, map[], []).Ok? {
      CollectAll(net, ps);
    }
  }

  method CollectLoop(net: Codec, ps: seq<Proxy>) returns (r: Result<(map<string, string>, seq<Proxy>), Reject>)
    ensures r == Collect(net, ps, 0, {}, map[], [])
  {
    var enabled: seq<Proxy> := [];
    var users: map<string, string> := map[];
    var ports: set<int> := {};
    for i := 0 to |ps|
      invariant Collect(net, ps, 0, {}, map[], []) == Collect(net, ps, i, ports, users, enabled)
    {
      if ps[i].enabled {
        var p := ps[i];
        match FlawOf(net, p, ports, users) {
          case Some(flaw) => return Err(Reject(p.port, flaw));
          case None =>
            ports := ports + {p.port};
            users := users[p.username := p.password];
            enabled := enabled + [p];
        }
      }
    }
    r := Ok((users, enabled));
  }

  method WriteUsers(out: seq<string>, users: map<string, string>, names: seq<string>) returns (r: seq<string>)
    requires forall n :: n in names ==> n in users
    ensures r == out + UserLines(names, users)
  {
    r := out;
    for k := 0 to |names|
      invariant r + UserLines(names[k..], users) == out + UserLines(names, users)
    {
      assert names[k..] == [names[k]] + names[k + 1..];
      r := r + [UserLine(names[k], users[names[k]])];
    }
    assert names[|names|..] == [];
  }

  method WriteServices(out: seq<string>, ordered: seq<Proxy>) returns (r: seq<string>)
    ensures r == out + ServiceLines(ordered)
  {
    hide ServiceLines, SocksLine;
    r := out;
    assert ordered[0..] == ordered;
    for k := 0 to |ordered|
      invariant r + ServiceLines(ordered[k..]) == out + ServiceLines(ordered)
    {
      ServicesStep(ordered, k, r);
      r := r + ["allow " + ordered[k].username, SocksLine(ordered[k]), FLUSH];
    }
    ServicesEnd(ordered, r);
  }

  lemma ServicesStep(ordered: seq<Proxy>, k: nat, r: seq<string>)
    requires k < |ordered|
    ensures var lines := ["allow " + ordered[k].username, SocksLine(ordered[k]), FLUSH];
            r + ServiceLines(ordered[k..]) == r + lines + ServiceLines(ordered[k + 1..])
  {
    hide SocksLine;
    assert ordered[k..][0] == ordered[k] && ordered[k..][1..] == ordered[k + 1..];
    var lines, rest := ["allow " + ordered[k].username, SocksLine(ordered[k]), FLUSH], ServiceLines(ordered[k + 1..]);
    assert r + (lines + rest) == (r + lines) + rest;
  }

  lemma ServicesEnd(ordered: seq<Proxy>, r: seq<string>)
    ensures r + ServiceLines(ordered[|ordered|..]) == r
  {
    assert ordered[|ordered|..] == [] && r + [] == r;
  }

  // renderConfig as it is written: collect, then print users and services. The buffer is kept as its lines.
  method RenderConfigText(net: Codec, ps: seq<Proxy>, keepalive: bool) returns (r: Result<string, Reject>)
    ensures r == Render(net, ps, keepalive)
  {
    var collected := CollectLoop(net, ps);
    match collected {
      case Err(e) => return Err(e);
      case Ok((users, enabled)) =>
        CollectAll(net, ps);
        var out := HEADER + (if keepalive then KEEPALIVE else []) + [STRONG];
        var names := NamesOf(users, enabled);
        out := WriteUsers(out, users, names);
        out := WriteServices(out, SortByPort(enabled));
        return Ok(Unlines(out));
    }
  }

  // The map is walked in any order; sorting makes the result unique.
  method NamesOf(users: map<string, string>, ghost enabled: seq<Proxy>) returns (names: seq<string>)
    requires UsersOf(enabled, users)
    ensures names == SortedNames(enabled) && forall n :: n in names <==> n in users
  {
    names := [];
    var rest := users.Keys;
    while rest != {}
      invariant rest <= users.Keys && Ascending(names)
      invariant forall n :: n in names <==> n in users.Keys - rest
      decreases |rest|
    {
      var n :| n in rest;
      InsertNameAscending(n, names);
      names := InsertName(n, names);
      rest := rest - {n};
    }
    SortedNamesAscending(enabled);
    AscendingUnique(names, SortedNames(enabled));
  }

  lemma {:induction false} SortedNamesAscending(ps: seq<Proxy>)
    ensures Ascending(SortedNames(ps))
  {
    if ps != [] {
      SortedNamesAscending(ps[1..]);
      InsertNameAscending(ps[0].username, SortedNames(ps[1..]));
    }
  }

  // ---- the text list ----

  function ListLine(p: Proxy): string {
    p.host + ":" + Itoa(p.port) + ":" + p.username + ":" + p.password
  }

  function ListLines(ps: seq<Proxy>, onlyLive: bool): seq<string> {
    if ps == [] then []
    else if onlyLive && (!ps[0].enabled || ps[0].status != Live) then ListLines(ps[1..], onlyLive)
    else [ListLine(ps[0])] + ListLines(ps[1..], onlyLive)
  }

  function FormatList(ps: seq<Proxy>, onlyLive: bool): string {
    Unlines(ListLines(SortByPort(ps), onlyLive))
  }

  lemma UnlinesCons(out: string, line: string, rest: seq<string>)
    ensures out + Unlines([line] + rest) == (out + line + "\n") + Unlines(rest)
  {
    assert ([line] + rest)[1..] == rest;
    assert out + (line + "\n" + Unlines(rest)) == (out + line + "\n") + Unlines(rest);
  }

  // What is still to be printed from proxy i on.
  function ListFrom(ordered: seq<Proxy>, onlyLive: bool, i: nat): string
    requires i <= |ordered|
  {
    Unlines(ListLines(ordered[i..], onlyLive))
  }

  lemma ListFromStep(ordered: seq<Proxy>, onlyLive: bool, i: nat, out: string)
    requires i < |ordered|
    ensures var p := ordered[i];
            out + ListFrom(ordered, onlyLive, i) ==
            (if onlyLive && (!p.enabled || p.status != Live) then out else out + ListLine(p) + "\n")
            + ListFrom(ordered, onlyLive, i + 1)
  {
    var p, rest := ordered[i], ordered[i + 1..];
    assert ordered[i..][0] == p && ordered[i..][1..] == rest;
    if !(onlyLive && (!p.enabled || p.status != Live)) {
      UnlinesCons(out, ListLine(p), ListLines(rest, onlyLive));
    }
  }

  lemma ListFromEnds(ps: seq<Proxy>, onlyLive: bool)
    ensures var ordered := SortByPort(ps);
            && ListFrom(ordered, onlyLive, |ordered|) == ""
            && "" + ListFrom(ordered, onlyLive, 0) == FormatList(ps, onlyLive)
  {
    var ordered := SortByPort(ps);
    assert ordered[0..] == ordered && ordered[|ordered|..] == [];
  }

  method FormatListText(ps: seq<Proxy>, onlyLive: bool) returns (out: string)
    ensures out == FormatList(ps, onlyLive)
  {
    hide ListFrom, ListLine, FormatList;
    var ordered := SortByPort(ps);
    out := "";
    ListFromEnds(ps, onlyLive);
    ghost var answer := FormatList(ps, onlyLive);
    for i := 0 to |ordered|
      invariant out + ListFrom(ordered, onlyLive, i) == answer
    {
      var p := ordered[i];
      ListFromStep(ordered, onlyLive, i, out);
      if onlyLive && (!p.enabled || p.status != Live) {
        continue;
      }
      out := out + ListLine(p) + "\n";
    }
    assert out + "" == out;
  }

  datatype Entry = Entry(host: string, port: int, username: string, password: string)

  datatype ListError = BadShape(line: nat) | BadListPort(line: nat) | BadListHost(line: nat) | LineTooLong | EmptyList

  function ParseLine(net: Codec, raw: string, number: nat): Result<Option<Entry>, ListError> {
    var line := TrimSpace(raw);
    if line == "" then Ok(None)
    else
      var parts := Split(line, ':');
      if |parts| != 4 then Err(BadShape(number))
      else
        var (port, ok) := Atoi(parts[1]);
        if !ok || port < 1 || port > 65535 then Err(BadListPort(number))
        else if !net.IsV4(parts[0]) then Err(BadListHost(number))
        else Ok(Some(Entry(parts[0], port, parts[2], parts[3])))
  }

  function ParseLines(net: Codec, lines: seq<string>, i: nat, entries: seq<Entry>): Result<seq<Entry>, ListError>
    requires i <= |lines|
    decreases |lines| - i
  {
    if i == |lines| then Ok(entries)
    else match ParseLine(net, lines[i], i + 1)
      case Err(e) => Err(e)
      case Ok(None) => ParseLines(net, lines, i + 1, entries)
      case Ok(Some(e)) => ParseLines(net, lines, i + 1, entries + [e])
  }

  function ParseList(net: Codec, text: string): Result<seq<Entry>, ListError> {
    var scan := ScanLines(text);
    match ParseLines(net, scan.lines, 0, [])
    case Err(e) => Err(e)
    case Ok(entries) =>
      if scan.tooLong then Err(LineTooLong) else if entries == [] then Err(EmptyList) else Ok(entries)
  }

  method ParseListText(net: Codec, text: string) returns (r: Result<seq<Entry>, ListError>)
    ensures r == ParseList(net, text)
  {
    var scan := ScanLines(text);
    var entries: seq<Entry> := [];
    for i := 0 to |scan.lines|
      invariant ParseLines(net, scan.lines, 0, []) == ParseLines(net, scan.lines, i, entries)
    {
      match ParseLine(net, scan.lines[i], i + 1) {
        case Err(e) => return Err(e);
        case Ok(None) =>
        case Ok(Some(e)) => entries := entries + [e];
      }
    }
    if scan.tooLong {
      return Err(LineTooLong);
    }
    if entries == [] {
      return Err(EmptyList);
    }
    return Ok(entries);
  }

  // ---- reading a 3proxy configuration back ----

  datatype Imported = Imported(host: string, port: int, ipv6: string)

  function ReadFlag(s: Imported, field: string): Imported {
    if HasPrefix(field, "-p") then s.(port := Atoi(field[2..]).0)
    else if HasPrefix(field, "-i") then s.(host := field[2..])
    else if HasPrefix(field, "-e") then s.(ipv6 := field[2..])
    else s
  }

  function ReadFlags(fields: seq<string>, s: Imported): Imported {
    if fields == [] then s else ReadFlags(fields[1..], ReadFlag(s, fields[0]))
  }

  function ReadService(services: map<int, Imported>, line: string): map<int, Imported> {
    var fields := Fields(TrimSpace(line));
    if |fields| < 2 || fields[0] != "socks" then services
    else
      var s := ReadFlags(fields[1..], Imported("", 0, ""));
      if s.port > 0 && s.ipv6 != "" then services[s.port := s] else services
  }

  function ReadServices(services: map<int, Imported>, lines: seq<string>): map<int, Imported>
    decreases |lines|
  {
    if lines == [] then services else ReadServices(ReadService(services, lines[0]), lines[1..])
  }

  function Parse3ProxyServices(config: string): map<int, Imported> {
    ReadServices(map[], ScanLines(config).lines)
  }

  method Parse3ProxyServicesText(config: string) returns (services: map<int, Imported>)
    ensures services == Parse3ProxyServices(config)
  {
    services := map[];
    var lines := ScanLines(config).lines;
    for i := 0 to |lines|
      invariant ReadServices(services, lines[i..]) == Parse3ProxyServices(config)
    {
      assert lines[i..][1..] == lines[i + 1..];
      var fields := Fields(TrimSpace(lines[i]));
      if |fields| < 2 || fields[0] != "socks" {
        continue;
      }
      var s := Imported("", 0, "");
      for k := 1 to |fields|
        invariant ReadFlags(fields[k..], s) == ReadFlags(fields[1..], Imported("", 0, ""))
      {
        assert fields[k..][1..] == fields[k + 1..];
        s := ReadFlag(s, fields[k]);
      }
      assert fields[|fields|..] == [];
      if s.port > 0 && s.ipv6 != "" {
        services := services[s.port := s];
      }
    }
    assert lines[|lines|..] == [];
  }

  // ---- why a set is not rendered ----

  // What is wrong with p as the next proxy after those taken, the first thing that is.
  ghost predicate FirstFlaw(net: Codec, taken: seq<Proxy>, p: Proxy, flaw: Flaw) {
    if !ValidCredential(p.username) then flaw == BadUsername
    else if !ValidCredential(p.password) then flaw == BadPassword
    else if p.port < 1024 || p.port > 65535 then flaw == BadPort
    else if exists q :: q in taken && q.port == p.port then flaw == DuplicatePort
    else if net.parseAddr(p.host).None? || net.parseAddr(p.host).value.V6? then flaw == BadHost
    else if net.parseAddr(p.ipv6).None? || net.parseAddr(p.ipv6).value.V4? then flaw == BadIPv6
    else (exists q :: q in taken && q.username == p.username && q.password != p.password) && flaw == PasswordConflict
  }

  // Proxy i is the first enabled one that cannot be served beside those before it.
  ghost predicate FirstRejected(net: Codec, ps: seq<Proxy>, i: int, flaw: Flaw) {
    && 0 <= i < |ps| && ps[i].enabled && Renderable(net, ps[..i]) && FirstFlaw(net, Enabled(ps[..i]), ps[i], flaw)
  }

  lemma FlawIsFirst(net: Codec, taken: seq<Proxy>, users: map<string, string>, p: Proxy)
    requires UsersOf(taken, users)
    ensures forall flaw :: FlawOf(net, p, PortsOf(taken), users) == Some(flaw) <==> FirstFlaw(net, taken, p, flaw)
  {
    assert p.port in PortsOf(taken) <==> exists q :: q in taken && q.port == p.port;
  }

  lemma GatheredFlaw(net: Codec, taken: seq<Proxy>, users: map<string, string>, p: Proxy)
    requires Gathered(net, taken, users)
    ensures FlawOf(net, p, PortsOf(taken), users).Some? ==> FirstFlaw(net, taken, p, FlawOf(net, p, PortsOf(taken), users).value)
  {
    FlawIsFirst(net, taken, users, p);
  }

  lemma GatheredAgree(net: Codec, en: seq<Proxy>, users: map<string, string>)
    requires Gathered(net, en, users)
    ensures Agreeable(net, en)
  {
  }

  lemma {:induction false} RejectsFrom(net: Codec, ps: seq<Proxy>, i: nat, users: map<string, string>) returns (k: nat)
    requires i <= |ps| && Gathered(net, Enabled(ps[..i]), users)
    requires Collect(net, ps, i, PortsOf(Enabled(ps[..i])), users, Enabled(ps[..i])).Err?
    ensures k < |ps|
    ensures var e := Collect(net, ps, i, PortsOf(Enabled(ps[..i])), users, Enabled(ps[..i])).error;
            e.port == ps[k].port && FirstRejected(net, ps, k, e.flaw)
    decreases |ps| - i
  {
    hide FlawOf, FirstFlaw, Gathered, Agreeable, Enabled, PortsOf;
    var p := ps[i];
    EnabledStep(ps, i);
    GatheredAgree(net, Enabled(ps[..i]), users);
    if !p.enabled {
      k := RejectsFrom(net, ps, i + 1, users);
    } else {
      GatheredFlaw(net, Enabled(ps[..i]), users, p);
      if FlawOf(net, p, PortsOf(Enabled(ps[..i])), users).None? {
        GatheredStep(net, Enabled(ps[..i]), users, p);
        k := RejectsFrom(net, ps, i + 1, users[p.username := p.password]);
      } else {
        k := i;
      }
    }
  }

  // A set that is not rendered is rejected for its first enabled proxy, in stored order, that cannot be served beside
  // those before it, and for the first thing that is wrong with that one.
  lemma RejectsExactly(net: Codec, ps: seq<Proxy>, keepalive: bool) returns (k: nat)
    requires Render(net, ps, keepalive).Err?
    ensures k < |ps|
    ensures var e := Render(net, ps, keepalive).error; e.port == ps[k].port && FirstRejected(net, ps, k, e.flaw)
  {
    assert ps[..0] == [] && Enabled(ps[..0]) == [] && PortsOf([]) == {};
    k := RejectsFrom(net, ps, 0, map[]);
  }
}
