// What the rendered configuration says, read back by the importer and by 3proxy's own rules.
module ConfigLaws {
  import opened Model
  import opened Text
  import opened Netip
  import opened Order
  import opened Config

  // ---- the shape of rendered lines ----

  lemma {:induction false} TrimRightHead(s: string)
    requires s != [] && !IsSpace(s[0])
    ensures var r := TrimRight(s); r != [] && r[0] == s[0]
  {
    if IsSpace(s[|s| - 1]) {
      TrimRightHead(s[..|s| - 1]);
    }
  }

  lemma FirstField(line: string)
    requires line != [] && !IsSpace(line[0])
    ensures var f := Fields(TrimSpace(line)); f != [] && f[0] != [] && f[0][0] == line[0]
  {
    TrimRightHead(line);
  }

  lemma FieldsOf(words: seq<string>, line: string)
    requires line == Join(words) && forall w :: w in words ==> Word(w)
    ensures Fields(TrimSpace(line)) == words
  {
    TrimJoin(words);
    FieldsJoin(words);
  }

  lemma PairFields(a: string, b: string)
    requires Word(a) && Word(b)
    ensures Fields(TrimSpace(a + " " + b)) == [a, b]
  {
    assert Join([a, b]) == a + " " + Join([b]);
    FieldsOf([a, b], a + " " + b);
  }

  ghost predicate Printable(net: Codec, p: Proxy) {
    Servable(net, p) && net.ZoneFreeV6(p.ipv6)
  }

  function SocksWords(p: Proxy): seq<string> {
    ["socks", "-S-32768", "-6", "-n", "-a", "-p" + Itoa(p.port), "-i" + p.host, "-e" + p.ipv6]
  }

  lemma ItoaWord(n: nat)
    ensures Word(Itoa(n)) && ':' !in Itoa(n)
  {
  }

  lemma FlagWord(flag: string, value: string)
    requires Word(flag) && Word(value)
    ensures Word(flag + value)
  {
  }

  // Joining from the front: a text that ends with a space and a word list.
  lemma JoinGrows(text: string, a: string, rest: seq<string>)
    requires rest != []
    ensures text + " " + Join([a] + rest) == (text + " " + a) + " " + Join(rest)
  {
    JoinCons(a, rest);
    assert text + " " + (a + " " + Join(rest)) == (text + " " + a) + " " + Join(rest);
  }

  lemma JoinFive(a: string, b: string, c: string, d: string, e: string, rest: seq<string>)
    requires rest != []
    ensures Join([a, b, c, d, e] + rest) == a + " " + b + " " + c + " " + d + " " + e + " " + Join(rest)
  {
    var r4 := [e] + rest;
    var r3 := [d] + r4;
    var r2 := [c] + r3;
    assert [a, b, c, d, e] + rest == [a] + ([b] + r2);
    JoinCons(a, [b] + r2);
    JoinGrows(a, b, r2);
    JoinGrows(a + " " + b, c, r3);
    JoinGrows(a + " " + b + " " + c, d, r4);
    JoinGrows(a + " " + b + " " + c + " " + d, e, rest);
  }

  lemma JoinCons(a: string, rest: seq<string>)
    requires rest != []
    ensures Join([a] + rest) == a + " " + Join(rest)
  {
    assert ([a] + rest)[1..] == rest;
  }

  lemma SocksLineIsJoin(p: Proxy)
    ensures SocksLine(p) == Join(SocksWords(p))
  {
    var x, y, z := "-p" + Itoa(p.port), "-i" + p.host, "-e" + p.ipv6;
    JoinFive("socks", "-S-32768", "-6", "-n", "-a", [x, y, z]);
    assert SocksWords(p) == ["socks", "-S-32768", "-6", "-n", "-a"] + [x, y, z];
    assert [x, y, z] == [x] + ([y] + [z]);
    JoinCons(x, [y] + [z]);
    JoinCons(y, [z]);
  }

  lemma SocksFields(net: Codec, p: Proxy)
    requires net.Lawful() && Printable(net, p)
    ensures Fields(TrimSpace(SocksLine(p))) == SocksWords(p)
  {
    SocksLineIsJoin(p);
    ItoaWord(p.port);
    assert WellWritten(net.parseAddr(p.host).value, p.host);
    assert WellWritten(net.parseAddr(p.ipv6).value, p.ipv6);
    FlagWord("-p", Itoa(p.port));
    FlagWord("-i", p.host);
    FlagWord("-e", p.ipv6);
    FieldsOf(SocksWords(p), SocksLine(p));
  }

  function ServiceOf(p: Proxy): Imported {
    Imported(p.host, p.port, p.ipv6)
  }

  lemma ReadFlagsStep(field: string, rest: seq<string>, s: Imported)
    ensures ReadFlags([field] + rest, s) == ReadFlags(rest, ReadFlag(s, field))
  {
    assert ([field] + rest)[1..] == rest;
  }

  lemma SocksFlags(p: Proxy)
    requires 0 < p.port <= 65535
    ensures ReadFlags(SocksWords(p)[1..], Imported("", 0, "")) == ServiceOf(p)
  {
    var x, y, z := "-p" + Itoa(p.port), "-i" + p.host, "-e" + p.ipv6;
    var s := Imported("", 0, "");
    assert SocksWords(p)[1..] == ["-S-32768"] + (["-6"] + (["-n"] + (["-a"] + ([x] + ([y] + ([z] + []))))));
    ReadFlagsStep("-S-32768", ["-6"] + (["-n"] + (["-a"] + ([x] + ([y] + ([z] + []))))), s);
    ReadFlagsStep("-6", ["-n"] + (["-a"] + ([x] + ([y] + ([z] + [])))), s);
    ReadFlagsStep("-n", ["-a"] + ([x] + ([y] + ([z] + []))), s);
    ReadFlagsStep("-a", [x] + ([y] + ([z] + [])), s);
    ReadFlagsStep(x, [y] + ([z] + []), s);
    AtoiItoa(p.port);
    assert x[2..] == Itoa(p.port);
    ReadFlagsStep(y, [z] + [], s.(port := p.port));
    assert y[2..] == p.host;
    ReadFlagsStep(z, [], s.(port := p.port, host := p.host));
    assert z[2..] == p.ipv6;
  }

  lemma KeepaliveFields()
    ensures Fields(TrimSpace(LOOPBACK)) == ["socks", "-p65535", "-i127.0.0.1"]
  {
    var a, b, c := "socks", "-p65535", "-i127.0.0.1";
    JoinCons(a, [b] + [c]);
    JoinCons(b, [c]);
    assert [a] + ([b] + [c]) == [a, b, c];
    FieldsOf([a, b, c], LOOPBACK);
  }

  lemma KeepaliveFlags(s: Imported)
    ensures ReadFlags(["-p65535", "-i127.0.0.1"], s).ipv6 == s.ipv6
  {
    ReadFlagsStep("-p65535", ["-i127.0.0.1"], s);
    ReadFlagsStep("-i127.0.0.1", [], ReadFlag(s, "-p65535"));
    assert ["-p65535"] + ["-i127.0.0.1"] == ["-p65535", "-i127.0.0.1"];
    assert ["-i127.0.0.1"] + [] == ["-i127.0.0.1"];
  }

  // ---- the importer's view: Parse3ProxyServices undoes RenderConfig ----

  lemma {:induction false} ReadServicesAppend(s: map<int, Imported>, a: seq<string>, b: seq<string>)
    ensures ReadServices(s, a + b) == ReadServices(ReadServices(s, a), b)
    decreases |a|
  {
    if a == [] {
      assert a + b == b;
    } else {
      assert (a + b)[1..] == a[1..] + b;
      ReadServicesAppend(ReadService(s, a[0]), a[1..], b);
    }
  }

  ghost predicate NoService(line: string) {
    line != [] && !IsSpace(line[0]) && line[0] != 's'
  }

  lemma {:induction false} ReadServicesSkip(s: map<int, Imported>, lines: seq<string>)
    requires forall l :: l in lines ==> NoService(l)
    ensures ReadServices(s, lines) == s
    decreases |lines|
  {
    if lines != [] {
      assert lines[0] in lines;
      FirstField(lines[0]);
      ReadServicesSkip(s, lines[1..]);
    }
  }

  function ServiceMap(s: map<int, Imported>, ps: seq<Proxy>): map<int, Imported>
    decreases |ps|
  {
    if ps == [] then s else ServiceMap(s[ps[0].port := ServiceOf(ps[0])], ps[1..])
  }

  lemma {:induction false} ReadServiceLines(net: Codec, s: map<int, Imported>, ps: seq<Proxy>)
    requires net.Lawful() && forall p :: p in ps ==> Printable(net, p)
    ensures ReadServices(s, ServiceLines(ps)) == ServiceMap(s, ps)
    decreases |ps|
  {
    if ps != [] {
      ReadOneService(net, s, ps[0], ServiceLines(ps[1..]));
      assert ServiceLines(ps) == ["allow " + ps[0].username, SocksLine(ps[0]), FLUSH] + ServiceLines(ps[1..]);
      ReadServiceLines(net, s[ps[0].port := ServiceOf(ps[0])], ps[1..]);
    }
  }

  lemma AllowInert(name: string)
    ensures NoService("allow " + name) && NoService(FLUSH)
  {
    assert ("allow " + name)[0] == 'a';
  }

  lemma ReadOneService(net: Codec, s: map<int, Imported>, p: Proxy, rest: seq<string>)
    requires net.Lawful() && Printable(net, p)
    ensures ReadServices(s, ["allow " + p.username, SocksLine(p), FLUSH] + rest) == ReadServices(s[p.port := ServiceOf(p)], rest)
  {
    var allow, socks, flush := "allow " + p.username, SocksLine(p), FLUSH;
    assert [allow, socks, flush] + rest == [allow] + ([socks] + ([flush] + rest));
    AllowInert(p.username);
    ReadServicesSkipOne(s, allow, [socks] + ([flush] + rest));
    ReadServicesStep(s, socks, [flush] + rest);
    ReadSocks(net, s, p);
    ReadServicesSkipOne(s[p.port := ServiceOf(p)], flush, rest);
  }

  lemma ReadServicesStep(s: map<int, Imported>, line: string, rest: seq<string>)
    ensures ReadServices(s, [line] + rest) == ReadServices(ReadService(s, line), rest)
  {
    assert ([line] + rest)[1..] == rest;
  }

  lemma ReadServicesSkipOne(s: map<int, Imported>, line: string, rest: seq<string>)
    requires NoService(line)
    ensures ReadServices(s, [line] + rest) == ReadServices(s, rest)
  {
    ReadServicesStep(s, line, rest);
    FirstField(line);
  }

  lemma ReadSocks(net: Codec, s: map<int, Imported>, p: Proxy)
    requires net.Lawful() && Printable(net, p)
    ensures ReadService(s, SocksLine(p)) == s[p.port := ServiceOf(p)]
  {
    SocksFields(net, p);
    SocksFlags(p);
    assert WellWritten(net.parseAddr(p.ipv6).value, p.ipv6);
  }

  lemma {:induction false} ServiceMapExact(s: map<int, Imported>, ps: seq<Proxy>)
    requires UniquePorts(ps) && forall p :: p in ps ==> p.port !in s
    ensures ServiceMap(s, ps).Keys == s.Keys + PortsOf(ps)
    ensures forall p :: p in ps ==> ServiceMap(s, ps)[p.port] == ServiceOf(p)
    ensures forall n :: n in s ==> ServiceMap(s, ps)[n] == s[n]
    decreases |ps|
  {
    if ps != [] {
      var s' := s[ps[0].port := ServiceOf(ps[0])];
      forall p | p in ps[1..]
        ensures p.port !in s'
      {
        var i :| 0 <= i < |ps[1..]| && ps[1..][i] == p;
        assert ps[i + 1] == p;
      }
      ServiceMapExact(s', ps[1..]);
      assert ps == [ps[0]] + ps[1..];
      assert PortsOf(ps) == {ps[0].port} + PortsOf(ps[1..]);
    }
  }

  // ---- every rendered line survives the scanner ----

  lemma PlainConcat(a: string, b: string)
    requires PlainLine(a) && PlainLine(b) && |a| + |b| < SCAN_LIMIT
    ensures PlainLine(a + b)
  {
  }

  lemma {:induction false} DigitsLength(n: nat)
    requires n <= 65535
    ensures |Itoa(n)| <= 5
  {
    assert Pow10(5) == 100000 by { assert Pow10(3) == 1000; }
    DigitsShort(n, 5);
  }

  lemma WordIsPlain(w: string)
    requires Word(w) && |w| < SCAN_LIMIT
    ensures PlainLine(w)
  {
  }

  lemma AddressPlain(net: Codec, t: string)
    requires net.Lawful() && (net.IsV4(t) || net.ZoneFreeV6(t))
    ensures Word(t) && PlainLine(t) && |t| <= 45
    ensures net.IsV4(t) ==> ':' !in t
  {
    assert WellWritten(net.parseAddr(t).value, t);
  }

  lemma SocksLinePlain(net: Codec, p: Proxy)
    requires net.Lawful() && Printable(net, p)
    ensures PlainLine(SocksLine(p))
  {
    AddressPlain(net, p.host);
    AddressPlain(net, p.ipv6);
    ItoaWord(p.port);
    DigitsLength(p.port);
    WordIsPlain(Itoa(p.port));
    SocksFlagsPlain();
    PlainConcat(SOCKS_FLAGS, "-p");
    var a1 := SOCKS_FLAGS + "-p" + Itoa(p.port);
    PlainConcat(SOCKS_FLAGS + "-p", Itoa(p.port));
    PlainConcat(a1, " ");
    PlainConcat(a1 + " ", "-i");
    var a2 := a1 + " " + "-i" + p.host;
    PlainConcat(a1 + " " + "-i", p.host);
    PlainConcat(a2, " ");
    PlainConcat(a2 + " ", "-e");
    PlainConcat(a2 + " " + "-e", p.ipv6);
  }

  lemma SocksFlagsPlain()
    ensures PlainLine(SOCKS_FLAGS) && |SOCKS_FLAGS| == 24
  {
  }

  lemma CredentialPlain(v: string)
    requires ValidCredential(v)
    ensures Word(v) && ':' !in v && PlainLine(v) && |v| <= 64
  {
    CredentialIsWord(v);
  }

  lemma {:induction false} ServiceLinesPlain(net: Codec, ps: seq<Proxy>)
    requires net.Lawful() && forall p :: p in ps ==> Printable(net, p)
    ensures forall l :: l in ServiceLines(ps) ==> PlainLine(l)
  {
    if ps != [] {
      var p := ps[0];
      SocksLinePlain(net, p);
      CredentialPlain(p.username);
      PlainConcat("allow ", p.username);
      ServiceLinesPlain(net, ps[1..]);
    }
  }

  lemma UserLinePlain(name: string, password: string)
    requires ValidCredential(name) && ValidCredential(password)
    ensures PlainLine(UserLine(name, password))
  {
    CredentialPlain(name);
    CredentialPlain(password);
    PlainConcat("users ", name);
    PlainConcat("users " + name, ":CL:");
    PlainConcat("users " + name + ":CL:", password);
  }

  lemma {:induction false} UserLinesPlain(names: seq<string>, users: map<string, string>)
    requires forall n :: n in names ==> n in users && ValidCredential(n) && ValidCredential(users[n])
    ensures forall l :: l in UserLines(names, users) ==> Inert(l)
  {
    if names != [] {
      assert names[0] in names;
      UserLinePlain(names[0], users[names[0]]);
      UserLinesPlain(names[1..], users);
    }
  }

  ghost predicate Inert(line: string) {
    PlainLine(line) && NoService(line)
  }

  lemma TitleInert() ensures Inert(TITLE) {}

  lemma SettingsInert() ensures Inert(MAXCONN) && Inert(NSCACHE) {}

  lemma ServersInert() ensures Inert(NSERVER1) && Inert(NSERVER2) {}

  lemma KeepalivePlain() ensures Inert(NOAUTH) && PlainLine(LOOPBACK) && Inert(FLUSH) {}

  lemma StrongInert() ensures Inert(STRONG) {}

  lemma FixedLinesPlain()
    ensures forall l :: l in HEADER ==> Inert(l)
    ensures forall l :: l in KEEPALIVE ==> PlainLine(l)
    ensures Inert(STRONG)
  {
    TitleInert();
    SettingsInert();
    ServersInert();
    KeepalivePlain();
    StrongInert();
  }

  ghost predicate PrintableSet(net: Codec, ps: seq<Proxy>) {
    Renderable(net, ps) && forall p :: p in Enabled(ps) ==> net.ZoneFreeV6(p.ipv6)
  }

  lemma NamesValid(net: Codec, en: seq<Proxy>, users: map<string, string>)
    requires Gathered(net, en, users)
    ensures forall n :: n in SortedNames(en) ==> n in users && ValidCredential(n) && ValidCredential(users[n])
  {
    forall n | n in SortedNames(en)
      ensures n in users && ValidCredential(n) && ValidCredential(users[n])
    {
      var p :| p in en && p.username == n;
    }
  }

  ghost predicate PlainLines(lines: seq<string>) {
    forall l :: l in lines ==> PlainLine(l)
  }

  lemma PlainLinesAppend(a: seq<string>, b: seq<string>)
    requires PlainLines(a) && PlainLines(b)
    ensures PlainLines(a + b)
  {
  }

  lemma UserLinesInert(net: Codec, en: seq<Proxy>, users: map<string, string>)
    requires Gathered(net, en, users)
    ensures forall l :: l in UserLines(SortedNames(en), users) ==> Inert(l)
  {
    NamesValid(net, en, users);
    UserLinesPlain(SortedNames(en), users);
  }

  lemma AllPlain(net: Codec, en: seq<Proxy>, users: map<string, string>, keepalive: bool)
    requires net.Lawful() && Gathered(net, en, users) && forall p :: p in en ==> net.ZoneFreeV6(p.ipv6)
    ensures ScanLines(ConfigText(en, users, keepalive)).lines == ConfigLines(en, users, keepalive)
  {
    var top, k := HEADER, if keepalive then KEEPALIVE else [];
    var userLines, services := UserLines(SortedNames(en), users), ServiceLines(SortByPort(en));
    assert PlainLines(HEADER) && PlainLines(k) && PlainLines([STRONG]) by { FixedLinesPlain(); }
    assert PlainLines(services) by { ServiceLinesPlain(net, SortByPort(en)); }
    assert PlainLines(userLines) by { UserLinesInert(net, en, users); }
    PlainLinesAppend(HEADER, k);
    PlainLinesAppend(HEADER + k, [STRONG]);
    PlainLinesAppend(HEADER + k + [STRONG], userLines);
    PlainLinesAppend(HEADER + k + [STRONG] + userLines, services);
    ScanUnlines(ConfigLines(en, users, keepalive));
  }

  // The users table of an accepted set, which fixes its whole configuration.
  function UserTable(net: Codec, ps: seq<Proxy>): map<string, string>
    requires Collect(net, ps, 0, {}, map[], []).Ok?
  {
    Collect(net, ps, 0, {}, map[], []).value.0
  }

  lemma RenderedText(net: Codec, ps: seq<Proxy>, keepalive: bool)
    requires Renderable(net, ps)
    ensures Collect(net, ps, 0, {}, map[], []).Ok? && Gathered(net, Enabled(ps), UserTable(net, ps))
    ensures Render(net, ps, keepalive) == Ok(ConfigText(Enabled(ps), UserTable(net, ps), keepalive))
  {
    AcceptedExactly(net, ps, keepalive);
    CollectAll(net, ps);
  }

  lemma ReadTop(s: map<int, Imported>, keepalive: bool, rest: seq<string>)
    ensures ReadServices(s, HEADER + (if keepalive then KEEPALIVE else []) + [STRONG] + rest) == ReadServices(s, rest)
  {
    var k := if keepalive then KEEPALIVE else [];
    FixedLinesPlain();
    assert HEADER + k + [STRONG] + rest == HEADER + (k + ([STRONG] + rest));
    ReadServicesAppend(s, HEADER, k + ([STRONG] + rest));
    ReadServicesSkip(s, HEADER);
    ReadServicesAppend(s, k, [STRONG] + rest);
    ReadKeepalive(s);
    ReadServicesSkipOne(s, STRONG, rest);
  }

  lemma ReadKeepalive(s: map<int, Imported>)
    ensures ReadServices(s, KEEPALIVE) == s
  {
    assert KEEPALIVE == [NOAUTH] + ([LOOPBACK] + ([FLUSH] + []));
    KeepalivePlain();
    ReadServicesSkipOne(s, NOAUTH, [LOOPBACK] + ([FLUSH] + []));
    ReadServicesStep(s, LOOPBACK, [FLUSH] + []);
    KeepaliveFields();
    assert ["socks", "-p65535", "-i127.0.0.1"][1..] == ["-p65535", "-i127.0.0.1"];
    KeepaliveFlags(Imported("", 0, ""));
    ReadServicesSkipOne(s, FLUSH, []);
  }

  lemma ReadParts(s: map<int, Imported>, keepalive: bool, users: seq<string>, services: seq<string>)
    requires forall l :: l in users ==> NoService(l)
    ensures ReadServices(s, HEADER + (if keepalive then KEEPALIVE else []) + [STRONG] + users + services)
         == ReadServices(s, services)
  {
    ReadTop(s, keepalive, users + services);
    var top := HEADER + (if keepalive then KEEPALIVE else []) + [STRONG];
    assert top + users + services == top + (users + services);
    ReadServicesAppend(s, users, services);
    ReadServicesSkip(s, users);
  }

  lemma ReadConfigLines(net: Codec, en: seq<Proxy>, users: map<string, string>, keepalive: bool)
    requires net.Lawful() && Gathered(net, en, users) && forall p :: p in en ==> net.ZoneFreeV6(p.ipv6)
    ensures ReadServices(map[], ConfigLines(en, users, keepalive)) == ServiceMap(map[], SortByPort(en))
  {
    UserLinesInert(net, en, users);
    ReadParts(map[], keepalive, UserLines(SortedNames(en), users), ServiceLines(SortByPort(en)));
    ReadServiceLines(net, map[], SortByPort(en));
  }

  // Reading back a rendered configuration gives exactly the enabled proxies' listener and outbound address;
  // the keepalive line adds nothing.
  lemma ConfigRoundTrip(net: Codec, ps: seq<Proxy>, keepalive: bool)
    requires net.Lawful() && PrintableSet(net, ps)
    ensures Render(net, ps, keepalive).Ok?
    ensures var m := Parse3ProxyServices(Render(net, ps, keepalive).value);
            m.Keys == PortsOf(Enabled(ps)) && forall p :: p in Enabled(ps) ==> m[p.port] == ServiceOf(p)
  {
    var en := Enabled(ps);
    RenderedText(net, ps, keepalive);
    AllPlain(net, en, UserTable(net, ps), keepalive);
    ReadConfigLines(net, en, UserTable(net, ps), keepalive);
    UniqueByCount(en, SortByPort(en));
    ServiceMapExact(map[], SortByPort(en));
    assert PortsOf(SortByPort(en)) == PortsOf(en);
  }

  // ---- configurations that were not rendered here ----

  predicate Flagged(fields: seq<string>, flag: string) {
    exists i :: 0 <= i < |fields| && HasPrefix(fields[i], flag)
  }

  lemma OtherFlag(s: Imported, field: string)
    ensures !HasPrefix(field, "-p") ==> ReadFlag(s, field).port == s.port
    ensures !HasPrefix(field, "-i") ==> ReadFlag(s, field).host == s.host
    ensures !HasPrefix(field, "-e") ==> ReadFlag(s, field).ipv6 == s.ipv6
  {
  }

  lemma {:induction false} NoFlagKeeps(fields: seq<string>, s: Imported)
    ensures var r := ReadFlags(fields, s);
            && (!Flagged(fields, "-p") ==> r.port == s.port)
            && (!Flagged(fields, "-i") ==> r.host == s.host)
            && (!Flagged(fields, "-e") ==> r.ipv6 == s.ipv6)
  {
    hide ReadFlag, HasPrefix;
    if fields != [] {
      OtherFlag(s, fields[0]);
      NoFlagKeeps(fields[1..], ReadFlag(s, fields[0]));
      forall flag | !Flagged(fields, flag)
        ensures !HasPrefix(fields[0], flag) && !Flagged(fields[1..], flag)
      {
        assert forall i :: 0 <= i < |fields[1..]| ==> fields[1..][i] == fields[i + 1];
      }
    }
  }

  lemma {:induction false} FlagsAppend(a: seq<string>, b: seq<string>, s: Imported)
    ensures ReadFlags(a + b, s) == ReadFlags(b, ReadFlags(a, s))
  {
    hide ReadFlag;
    if a == [] {
      assert a + b == b;
    } else {
      assert (a + b)[1..] == a[1..] + b;
      FlagsAppend(a[1..], b, ReadFlag(s, a[0]));
    }
  }

  lemma SetsFlag(s: Imported, value: string)
    ensures ReadFlag(s, "-p" + value).port == Atoi(value).0
    ensures ReadFlag(s, "-i" + value).host == value
    ensures ReadFlag(s, "-e" + value).ipv6 == value
  {
    var p, i, e := "-p" + value, "-i" + value, "-e" + value;
    assert p[..2] == "-p" && p[2..] == value;
    assert i[..2] == "-i" && i[2..] == value;
    assert e[..2] == "-e" && e[2..] == value;
  }

  // Wherever they stand among the words of a line, and whatever else stands there, the last -p, -i and -e decide the port,
  // the host and the address of a service.
  lemma LastFlagCounts(a: seq<string>, value: string, b: seq<string>, s: Imported)
    ensures !Flagged(b, "-p") ==> ReadFlags(a + ["-p" + value] + b, s).port == Atoi(value).0
    ensures !Flagged(b, "-i") ==> ReadFlags(a + ["-i" + value] + b, s).host == value
    ensures !Flagged(b, "-e") ==> ReadFlags(a + ["-e" + value] + b, s).ipv6 == value
  {
    hide ReadFlag, Atoi;
    var before := ReadFlags(a, s);
    SetsFlag(before, value);
    FlagThen(a, "-p" + value, b, s);
    FlagThen(a, "-i" + value, b, s);
    FlagThen(a, "-e" + value, b, s);
    NoFlagKeeps(b, ReadFlag(before, "-p" + value));
    NoFlagKeeps(b, ReadFlag(before, "-i" + value));
    NoFlagKeeps(b, ReadFlag(before, "-e" + value));
  }

  lemma FlagThen(a: seq<string>, field: string, b: seq<string>, s: Imported)
    ensures ReadFlags(a + [field] + b, s) == ReadFlags(b, ReadFlag(ReadFlags(a, s), field))
  {
    hide ReadFlag;
    assert a + [field] + b == a + ([field] + b);
    FlagsAppend(a, [field] + b, s);
    ReadFlagsStep(field, b, ReadFlags(a, s));
  }

  // A line describes a service exactly when its first word is socks, more words follow, the port they give is positive and
  // the address is not empty; a later line for a port replaces an earlier one, and every other line changes nothing.
  lemma ServiceLineExactly(services: map<int, Imported>, line: string)
    ensures var fields := Fields(TrimSpace(line));
            var after := ReadService(services, line);
            if |fields| >= 2 && fields[0] == "socks" then
              var s := ReadFlags(fields[1..], Imported("", 0, ""));
              && (forall port :: port != s.port ==> (port in after <==> port in services))
              && (forall port :: port != s.port && port in services ==> after[port] == services[port])
              && (s.port > 0 && s.ipv6 != "" ==> s.port in after && after[s.port] == s)
              && (s.port <= 0 || s.ipv6 == "" ==> after == services)
            else after == services
  {
  }
}
