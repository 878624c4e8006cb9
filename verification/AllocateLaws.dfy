// What Allocate promises: only fresh ports and addresses, whatever the input.
module AllocateLaws {
  import opened Model
  import opened Netip
  import opened Config
  import opened AddOffset
  import opened Allocate

  // ---- freshness, on every input ----

  // A proxy that Allocate may add to a state.
  ghost predicate Fresh(net: Codec, base: nat, cap: nat, s: State, p: Proxy) {
    && s.nextPort <= p.port <= 65534 && p.port !in PortsOf(s.proxies)
    && net.Canonical(p.ipv6) && p.ipv6 !in TextsOf(s.proxies)
    && base <= net.parseAddr(p.ipv6).value.v < base + cap
    && p.host == s.publicIPv4 && p.enabled && p.status == Pending && p.lastError == "" && p.lastChecked == 0
  }

  ghost predicate AscendingPorts(ps: seq<Proxy>) {
    forall i, j :: 0 <= i < j < |ps| ==> ps[i].port < ps[j].port
  }

  ghost predicate DistinctTexts(ps: seq<Proxy>) {
    forall i, j :: 0 <= i < j < |ps| ==> ps[i].ipv6 != ps[j].ipv6
  }

  ghost predicate CanonicalSet(net: Codec, ps: seq<Proxy>) {
    forall p :: p in ps ==> net.Canonical(p.ipv6)
  }

  // The used sets are what they should be and the new proxies are in order.
  ghost predicate Kept(s: State, c: Search) {
    && c.ports == PortsOf(s.proxies) + PortsOf(c.created)
    && c.ips == TextsOf(s.proxies) + TextsOf(c.created)
    && s.nextPort <= c.port
    && (forall p :: p in c.created ==> p.port < c.port)
    && AscendingPorts(c.created) && DistinctTexts(c.created)
  }

  ghost predicate Sound(net: Codec, base: nat, cap: nat, s: State, c: Search) {
    Kept(s, c) && forall p :: p in c.created ==> Fresh(net, base, cap, s, p)
  }

  lemma TextsStep(ps: seq<Proxy>, p: Proxy)
    ensures TextsOf(ps + [p]) == TextsOf(ps) + {p.ipv6}
    ensures PortsOf(ps + [p]) == PortsOf(ps) + {p.port}
  {
    assert p in ps + [p];
    assert forall q :: q in ps ==> q in ps + [p];
  }

  lemma AscendingStep(ps: seq<Proxy>, p: Proxy)
    requires AscendingPorts(ps) && DistinctTexts(ps)
    requires (forall q :: q in ps ==> q.port < p.port) && p.ipv6 !in TextsOf(ps)
    ensures AscendingPorts(ps + [p]) && DistinctTexts(ps + [p])
  {
    assert forall i :: 0 <= i < |ps| ==> ps[i] in ps;
  }

  lemma SoundStep(net: Codec, base: nat, cap: nat, s: State, c: Search, c': Search, p: Proxy)
    requires Sound(net, base, cap, s, c)
    requires Fresh(net, base, cap, s, p) && p.port !in c.ports && p.ipv6 !in c.ips && c.port <= p.port
    requires c' == Search(p.port + 1, c'.offset, c.ports + {p.port}, c.ips + {p.ipv6}, c.created + [p])
    ensures Sound(net, base, cap, s, c')
  {
    TextsStep(c.created, p);
    AscendingStep(c.created, p);
    forall q | q in c'.created
      ensures Fresh(net, base, cap, s, q) && q.port < c'.port
    {
    }
  }

  // What one successful turn has chosen.
  lemma TurnGives(net: Codec, base: nat, cap: nat, host: string, opts: Options, entropy: Entropy,
      c: Search) returns (p: Proxy, f: Found)
    requires base + cap <= ADDRESSES
    requires Turn(net, base, cap, host, opts, entropy, c).Ok?
    ensures Probe(net, base, cap, c.offset, c.ips, 0) == Some(f)
    ensures p == NewProxy(host, NextPort(c.port, c.ports), net.format(f.ip), (p.username, p.password)) && p.port <= LAST_PORT
    ensures Turn(net, base, cap, host, opts, entropy, c)
         == Ok(Search(p.port + 1, f.next, c.ports + {p.port}, c.ips + {p.ipv6}, c.created + [p]))
  {
    f := Probe(net, base, cap, c.offset, c.ips, 0).value;
    var creds := Credentials(opts, entropy, |c.created|).value;
    p := NewProxy(host, NextPort(c.port, c.ports), net.format(f.ip), creds);
  }

  lemma TurnSound(net: Codec, base: nat, cap: nat, s: State, opts: Options, entropy: Entropy, c: Search)
    requires net.Lawful() && base + cap <= ADDRESSES && Sound(net, base, cap, s, c)
    ensures var r := Turn(net, base, cap, s.publicIPv4, opts, entropy, c);
            r.Ok? ==> Sound(net, base, cap, s, r.value) && |r.value.created| == |c.created| + 1
  {
    if Turn(net, base, cap, s.publicIPv4, opts, entropy, c).Ok? {
      var p, f := TurnGives(net, base, cap, s.publicIPv4, opts, entropy, c);
      net.FormatCanonical(f.ip);
      SoundStep(net, base, cap, s, c, Turn(net, base, cap, s.publicIPv4, opts, entropy, c).value, p);
    }
  }

  lemma {:induction false} TurnsSound(net: Codec, base: nat, cap: nat, s: State, opts: Options, entropy: Entropy,
      c: Search)
    requires net.Lawful() && base + cap <= ADDRESSES
    requires Sound(net, base, cap, s, c) && |c.created| <= opts.count
    ensures var r := Turns(net, base, cap, s.publicIPv4, opts, entropy, c);
            r.Ok? ==> Sound(net, base, cap, s, r.value) && |r.value.created| == opts.count
    decreases opts.count - |c.created|
  {
    if |c.created| < opts.count {
      TurnSound(net, base, cap, s, opts, entropy, c);
      match Turn(net, base, cap, s.publicIPv4, opts, entropy, c)
      case Err(_) =>
      case Ok(c') => TurnsSound(net, base, cap, s, opts, entropy, c');
    }
  }

  // Whatever the cursors and the random source, a successful Allocate adds count proxies on ascending unused
  // ports at or above NextPort, with addresses of the prefix under distinct canonical texts that no stored proxy has, and
  // moves the port cursor past them. A stored proxy may still name one of these addresses by another text (see
  // Lifetime.HandedOutExactlyWhen).
  lemma AllocatedFresh(net: Codec, s: State, opts: Options, entropy: Entropy)
    requires net.Lawful() && Allocated(net, s, opts, entropy).Ok?
    ensures var (s', created) := Allocated(net, s, opts, entropy).value;
            var prefix := net.parsePrefix(s.prefix).value;
            && 1 <= opts.count <= MAX_COUNT && |created| == opts.count
            && AscendingPorts(created) && DistinctTexts(created)
            && (forall p :: p in created ==> Fresh(net, Masked(prefix), Capacity(prefix), s, p) && p.port < s'.nextPort)
            && s'.proxies == s.proxies + created
            && s' == s.(nextPort := s'.nextPort, nextOffset := s'.nextOffset, proxies := s'.proxies)
  {
    var prefix := net.parsePrefix(s.prefix).value;
    assert TextsOf([]) == {} && PortsOf([]) == {};
    PrefixRoom(prefix);
    TurnsSound(net, Masked(prefix), Capacity(prefix), s, opts, entropy, Start(s));
  }

  // ---- which credentials a new proxy gets ----

  // The first n bytes of a read of the random source.
  function FirstBytes(read: nat -> uint8, n: nat): (b: seq<uint8>)
    ensures |b| == n && forall i :: 0 <= i < n ==> b[i] == read(i)
  {
    seq(n, i requires 0 <= i < n => read(i))
  }

  // Proxy k of a creation: the given credentials, or the ones its own two reads of the random source give, nine bytes for
  // the user name and sixteen for the password.
  ghost predicate Credited(opts: Options, entropy: Entropy, k: nat, p: Proxy) {
    && (opts.mode == "custom" ==> p.username == opts.username && p.password == opts.password)
    && (opts.mode == "random" ==>
          && entropy(2 * k).Some? && entropy(2 * k + 1).Some?
          && p.username == "u_" + Base64Url(FirstBytes(entropy(2 * k).value, 9))
          && p.password == "p_" + Base64Url(FirstBytes(entropy(2 * k + 1).value, 16)))
  }

  ghost predicate AllCredited(opts: Options, entropy: Entropy, ps: seq<Proxy>) {
    forall k: nat :: k < |ps| ==> Credited(opts, entropy, k, ps[k])
  }

  lemma TurnCredits(net: Codec, base: nat, cap: nat, host: string, opts: Options, entropy: Entropy, c: Search)
    requires base + cap <= ADDRESSES && AllCredited(opts, entropy, c.created)
    ensures var r := Turn(net, base, cap, host, opts, entropy, c);
            r.Ok? ==> AllCredited(opts, entropy, r.value.created) && |r.value.created| == |c.created| + 1
  {
    if Turn(net, base, cap, host, opts, entropy, c).Ok? {
      hide Base64Url, Credited, Credentials;
      var p, f := TurnGives(net, base, cap, host, opts, entropy, c);
      TakesCredentials(net, base, cap, host, opts, entropy, c, p);
    }
  }

  lemma TakesCredentials(net: Codec, base: nat, cap: nat, host: string, opts: Options, entropy: Entropy, c: Search, p: Proxy)
    requires base + cap <= ADDRESSES && Turn(net, base, cap, host, opts, entropy, c).Ok?
    requires Turn(net, base, cap, host, opts, entropy, c).value.created == c.created + [p]
    ensures Credited(opts, entropy, |c.created|, p)
  {
    hide Base64Url;
    var k := |c.created|;
    assert p == (c.created + [p])[k];
    assert "custom"[0] != "random"[0];
    if opts.mode == "random" {
      assert entropy(2 * k).Some? && entropy(2 * k + 1).Some?;
      var name, secret := entropy(2 * k).value, entropy(2 * k + 1).value;
      assert seq(9, i requires 0 <= i < 9 => name(i)) == FirstBytes(name, 9);
      assert seq(16, i requires 0 <= i < 16 => secret(i)) == FirstBytes(secret, 16);
    }
  }

  lemma {:induction false} TurnsCredit(net: Codec, base: nat, cap: nat, host: string, opts: Options, entropy: Entropy,
      c: Search)
    requires base + cap <= ADDRESSES && AllCredited(opts, entropy, c.created)
    ensures var r := Turns(net, base, cap, host, opts, entropy, c); r.Ok? ==> AllCredited(opts, entropy, r.value.created)
    decreases opts.count - |c.created|
  {
    hide AllCredited;
    if |c.created| < opts.count {
      TurnCredits(net, base, cap, host, opts, entropy, c);
      match Turn(net, base, cap, host, opts, entropy, c)
      case Err(_) =>
      case Ok(c') => TurnsCredit(net, base, cap, host, opts, entropy, c');
    }
  }

  lemma CredentialsExactly(net: Codec, s: State, opts: Options, entropy: Entropy)
    requires net.Lawful() && Allocated(net, s, opts, entropy).Ok?
    ensures opts.mode == "custom" || opts.mode == "random"
    ensures AllCredited(opts, entropy, Allocated(net, s, opts, entropy).value.1)
  {
    var prefix := net.parsePrefix(s.prefix).value;
    PrefixRoom(prefix);
    TurnsCredit(net, Masked(prefix), Capacity(prefix), s.publicIPv4, opts, entropy, Start(s));
  }

  lemma SextetInjective(n: nat, m: nat)
    requires n < 64 && m < 64 && Sextet(n) == Sextet(m)
    ensures n == m
  {
  }

  lemma ThreeBytes(x0: nat, x1: nat, x2: nat, y0: nat, y1: nat, y2: nat)
    requires x0 < 256 && x1 < 256 && x2 < 256 && y0 < 256 && y1 < 256 && y2 < 256
    requires x0 / 4 == y0 / 4 && x0 % 4 * 16 + x1 / 16 == y0 % 4 * 16 + y1 / 16
    requires x1 % 16 * 4 + x2 / 64 == y1 % 16 * 4 + y2 / 64 && x2 % 64 == y2 % 64
    ensures x0 == y0 && x1 == y1 && x2 == y2
  {
  }

  function Group(x0: nat, x1: nat, x2: nat): string
    requires x0 < 256 && x1 < 256 && x2 < 256
  {
    [Sextet(x0 / 4), Sextet(x0 % 4 * 16 + x1 / 16), Sextet(x1 % 16 * 4 + x2 / 64), Sextet(x2 % 64)]
  }

  lemma GroupInjective(x0: nat, x1: nat, x2: nat, y0: nat, y1: nat, y2: nat)
    requires x0 < 256 && x1 < 256 && x2 < 256 && y0 < 256 && y1 < 256 && y2 < 256
    requires Group(x0, x1, x2) == Group(y0, y1, y2)
    ensures x0 == y0 && x1 == y1 && x2 == y2
  {
    hide Sextet;
    var x, y := Group(x0, x1, x2), Group(y0, y1, y2);
    assert x[0] == y[0] && x[1] == y[1] && x[2] == y[2] && x[3] == y[3];
    SextetInjective(x0 / 4, y0 / 4);
    SextetInjective(x0 % 4 * 16 + x1 / 16, y0 % 4 * 16 + y1 / 16);
    SextetInjective(x1 % 16 * 4 + x2 / 64, y1 % 16 * 4 + y2 / 64);
    SextetInjective(x2 % 64, y2 % 64);
    ThreeBytes(x0, x1, x2, y0, y1, y2);
  }

  lemma OpensWithGroup(b: seq<uint8>)
    requires |b| >= 3
    ensures Base64Url(b) == Group(b[0] as int, b[1] as int, b[2] as int) + Base64Url(b[3..])
  {
  }

  // The last group, filled up with zeros, determines one or two bytes.
  lemma LastGroup(b: seq<uint8>)
    requires 1 <= |b| <= 2
    ensures Base64Url(b) == Group(b[0] as int, if |b| == 2 then b[1] as int else 0, 0)[..|b| + 1]
  {
    hide Sextet;
    var x0, x1 := b[0] as int, if |b| == 2 then b[1] as int else 0;
    LowBits(x0, x1);
    var g := Group(x0, x1, 0);
    assert g[0] == Sextet(x0 / 4) && g[1] == Sextet(x0 % 4 * 16 + x1 / 16) && g[2] == Sextet(x1 % 16 * 4);
    if |b| == 1 {
      assert Base64Url(b) == [Sextet(x0 / 4), Sextet(x0 % 4 * 16)];
    } else {
      assert Base64Url(b) == [Sextet(x0 / 4), Sextet(x0 % 4 * 16 + x1 / 16), Sextet(x1 % 16 * 4)];
    }
  }

  lemma LowBits(x0: nat, x1: nat)
    requires x0 < 256 && x1 < 256
    ensures x1 % 16 * 4 + 0 / 64 == x1 % 16 * 4 < 64 && x0 % 4 * 16 + x1 / 16 < 64
    ensures x1 == 0 ==> x0 % 4 * 16 + x1 / 16 == x0 % 4 * 16
  {
  }

  // The encoding loses nothing.
  lemma {:induction false} Base64Injective(a: seq<uint8>, b: seq<uint8>)
    requires |a| == |b| && Base64Url(a) == Base64Url(b)
    ensures a == b
  {
    hide Base64Url, Group;
    if |a| >= 3 {
      OpensWithGroup(a);
      OpensWithGroup(b);
      var x, y := Base64Url(a), Base64Url(b);
      assert x[..4] == Group(a[0] as int, a[1] as int, a[2] as int) && x[4..] == Base64Url(a[3..]);
      assert y[..4] == Group(b[0] as int, b[1] as int, b[2] as int) && y[4..] == Base64Url(b[3..]);
      GroupInjective(a[0] as int, a[1] as int, a[2] as int, b[0] as int, b[1] as int, b[2] as int);
      Base64Injective(a[3..], b[3..]);
      assert a == [a[0], a[1], a[2]] + a[3..] && b == [b[0], b[1], b[2]] + b[3..];
    } else if |a| > 0 {
      LastGroup(a);
      LastGroup(b);
      LastInjective(a, b);
    }
  }

  lemma LastInjective(a: seq<uint8>, b: seq<uint8>)
    requires 1 <= |a| == |b| <= 2
    requires Group(a[0] as int, if |a| == 2 then a[1] as int else 0, 0)[..|a| + 1]
          == Group(b[0] as int, if |b| == 2 then b[1] as int else 0, 0)[..|a| + 1]
    ensures a == b
  {
    hide Sextet;
    var x1, y1 := if |a| == 2 then a[1] as int else 0, if |b| == 2 then b[1] as int else 0;
    var x, y := Group(a[0] as int, x1, 0), Group(b[0] as int, y1, 0);
    assert x[..|a| + 1][0] == y[..|a| + 1][0] && x[..|a| + 1][1] == y[..|a| + 1][1];
    SextetInjective(a[0] as int / 4, b[0] as int / 4);
    SextetInjective(a[0] as int % 4 * 16 + x1 / 16, b[0] as int % 4 * 16 + y1 / 16);
    if |a| == 2 {
      assert x[..3][2] == y[..3][2];
      SextetInjective(x1 % 16 * 4 + 0 / 64, y1 % 16 * 4 + 0 / 64);
    }
  }

  // So two new proxies have the same random user name exactly when their reads gave the same nine bytes, and the same
  // password exactly when theirs gave the same sixteen.
  lemma CredentialsDiffer(net: Codec, s: State, opts: Options, entropy: Entropy, i: nat, j: nat)
    requires net.Lawful() && Allocated(net, s, opts, entropy).Ok? && opts.mode == "random"
    requires i < |Allocated(net, s, opts, entropy).value.1| && j < |Allocated(net, s, opts, entropy).value.1|
    ensures entropy(2 * i).Some? && entropy(2 * j).Some? && entropy(2 * i + 1).Some? && entropy(2 * j + 1).Some?
    ensures var created := Allocated(net, s, opts, entropy).value.1;
            && (created[i].username == created[j].username
                <==> FirstBytes(entropy(2 * i).value, 9) == FirstBytes(entropy(2 * j).value, 9))
            && (created[i].password == created[j].password
                <==> FirstBytes(entropy(2 * i + 1).value, 16) == FirstBytes(entropy(2 * j + 1).value, 16))
  {
    hide Base64Url;
    CredentialsExactly(net, s, opts, entropy);
    var created := Allocated(net, s, opts, entropy).value.1;
    assert Credited(opts, entropy, i, created[i]) && Credited(opts, entropy, j, created[j]);
    SamePrefix("u_", FirstBytes(entropy(2 * i).value, 9), FirstBytes(entropy(2 * j).value, 9));
    SamePrefix("p_", FirstBytes(entropy(2 * i + 1).value, 16), FirstBytes(entropy(2 * j + 1).value, 16));
  }

  lemma SamePrefix(prefix: string, a: seq<uint8>, b: seq<uint8>)
    requires |a| == |b|
    ensures prefix + Base64Url(a) == prefix + Base64Url(b) <==> a == b
  {
    hide Base64Url;
    var x, y := prefix + Base64Url(a), prefix + Base64Url(b);
    assert x[|prefix|..] == Base64Url(a) && y[|prefix|..] == Base64Url(b);
    if x == y {
      Base64Injective(a, b);
    }
  }

  // ---- what is refused ----

  // Four to 64 letters, digits, dots, underscores, at-signs and hyphens.
  predicate WellChosen(v: string) {
    && 4 <= |v| <= 64
    && forall i :: 0 <= i < |v| ==>
         'a' <= v[i] <= 'z' || 'A' <= v[i] <= 'Z' || '0' <= v[i] <= '9' || v[i] == '.' || v[i] == '_' || v[i] == '@' || v[i] == '-'
  }

  lemma ValidIsWellChosen(v: string)
    ensures ValidCredential(v) <==> WellChosen(v)
  {
    if ValidCredential(v) {
      assert forall i :: 0 <= i < |v| ==> CredentialChar(v[i]);
    }
    if WellChosen(v) {
      forall c | c in v
        ensures CredentialChar(c)
      {
        var i :| 0 <= i < |v| && v[i] == c;
      }
    }
  }

  // Options are refused in this order, before anything else is looked at; then a prefix that is not an IPv6 prefix.
  lemma RefusesExactly(net: Codec, s: State, opts: Options, entropy: Entropy)
    requires net.Lawful()
    ensures var r := Allocated(net, s, opts, entropy);
            if opts.count < 1 || opts.count > 10000 then r == Err(BadCount)
            else if opts.mode != "random" && opts.mode != "custom" then r == Err(BadMode)
            else if opts.mode == "custom" && !WellChosen(opts.username) then r == Err(BadName)
            else if opts.mode == "custom" && !WellChosen(opts.password) then r == Err(BadSecret)
            else if net.parsePrefix(s.prefix).None? || net.parsePrefix(s.prefix).value.addr.V4? then r == Err(NoPrefix)
            else r.Ok? || r.error in {NoPorts, NoAddresses, NoEntropy}
  {
    hide ValidCredential, WellChosen;
    ValidIsWellChosen(opts.username);
    ValidIsWellChosen(opts.password);
    if RoutedPrefix(net, s) {
      PrefixRoom(net.parsePrefix(s.prefix).value);
      var prefix := net.parsePrefix(s.prefix).value;
      TurnsRefuse(net, Masked(prefix), Capacity(prefix), s.publicIPv4, opts, entropy, Start(s));
    }
  }

  lemma {:induction false} TurnsRefuse(net: Codec, base: nat, cap: nat, host: string, opts: Options, entropy: Entropy,
      c: Search)
    requires base + cap <= ADDRESSES
    ensures var r := Turns(net, base, cap, host, opts, entropy, c); r.Ok? || r.error in {NoPorts, NoAddresses, NoEntropy}
    decreases opts.count - |c.created|
  {
    if |c.created| < opts.count {
      match Turn(net, base, cap, host, opts, entropy, c)
      case Err(_) =>
      case Ok(c') =>
        TurnGrows(net, base, cap, host, opts, entropy, c);
        TurnsRefuse(net, base, cap, host, opts, entropy, c');
    }
  }
}
