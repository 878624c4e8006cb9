// Allocate of internal/proxy/allocate.go: first-fit search over ports and addresses, committed only on success.
module Allocate {
  import opened Model
  import opened Netip
  import opened Config
  import opened AddOffset

  const LAST_PORT := 65534
  const MAX_COUNT := 10000

  // A Go slice cannot be longer than this.
  const MAX_LENGTH: nat := 0x7FFF_FFFF_FFFF_FFFF

  datatype Options = Options(count: int, mode: string, username: string, password: string)

  datatype AllocError = BadCount | BadMode | BadName | BadSecret | NoPrefix | NoPorts | NoAddresses | NoEntropy

  // The k-th read of the random source: the bytes it gives, or a failure.
  type Entropy = nat -> Option<nat -> uint8>

  // ---- random credentials: RFC 4648 section 5, without padding ----

  function Sextet(n: nat): (c: char)
    requires n < 64
    ensures CredentialChar(c)
  {
    if n < 26 then 'A' + n as char
    else if n < 52 then 'a' + (n - 26) as char
    else if n < 62 then '0' + (n - 52) as char
    else if n == 62 then '-' else '_'
  }

  function Base64Url(b: seq<uint8>): (s: string)
    ensures forall c :: c in s ==> CredentialChar(c)
    ensures |s| == (4 * |b| + 2) / 3
  {
    if b == [] then ""
    else if |b| == 1 then [Sextet(b[0] as int / 4), Sextet(b[0] as int % 4 * 16)]
    else if |b| == 2 then
      [Sextet(b[0] as int / 4), Sextet(b[0] as int % 4 * 16 + b[1] as int / 16), Sextet(b[1] as int % 16 * 4)]
    else
      [Sextet(b[0] as int / 4), Sextet(b[0] as int % 4 * 16 + b[1] as int / 16),
       Sextet(b[1] as int % 16 * 4 + b[2] as int / 64), Sextet(b[2] as int % 64)] + Base64Url(b[3..])
  }

  function RandomCredential(prefix: string, size: nat, read: Option<nat -> uint8>): (r: Option<string>)
    ensures r.Some? <==> read.Some?
    ensures r.Some? ==> |r.value| == |prefix| + (4 * size + 2) / 3
    ensures r.Some? && (forall c :: c in prefix ==> CredentialChar(c)) ==> forall c :: c in r.value ==> CredentialChar(c)
  {
    match read
    case None => None
    case Some(f) => Some(prefix + Base64Url(seq(size, i requires 0 <= i < size => f(i))))
  }

  // The credentials of the k-th new proxy.
  function Credentials(opts: Options, entropy: Entropy, k: nat): (r: Option<(string, string)>)
    ensures opts.mode == "random" ==> (r.Some? <==> entropy(2 * k).Some? && entropy(2 * k + 1).Some?)
    ensures opts.mode == "random" && r.Some? ==> ValidCredential(r.value.0) && ValidCredential(r.value.1)
    ensures opts.mode != "random" ==> r == Some((opts.username, opts.password))
  {
    if opts.mode != "random" then Some((opts.username, opts.password))
    else
      match (RandomCredential("u_", 9, entropy(2 * k)), RandomCredential("p_", 16, entropy(2 * k + 1)))
      case (Some(u), Some(p)) => Some((u, p))
      case _ => None
  }

  // ---- the search ----

  function NextPort(port: int, used: set<int>): (r: int)
    ensures port <= r
    ensures forall q :: port <= q < r ==> q in used
    ensures r <= LAST_PORT ==> r !in used
    ensures r > LAST_PORT ==> r == if port > LAST_PORT then port else LAST_PORT + 1
    decreases LAST_PORT + 1 - port
  {
    if port > LAST_PORT || port !in used then port else NextPort(port + 1, used)
  }

  datatype Found = Found(ip: nat, next: Uint64)

  // The addresses of a routed prefix: cap of them, from base on (see AddOffset.PrefixHolds).
  function Capacity(p: Prefix): nat
    requires WellSized(p) && p.addr.V6?
  {
    Pow2(128 - p.bits)
  }

  lemma PrefixRoom(p: Prefix)
    requires WellSized(p) && p.addr.V6?
    ensures Masked(p) + Capacity(p) <= ADDRESSES
  {
    PrefixHolds(p, Capacity(p) - 1);
  }

  // Addresses from offset on until a free one, after tried used ones. There is always a free one or the end of
  // the prefix within |used| + 1 steps, so the bound on tried never decides anything (see TriedIsFew).
  function Probe(net: Codec, base: nat, cap: nat, offset: Uint64, used: set<string>, tried: nat): (r: Option<Found>)
    requires base + cap <= ADDRESSES
    ensures r.Some? ==> base <= r.value.ip < base + cap && net.format(r.value.ip) !in used
    decreases |used| + 1 - tried
  {
    if tried > |used| || offset >= cap then None
    else if net.format(base + offset) !in used then Some(Found(base + offset, (offset + 1) % U64))
    else Probe(net, base, cap, (offset + 1) % U64, used, tried + 1)
  }

  function TextsOf(ps: seq<Proxy>): (r: set<string>)
  {
    set p | p in ps :: p.ipv6
  }

  datatype Search = Search(port: int, offset: Uint64, ports: set<int>, ips: set<string>, created: seq<Proxy>)

  function Start(s: State): Search {
    Search(s.nextPort, s.nextOffset, PortsOf(s.proxies), TextsOf(s.proxies), [])
  }

  // The record of a new proxy.
  function NewProxy(host: string, port: int, text: string, creds: (string, string)): Proxy {
    Proxy(host, port, text, creds.0, creds.1, true, Pending, "", 0)
  }

  // One turn of the outer loop.
  function Turn(net: Codec, base: nat, cap: nat, host: string, opts: Options, entropy: Entropy,
      c: Search): Result<Search, AllocError>
    requires base + cap <= ADDRESSES
  {
    var port := NextPort(c.port, c.ports);
    if port > LAST_PORT then Err(NoPorts)
    else match Probe(net, base, cap, c.offset, c.ips, 0)
      case None => Err(NoAddresses)
      case Some(found) =>
        match Credentials(opts, entropy, |c.created|)
        case None => Err(NoEntropy)
        case Some(creds) =>
          var text := net.format(found.ip);
          Ok(Search(port + 1, found.next, c.ports + {port}, c.ips + {text}, c.created + [NewProxy(host, port, text, creds)]))
  }

  function Turns(net: Codec, base: nat, cap: nat, host: string, opts: Options, entropy: Entropy,
      c: Search): Result<Search, AllocError>
    requires base + cap <= ADDRESSES
    decreases opts.count - |c.created|
  {
    if |c.created| >= opts.count then Ok(c)
    else match Turn(net, base, cap, host, opts, entropy, c)
      case Err(e) => Err(e)
      case Ok(c') => Turns(net, base, cap, host, opts, entropy, c')
  }

  function CheckOptions(opts: Options): Option<AllocError> {
    if opts.count < 1 || opts.count > MAX_COUNT then Some(BadCount)
    else if opts.mode != "random" && opts.mode != "custom" then Some(BadMode)
    else if opts.mode == "custom" && !ValidCredential(opts.username) then Some(BadName)
    else if opts.mode == "custom" && !ValidCredential(opts.password) then Some(BadSecret)
    else None
  }

  predicate RoutedPrefix(net: Codec, s: State) {
    net.parsePrefix(s.prefix).Some? && net.parsePrefix(s.prefix).value.addr.V6?
  }

  function Commit(s: State, c: Search): State {
    s.(nextPort := c.port, nextOffset := c.offset, proxies := s.proxies + c.created)
  }

  function Allocated(net: Codec, s: State, opts: Options, entropy: Entropy): Result<(State, seq<Proxy>), AllocError>
    requires net.Lawful()
  {
    match CheckOptions(opts)
    case Some(e) => Err(e)
    case None =>
      if !RoutedPrefix(net, s) then Err(NoPrefix)
      else
        var p := net.parsePrefix(s.prefix).value;
        PrefixRoom(p);
        match Turns(net, Masked(p), Capacity(p), s.publicIPv4, opts, entropy, Start(s))
        case Err(e) => Err(e)
        case Ok(c) => Ok((Commit(s, c), c.created))
  }

  // ---- why the inner search ends: used addresses cannot outnumber the used texts ----

  function Slot(start: nat, j: nat): nat {
    (start + j) % U64
  }

  ghost predicate TakenSlot(net: Codec, base: nat, start: nat, used: set<string>, j: nat) {
    var ip := base + Slot(start, j);
    ip < ADDRESSES && net.format(ip) in used
  }

  ghost predicate AllTaken(net: Codec, base: nat, start: nat, used: set<string>, k: nat) {
    forall j: nat :: j < k ==> TakenSlot(net, base, start, used, j)
  }

  lemma SlotsDiffer(start: nat, i: nat, j: nat)
    requires i < j < i + U64
    ensures Slot(start, i) != Slot(start, j)
  {
    var a, d := start + i, j - i;
    if a % U64 + d < U64 {
      DivUnique(a + d, U64, a / U64);
    } else {
      DivUnique(a + d, U64, a / U64 + 1);
    }
  }

  function SlotTexts(net: Codec, base: nat, start: nat, k: nat): set<string> {
    if k == 0 then {} else SlotTexts(net, base, start, k - 1) + {net.format(base + Slot(start, k - 1))}
  }

  lemma {:induction false} NewText(net: Codec, base: nat, start: nat, used: set<string>, k: nat, n: nat)
    requires net.Lawful() && k <= n < U64
    requires AllTaken(net, base, start, used, n + 1)
    ensures net.format(base + Slot(start, n)) !in SlotTexts(net, base, start, k)
  {
    if k > 0 {
      NewText(net, base, start, used, k - 1, n);
      SlotsDiffer(start, k - 1, n);
      assert TakenSlot(net, base, start, used, n) && TakenSlot(net, base, start, used, k - 1);
      var x, y := base + Slot(start, n), base + Slot(start, k - 1);
      if net.format(x) == net.format(y) {
        net.FormatInjective(x, y);
      }
    }
  }

  lemma OneMore<T>(s: set<T>, x: T, bound: set<T>)
    requires x !in s && s <= bound && x in bound
    ensures |s + {x}| == |s| + 1 && s + {x} <= bound
  {
  }

  lemma {:induction false} Crowd(net: Codec, base: nat, start: nat, used: set<string>, k: nat)
    requires net.Lawful() && k <= U64
    requires AllTaken(net, base, start, used, k)
    ensures |SlotTexts(net, base, start, k)| == k && SlotTexts(net, base, start, k) <= used
  {
    hide Slot;
    if k > 0 {
      Crowd(net, base, start, used, k - 1);
      NewText(net, base, start, used, k - 1, k - 1);
      assert TakenSlot(net, base, start, used, k - 1);
      OneMore(SlotTexts(net, base, start, k - 1), net.format(base + Slot(start, k - 1)), used);
    }
  }

  lemma TriedIsFew(net: Codec, base: nat, start: nat, used: set<string>, k: nat)
    requires net.Lawful() && |used| < U64
    requires AllTaken(net, base, start, used, k)
    ensures k <= |used|
  {
    var n := if k <= U64 then k else U64;
    Crowd(net, base, start, used, n);
    SubsetSize(SlotTexts(net, base, start, n), used);
  }

  lemma SlotNext(start: nat, k: nat)
    ensures Slot(start, k + 1) == (Slot(start, k) + 1) % U64
  {
    var a := start + k;
    if a % U64 + 1 < U64 {
      DivUnique(a + 1, U64, a / U64);
    } else {
      DivUnique(a + 1, U64, a / U64 + 1);
    }
  }

  lemma {:induction false} SubsetSize<T>(a: set<T>, b: set<T>)
    requires a <= b
    ensures |a| <= |b|
  {
    assert b == a + (b - a);
  }

  lemma TakeOne(net: Codec, base: nat, start: nat, used: set<string>, k: nat)
    requires net.Lawful() && |used| < U64
    requires AllTaken(net, base, start, used, k)
    requires TakenSlot(net, base, start, used, k)
    ensures AllTaken(net, base, start, used, k + 1) && k + 1 <= |used|
  {
    TriedIsFew(net, base, start, used, k + 1);
  }

  // ---- the method ----

  // The *model.State that the source passes by reference.
  class StateRef {
    var state: State

    constructor (s: State)
      ensures state == s
    {
      state := s;
    }
  }

  // The address this far into the prefix, if it is still inside.
  method AddressAt(prefix: Prefix, base: nat, offset: Uint64) returns (r: Option<nat>)
    requires WellSized(prefix) && prefix.addr.V6? && base == Masked(prefix) && base + Capacity(prefix) <= ADDRESSES
    ensures r == if offset < Capacity(prefix) then Some(base + offset) else None
  {
    PrefixHolds(prefix, offset);
    var ip := AddOffset.AddOffset(V6(base, ""), offset as uint64);
    if ip == None || !Contains(prefix, ip.value) {
      return None;
    }
    return Some(ip.value.v);
  }

  // One used address is passed.
  lemma ProbeStep(net: Codec, base: nat, cap: nat, start: Uint64, used: set<string>, tried: nat)
    requires net.Lawful() && |used| < U64 && base + cap <= ADDRESSES && tried <= |used|
    requires AllTaken(net, base, start, used, tried)
    requires Slot(start, tried) < cap && net.format(base + Slot(start, tried)) in used
    ensures var next := (Slot(start, tried) + 1) % U64;
            && next == Slot(start, tried + 1)
            && Probe(net, base, cap, Slot(start, tried), used, tried) == Probe(net, base, cap, next, used, tried + 1)
    ensures AllTaken(net, base, start, used, tried + 1) && tried + 1 <= |used|
  {
    SlotNext(start, tried);
    TakeOne(net, base, start, used, tried);
  }

  method FindAddress(net: Codec, prefix: Prefix, start: Uint64, used: set<string>) returns (r: Option<Found>)
    requires net.Lawful() && WellSized(prefix) && prefix.addr.V6? && |used| < U64
    requires Masked(prefix) + Capacity(prefix) <= ADDRESSES
    ensures r == Probe(net, Masked(prefix), Capacity(prefix), start, used, 0)
  {
    hide Pow2, AlignDown;
    var offset: Uint64 := start;
    var base := Masked(prefix);
    ghost var cap := Capacity(prefix);
    ghost var tried := 0;
    ghost var answer := Probe(net, base, cap, start, used, 0);
    while true
      invariant offset == Slot(start, tried)
      invariant AllTaken(net, base, start, used, tried) && tried <= |used|
      invariant answer == Probe(net, base, cap, offset, used, tried)
      decreases |used| + 1 - tried
    {
      var ip := AddressAt(prefix, base, offset);
      if ip == None {
        return None;
      }
      offset := (offset + 1) % U64;
      if net.format(ip.value) !in used {
        return Some(Found(ip.value, offset));
      }
      ProbeStep(net, base, cap, start, used, tried);
      tried := tried + 1;
    }
  }

  method FindPort(from: int, used: set<int>) returns (port: int)
    ensures port == NextPort(from, used)
  {
    port := from;
    while port <= LAST_PORT && port in used
      invariant NextPort(from, used) == NextPort(port, used)
      decreases LAST_PORT + 1 - port
    {
      port := port + 1;
    }
  }

  method TakeTurn(net: Codec, prefix: Prefix, host: string, opts: Options, entropy: Entropy, c: Search)
    returns (r: Result<Search, AllocError>)
    requires net.Lawful() && WellSized(prefix) && prefix.addr.V6? && |c.ips| < U64
    requires Masked(prefix) + Capacity(prefix) <= ADDRESSES
    ensures r == Turn(net, Masked(prefix), Capacity(prefix), host, opts, entropy, c)
  {
    var port := FindPort(c.port, c.ports);
    if port > LAST_PORT {
      return Err(NoPorts);
    }
    var found := FindAddress(net, prefix, c.offset, c.ips);
    if found == None {
      return Err(NoAddresses);
    }
    var creds := Credentials(opts, entropy, |c.created|);
    if creds == None {
      return Err(NoEntropy);
    }
    var text := net.format(found.value.ip);
    var p := NewProxy(host, port, text, creds.value);
    return Ok(Search(port + 1, found.value.next, c.ports + {port}, c.ips + {text}, c.created + [p]));
  }

  lemma TurnGrows(net: Codec, base: nat, cap: nat, host: string, opts: Options, entropy: Entropy, c: Search)
    requires base + cap <= ADDRESSES
    ensures var r := Turn(net, base, cap, host, opts, entropy, c);
            r.Ok? ==> |r.value.created| == |c.created| + 1 && |r.value.ips| <= |c.ips| + 1
  {
  }

  // On any error the state is untouched; on success it is exactly the specification's.
  method Allocate(net: Codec, ref: StateRef, opts: Options,
      entropy: Entropy) returns (r: Result<seq<Proxy>, AllocError>)
    requires net.Lawful() && |ref.state.proxies| <= MAX_LENGTH
    modifies ref
    ensures match Allocated(net, old(ref.state), opts, entropy)
            case Err(e) => r == Err(e) && ref.state == old(ref.state)
            case Ok((s, created)) => r == Ok(created) && ref.state == s
  {
    var s := ref.state;
    var bad := CheckOptions(opts);
    if bad.Some? {
      return Err(bad.value);
    }
    if !RoutedPrefix(net, s) {
      return Err(NoPrefix);
    }
    var prefix := net.parsePrefix(s.prefix).value;
    PrefixRoom(prefix);
    var base, cap := Masked(prefix), Capacity(prefix);
    var c := Start(s);
    ghost var answer := Turns(net, base, cap, s.publicIPv4, opts, entropy, c);
    TextsFew(s.proxies);
    while |c.created| < opts.count
      invariant ref.state == s && |c.created| <= opts.count
      invariant |c.ips| <= |s.proxies| + |c.created|
      invariant answer == Turns(net, base, cap, s.publicIPv4, opts, entropy, c)
      decreases opts.count - |c.created|
    {
      TurnGrows(net, base, cap, s.publicIPv4, opts, entropy, c);
      var turn := TakeTurn(net, prefix, s.publicIPv4, opts, entropy, c);
      match turn {
        case Err(e) => return Err(e);
        case Ok(next) => c := next;
      }
    }
    ref.state := Commit(s, c);
    r := Ok(c.created);
  }

  lemma {:induction false} TextsFew(ps: seq<Proxy>)
    ensures |TextsOf(ps)| <= |ps|
  {
    if ps != [] {
      var n := |ps| - 1;
      TextsFew(ps[..n]);
      assert ps == ps[..n] + [ps[n]];
      assert TextsOf(ps) == TextsOf(ps[..n]) + {ps[n].ipv6};
    } else {
      assert TextsOf(ps) == {};
    }
  }
}
