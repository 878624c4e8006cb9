// Allocate is exactly first fit: it takes the smallest free ports and the lowest free addresses, and fails only
// when one of the two supplies is too small.
module FirstFit {
  import opened Model
  import opened Netip
  import opened Config
  import opened AddOffset
  import opened Allocate
  import opened AllocateLaws

  // The text of the o-th address of a prefix.
  function At(net: Codec, base: nat, o: nat): string {
    net.format(base + o)
  }

  function FreePorts(s: State, limit: int): set<int> {
    set q | s.nextPort <= q < limit && q !in PortsOf(s.proxies)
  }

  function FreeOffsets(net: Codec, base: nat, s: State, limit: nat): set<int> {
    set o: int | s.nextOffset <= o < limit && At(net, base, o) !in TextsOf(s.proxies)
  }

  function OffsetOf(net: Codec, base: nat, p: Proxy): int {
    if net.IsV6(p.ipv6) then net.parseAddr(p.ipv6).value.v - base else -1
  }

  function OffsetsOf(net: Codec, base: nat, ps: seq<Proxy>): set<int> {
    set p | p in ps :: OffsetOf(net, base, p)
  }

  ghost predicate AscendingOffsets(net: Codec, base: nat, ps: seq<Proxy>) {
    forall i, j :: 0 <= i < j < |ps| ==> OffsetOf(net, base, ps[i]) < OffsetOf(net, base, ps[j])
  }

  // Checkable before the call: even if every stored address is skipped, the 64-bit offset does not wrap.
  predicate NoWrap(s: State) {
    s.nextOffset + 2 * (|s.proxies| + MAX_COUNT) + 2 < U64
  }

  // Every offset in [lo, hi) is an address whose text is used.
  ghost predicate TakenFrom(net: Codec, base: nat, used: set<string>, lo: nat, hi: int) {
    forall o: nat :: lo <= o < hi ==> TakenAt(net, base, used, o)
  }

  lemma TakenFew(net: Codec, base: nat, used: set<string>, lo: nat, hi: nat)
    requires net.Lawful() && lo <= hi <= U64 && |used| < U64
    requires TakenFrom(net, base, used, lo, hi)
    ensures hi - lo <= |used|
  {
    forall j: nat | j < hi - lo
      ensures TakenSlot(net, base, lo, used, j)
    {
      assert TakenAt(net, base, used, lo + j);
    }
    TriedIsFew(net, base, lo, used, hi - lo);
  }

  // What a search from start may answer.
  ghost predicate FirstFree(net: Codec, base: nat, cap: nat, start: nat, used: set<string>, r: Option<Found>) {
    match r
    case Some(f) =>
      && start < f.next <= cap && f.ip == base + (f.next - 1) && f.ip < ADDRESSES
      && At(net, base, f.next - 1) !in used
      && TakenFrom(net, base, used, start, f.next - 1)
    case None => TakenFrom(net, base, used, start, cap)
  }

  // With room below 2^64, Probe stops at the first free offset, or the whole rest of the prefix is used.
  lemma {:induction false} ProbeFirst(net: Codec, base: nat, cap: nat, start: nat, offset: Uint64, used: set<string>,
      tried: nat)
    requires net.Lawful() && base + cap <= ADDRESSES
    requires start + |used| + 1 < U64 && tried <= |used| && offset == start + tried
    requires TakenFrom(net, base, used, start, offset)
    ensures FirstFree(net, base, cap, start, used, Probe(net, base, cap, offset, used, tried))
    decreases |used| + 1 - tried
  {
    if offset < cap && At(net, base, offset) in used {
      TakenFew(net, base, used, start, offset + 1);
      ProbeFirst(net, base, cap, start, offset + 1, used, tried + 1);
    }
  }

  // Everything between the old and the current cursors is stored already or created now.
  ghost predicate Packed(net: Codec, base: nat, cap: nat, s: State, c: Search) {
    && PortsOf(c.created) == FreePorts(s, c.port)
    && OffsetsOf(net, base, c.created) == FreeOffsets(net, base, s, c.offset)
    && AscendingOffsets(net, base, c.created)
    && (forall p :: p in c.created ==> OffsetOf(net, base, p) < c.offset)
    && s.nextOffset <= c.offset && TakenFrom(net, base, c.ips, s.nextOffset, c.offset)
    && (c.created == [] ==> c.port == s.nextPort && c.offset == s.nextOffset)
    && (c.created != [] ==> EndsAt(net, base, cap, c, c.created[|c.created| - 1]))
  }

  ghost predicate EndsAt(net: Codec, base: nat, cap: nat, c: Search, last: Proxy) {
    c.port == last.port + 1 <= LAST_PORT + 1 && c.offset == OffsetOf(net, base, last) + 1 <= cap
  }

  lemma PortsExtend(s: State, c: Search, port: int)
    requires Kept(s, c)
    requires port == NextPort(c.port, c.ports) <= LAST_PORT
    ensures FreePorts(s, port + 1) == FreePorts(s, c.port) + {port}
  {
    forall q | c.port <= q < port
      ensures q in PortsOf(s.proxies)
    {
      assert q in c.ports;
    }
  }

  lemma OffsetAt(net: Codec, base: nat, o: nat, p: Proxy)
    requires net.Lawful() && base + o < ADDRESSES && p.ipv6 == At(net, base, o)
    ensures OffsetOf(net, base, p) == o
  {
    net.FormatCanonical(base + o);
  }

  ghost predicate TakenAt(net: Codec, base: nat, used: set<string>, o: nat) {
    base + o < ADDRESSES && At(net, base, o) in used
  }

  // Above the cursor only stored addresses are in the way: the new ones lie below it.
  lemma OldText(net: Codec, base: nat, cap: nat, s: State, c: Search, o: nat)
    requires net.Lawful() && Kept(s, c) && Packed(net, base, cap, s, c)
    requires c.offset <= o && TakenAt(net, base, c.ips, o)
    ensures TakenAt(net, base, TextsOf(s.proxies), o)
  {
    if At(net, base, o) in TextsOf(c.created) {
      var q :| q in c.created && q.ipv6 == At(net, base, o);
      OffsetAt(net, base, o, q);
    }
  }

  lemma OldTexts(net: Codec, base: nat, cap: nat, s: State, c: Search, hi: int)
    requires net.Lawful() && Kept(s, c) && Packed(net, base, cap, s, c)
    requires TakenFrom(net, base, c.ips, c.offset, hi)
    ensures TakenFrom(net, base, TextsOf(s.proxies), c.offset, hi)
  {
    forall o: nat | c.offset <= o < hi
      ensures TakenAt(net, base, TextsOf(s.proxies), o)
    {
      assert TakenAt(net, base, c.ips, o);
      OldText(net, base, cap, s, c, o);
    }
  }

  lemma OffsetsExtend(net: Codec, base: nat, cap: nat, s: State, c: Search, f: Found)
    requires net.Lawful() && Kept(s, c) && Packed(net, base, cap, s, c)
    requires FirstFree(net, base, cap, c.offset, c.ips, Some(f))
    ensures FreeOffsets(net, base, s, f.next) == FreeOffsets(net, base, s, c.offset) + {f.next - 1}
  {
    OldTexts(net, base, cap, s, c, f.next - 1);
    assert At(net, base, f.next - 1) !in TextsOf(s.proxies);
    forall o: int
      ensures o in FreeOffsets(net, base, s, f.next) <==> o in FreeOffsets(net, base, s, c.offset) + {f.next - 1}
    {
      if c.offset <= o < f.next - 1 {
        assert TakenAt(net, base, TextsOf(s.proxies), o);
      }
    }
  }

  lemma TakenExtend(net: Codec, base: nat, cap: nat, lo: nat, c: Search, f: Found, text: string)
    requires TakenFrom(net, base, c.ips, lo, c.offset) && FirstFree(net, base, cap, c.offset, c.ips, Some(f))
    requires text == net.format(f.ip)
    ensures TakenFrom(net, base, c.ips + {text}, lo, f.next)
  {
    forall o: nat | lo <= o < f.next
      ensures TakenAt(net, base, c.ips + {text}, o)
    {
      assert o != f.next - 1 ==> TakenAt(net, base, c.ips, o);
    }
  }

  lemma PackedStep(net: Codec, base: nat, cap: nat, s: State, c: Search, c': Search, p: Proxy, f: Found)
    requires net.Lawful() && Kept(s, c) && Packed(net, base, cap, s, c)
    requires FirstFree(net, base, cap, c.offset, c.ips, Some(f)) && p.ipv6 == net.format(f.ip)
    requires p.port == NextPort(c.port, c.ports) <= LAST_PORT
    requires c' == Search(p.port + 1, f.next, c.ports + {p.port}, c.ips + {p.ipv6}, c.created + [p])
    ensures Packed(net, base, cap, s, c')
  {
    PortsExtend(s, c, p.port);
    TakenExtend(net, base, cap, s.nextOffset, c, f, p.ipv6);
    OffsetsExtend(net, base, cap, s, c, f);
    OffsetAt(net, base, f.next - 1, p);
    TextsStep(c.created, p);
    OffsetsStep(net, base, c.created, p);
    assert c'.created[|c'.created| - 1] == p;
  }

  lemma OffsetsStep(net: Codec, base: nat, ps: seq<Proxy>, p: Proxy)
    requires AscendingOffsets(net, base, ps)
    requires forall q :: q in ps ==> OffsetOf(net, base, q) < OffsetOf(net, base, p)
    ensures OffsetsOf(net, base, ps + [p]) == OffsetsOf(net, base, ps) + {OffsetOf(net, base, p)}
    ensures AscendingOffsets(net, base, ps + [p])
  {
    assert p in ps + [p];
    assert forall q :: q in ps ==> q in ps + [p];
    assert forall i :: 0 <= i < |ps| ==> ps[i] in ps;
  }

  lemma RoomLeft(net: Codec, base: nat, cap: nat, s: State, c: Search, count: int)
    requires net.Lawful() && Kept(s, c) && Packed(net, base, cap, s, c)
    requires NoWrap(s) && |c.created| < count <= MAX_COUNT
    ensures c.offset + |c.ips| + 1 < U64
  {
    TextsFew(s.proxies);
    TextsFew(c.created);
    TakenFew(net, base, c.ips, s.nextOffset, c.offset);
  }

  // Where the outer loop can end: count proxies, or a supply that is used up.
  ghost predicate Outcome(net: Codec, base: nat, cap: nat, s: State, opts: Options, entropy: Entropy,
      r: Result<Search, AllocError>) {
    match r
    case Ok(c) => Kept(s, c) && Packed(net, base, cap, s, c) && |c.created| == opts.count
    case Err(NoPorts) => |FreePorts(s, LAST_PORT + 1)| < opts.count
    case Err(NoAddresses) => |FreeOffsets(net, base, s, cap)| < opts.count
    case Err(NoEntropy) => exists k: nat :: k < opts.count && Credentials(opts, entropy, k).None?
    case Err(_) => false
  }

  lemma {:induction false} PortsFew(ps: seq<Proxy>)
    ensures |PortsOf(ps)| <= |ps|
    ensures AscendingPorts(ps) ==> |PortsOf(ps)| == |ps|
  {
    if ps == [] {
      assert PortsOf(ps) == {};
    } else {
      var n := |ps| - 1;
      PortsFew(ps[..n]);
      assert ps == ps[..n] + [ps[n]];
      TextsStep(ps[..n], ps[n]);
    }
  }

  lemma {:induction false} AscendingSet(xs: seq<int>)
    requires forall i, j :: 0 <= i < j < |xs| ==> xs[i] < xs[j]
    ensures |set x | x in xs| == |xs|
  {
    if xs != [] {
      var n := |xs| - 1;
      AscendingSet(xs[..n]);
      assert xs == xs[..n] + [xs[n]];
      assert (set x | x in xs) == (set x | x in xs[..n]) + {xs[n]};
    }
  }

  lemma OffsetsFew(net: Codec, base: nat, ps: seq<Proxy>)
    requires AscendingOffsets(net, base, ps)
    ensures |OffsetsOf(net, base, ps)| == |ps|
  {
    var xs := seq(|ps|, i requires 0 <= i < |ps| => OffsetOf(net, base, ps[i]));
    AscendingSet(xs);
    assert OffsetsOf(net, base, ps) == set x | x in xs by {
      assert forall i :: 0 <= i < |ps| ==> xs[i] in xs && ps[i] in ps;
    }
  }

  lemma OutOfPorts(net: Codec, base: nat, cap: nat, s: State, c: Search)
    requires Kept(s, c) && Packed(net, base, cap, s, c)
    requires NextPort(c.port, c.ports) > LAST_PORT
    ensures |FreePorts(s, LAST_PORT + 1)| <= |c.created|
  {
    forall q | q in FreePorts(s, LAST_PORT + 1)
      ensures q in PortsOf(c.created)
    {
      if q >= c.port {
        assert q in c.ports;
      } else {
        assert q in FreePorts(s, c.port);
      }
    }
    SubsetSize(FreePorts(s, LAST_PORT + 1), PortsOf(c.created));
    PortsFew(c.created);
  }

  lemma OutOfAddresses(net: Codec, base: nat, cap: nat, s: State, c: Search)
    requires net.Lawful() && Kept(s, c) && Packed(net, base, cap, s, c)
    requires FirstFree(net, base, cap, c.offset, c.ips, None)
    ensures |FreeOffsets(net, base, s, cap)| <= |c.created|
  {
    OldTexts(net, base, cap, s, c, cap);
    var all := FreeOffsets(net, base, s, cap);
    forall o | o in all
      ensures o in OffsetsOf(net, base, c.created)
    {
      assert o >= c.offset ==> TakenAt(net, base, TextsOf(s.proxies), o);
      assert o in FreeOffsets(net, base, s, c.offset);
    }
    SubsetSize(all, OffsetsOf(net, base, c.created));
    OffsetsFew(net, base, c.created);
  }

  lemma {:induction false} TurnsEnd(net: Codec, base: nat, cap: nat, s: State, opts: Options, entropy: Entropy,
      c: Search)
    requires net.Lawful() && base + cap <= ADDRESSES
    requires NoWrap(s) && |c.created| <= opts.count <= MAX_COUNT
    requires Kept(s, c) && Sound(net, base, cap, s, c) && Packed(net, base, cap, s, c)
    ensures Outcome(net, base, cap, s, opts, entropy, Turns(net, base, cap, s.publicIPv4, opts, entropy, c))
    decreases opts.count - |c.created|
  {
    if |c.created| < opts.count {
      RoomLeft(net, base, cap, s, c, opts.count);
      ProbeFirst(net, base, cap, c.offset, c.offset, c.ips, 0);
      TurnSound(net, base, cap, s, opts, entropy, c);
      match Turn(net, base, cap, s.publicIPv4, opts, entropy, c)
      case Err(e) => TurnFails(net, base, cap, s, opts, entropy, c);
      case Ok(c') =>
        var p, f := TurnGives(net, base, cap, s.publicIPv4, opts, entropy, c);
        PackedStep(net, base, cap, s, c, c', p, f);
        TurnsEnd(net, base, cap, s, opts, entropy, c');
    }
  }

  lemma TurnFails(net: Codec, base: nat, cap: nat, s: State, opts: Options, entropy: Entropy, c: Search)
    requires net.Lawful() && base + cap <= ADDRESSES && |c.created| < opts.count
    requires Kept(s, c) && Packed(net, base, cap, s, c)
    requires FirstFree(net, base, cap, c.offset, c.ips, Probe(net, base, cap, c.offset, c.ips, 0))
    requires Turn(net, base, cap, s.publicIPv4, opts, entropy, c).Err?
    ensures Outcome(net, base, cap, s, opts, entropy, Err(Turn(net, base, cap, s.publicIPv4, opts, entropy, c).error))
  {
    if NextPort(c.port, c.ports) > LAST_PORT {
      OutOfPorts(net, base, cap, s, c);
    } else if Probe(net, base, cap, c.offset, c.ips, 0).None? {
      OutOfAddresses(net, base, cap, s, c);
    } else {
      assert Credentials(opts, entropy, |c.created|).None?;
    }
  }

  lemma StartPacked(net: Codec, base: nat, cap: nat, s: State)
    ensures Sound(net, base, cap, s, Start(s)) && Packed(net, base, cap, s, Start(s))
  {
    assert TextsOf([]) == {} && PortsOf([]) == {} && OffsetsOf(net, base, []) == {};
    assert FreePorts(s, s.nextPort) == {} && FreeOffsets(net, base, s, s.nextOffset) == {};
  }

  lemma AllocatedEnds(net: Codec, s: State, opts: Options, entropy: Entropy, prefix: Prefix)
    requires net.Lawful() && NoWrap(s)
    requires CheckOptions(opts).None? && RoutedPrefix(net, s) && prefix == net.parsePrefix(s.prefix).value
    requires Masked(prefix) + Capacity(prefix) <= ADDRESSES
    ensures Outcome(net, Masked(prefix), Capacity(prefix), s, opts, entropy,
                    Turns(net, Masked(prefix), Capacity(prefix), s.publicIPv4, opts, entropy, Start(s)))
  {
    StartPacked(net, Masked(prefix), Capacity(prefix), s);
    TurnsEnd(net, Masked(prefix), Capacity(prefix), s, opts, entropy, Start(s));
  }

  // The new proxies of an Allocate from s to s' are the first that fit a prefix with this base and capacity.
  ghost predicate IsFirstFit(net: Codec, base: nat, cap: nat, s: State, s': State, created: seq<Proxy>)
  {
    && created != [] && AscendingPorts(created) && AscendingOffsets(net, base, created)
    && PortsOf(created) == FreePorts(s, s'.nextPort)
    && OffsetsOf(net, base, created) == FreeOffsets(net, base, s, s'.nextOffset)
    && var last := created[|created| - 1];
       s'.nextPort == last.port + 1 && s'.nextOffset == OffsetOf(net, base, last) + 1 <= cap
  }

  // First fit: the new ports are exactly the unused ones passed over, in order, and likewise the new
  // addresses, and each cursor ends just past the last one taken. So they are the smallest that were free.
  lemma TakesTheFirst(net: Codec, s: State, opts: Options, entropy: Entropy)
    requires net.Lawful() && NoWrap(s) && Allocated(net, s, opts, entropy).Ok?
    ensures var (s', created) := Allocated(net, s, opts, entropy).value;
            var prefix := net.parsePrefix(s.prefix).value;
            |created| == opts.count && IsFirstFit(net, Masked(prefix), Capacity(prefix), s, s', created)
  {
    PrefixRoom(net.parsePrefix(s.prefix).value);
    AllocatedEnds(net, s, opts, entropy, net.parsePrefix(s.prefix).value);
  }

  predicate GoodEntropy(entropy: Entropy, count: int) {
    forall k: nat :: k < 2 * count ==> entropy(k).Some?
  }

  lemma GoodCredentials(opts: Options, entropy: Entropy, k: nat)
    requires k < opts.count && (opts.mode == "random" ==> GoodEntropy(entropy, opts.count))
    ensures Credentials(opts, entropy, k).Some?
  {
    if opts.mode == "random" {
      assert entropy(2 * k).Some? && entropy(2 * k + 1).Some?;
    }
  }

  // With valid options, a routed prefix and, for random credentials, a working random source, Allocate succeeds exactly
  // when there are count free ports below 65535 and count free addresses at or after the cursors.
  lemma SuppliesDecide(net: Codec, s: State, opts: Options, entropy: Entropy)
    requires net.Lawful() && NoWrap(s)
    requires CheckOptions(opts).None? && RoutedPrefix(net, s)
    requires opts.mode == "random" ==> GoodEntropy(entropy, opts.count)
    ensures var prefix := net.parsePrefix(s.prefix).value;
            Allocated(net, s, opts, entropy).Ok? <==>
              && |FreePorts(s, 65535)| >= opts.count
              && |FreeOffsets(net, Masked(prefix), s, Capacity(prefix))| >= opts.count
  {
    var prefix := net.parsePrefix(s.prefix).value;
    PrefixRoom(prefix);
    AllocatedEnds(net, s, opts, entropy, prefix);
    match Turns(net, Masked(prefix), Capacity(prefix), s.publicIPv4, opts, entropy, Start(s))
    case Ok(c) => Enough(net, Masked(prefix), Capacity(prefix), s, c);
    case Err(e) =>
      forall k: nat | k < opts.count
        ensures Credentials(opts, entropy, k).Some?
      {
        GoodCredentials(opts, entropy, k);
      }
  }

  lemma Enough(net: Codec, base: nat, cap: nat, s: State, c: Search)
    requires Kept(s, c) && Packed(net, base, cap, s, c) && c.created != []
    ensures |FreePorts(s, LAST_PORT + 1)| >= |c.created|
    ensures |FreeOffsets(net, base, s, cap)| >= |c.created|
  {
    PortsFew(c.created);
    OffsetsFew(net, base, c.created);
    SubsetSize(FreePorts(s, c.port), FreePorts(s, LAST_PORT + 1));
    SubsetSize(FreeOffsets(net, base, s, c.offset), FreeOffsets(net, base, s, cap));
  }
}
