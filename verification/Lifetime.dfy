// How long the supplies last and which addresses come back, over every run.
module Lifetime {
  import opened Model
  import opened Netip
  import opened Config
  import opened Store
  import opened Lists
  import opened Health
  import opened AddOffset
  import opened Allocate
  import opened AllocateLaws
  import opened FirstFit
  import opened History

  // How many proxies a change creates.
  function Made(net: Codec, s: State, c: Change): nat
    requires net.Lawful()
  {
    if c.Created? && Allocated(net, s, c.opts, c.entropy).Ok? then |Allocated(net, s, c.opts, c.entropy).value.1| else 0
  }

  function AllMade(net: Codec, s: State, cs: seq<Change>): nat
    requires net.Lawful()
  {
    if cs == [] then 0
    else AllMade(net, s, cs[..|cs| - 1]) + Made(net, Run(net, s, cs[..|cs| - 1]), cs[|cs| - 1])
  }

  // Every address text that was stored at some point of the run.
  function Ever(net: Codec, s: State, cs: seq<Change>): set<string>
    requires net.Lawful()
  {
    if cs == [] then TextsOf(s.proxies) else Ever(net, s, cs[..|cs| - 1]) + TextsOf(Run(net, s, cs).proxies)
  }

  lemma MadeBound(net: Codec, s: State, c: Change)
    requires net.Lawful()
    ensures var s' := After(net, s, c);
            && s.nextPort + Made(net, s, c) <= s'.nextPort
            && (Made(net, s, c) > 0 ==> s'.nextPort <= LAST_PORT + 1)
            && |s'.proxies| <= |s.proxies| + Made(net, s, c)
            && |TextsOf(s'.proxies) - TextsOf(s.proxies)| <= Made(net, s, c)
  {
    ChangeKeeps(net, s, c);
    if c.Created? {
      if Allocated(net, s, c.opts, c.entropy).Ok? {
        CreationKeeps(net, s, c.opts, c.entropy);
        AllocatedFresh(net, s, c.opts, c.entropy);
        var created := Allocated(net, s, c.opts, c.entropy).value.1;
        TextsFew(created);
        SubsetSize(TextsOf(After(net, s, c).proxies) - TextsOf(s.proxies), TextsOf(created));
      } else {
        assert TextsOf(s.proxies) - TextsOf(s.proxies) == {};
      }
    } else {
      var at := ChangeDescends(net, s, c);
      DescendsShorter(s.proxies, After(net, s, c).proxies, at);
      DescendsTexts(net, s.proxies, After(net, s, c).proxies, at);
      assert TextsOf(After(net, s, c).proxies) - TextsOf(s.proxies) == {};
    }
  }

  lemma DescendsTexts(net: Codec, ps: seq<Proxy>, qs: seq<Proxy>, at: seq<int>)
    requires Descends(ps, qs, at)
    ensures TextsOf(qs) <= TextsOf(ps)
  {
    DescendsKeep(net, ps, qs, at);
    forall t | t in TextsOf(qs)
      ensures t in TextsOf(ps)
    {
      var q :| q in qs && q.ipv6 == t;
      var p :| p in ps && Id(p) == Id(q);
    }
  }

  lemma {:induction false} AscendingBelow(at: seq<int>, n: nat)
    requires forall j, k :: 0 <= j < k < |at| ==> at[j] < at[k]
    requires forall k :: 0 <= k < |at| ==> 0 <= at[k] < n
    ensures |at| <= n
  {
    if at != [] {
      var m := |at| - 1;
      AscendingBelow(at[..m], at[m]);
    }
  }

  lemma DescendsShorter(ps: seq<Proxy>, qs: seq<Proxy>, at: seq<int>)
    requires Descends(ps, qs, at)
    ensures |qs| <= |ps|
  {
    AscendingBelow(at, |ps|);
  }

  // The ports from the cursor to the last port.
  function PortsLeft(s: State): nat {
    if s.nextPort <= 65534 then 65535 - s.nextPort else 0
  }

  // At most as many proxies are ever created as there are ports left.
  lemma {:induction false} PortsLast(net: Codec, s: State, cs: seq<Change>)
    requires net.Lawful()
    ensures var n := AllMade(net, s, cs);
            && s.nextPort + n <= Run(net, s, cs).nextPort
            && n <= PortsLeft(s)
            && |Run(net, s, cs).proxies| <= |s.proxies| + n
            && |Ever(net, s, cs) - TextsOf(s.proxies)| <= n
            && TextsOf(s.proxies) <= Ever(net, s, cs)
            && TextsOf(Run(net, s, cs).proxies) <= Ever(net, s, cs)
  {
    if cs == [] {
      assert TextsOf(s.proxies) - TextsOf(s.proxies) == {};
    } else {
      var before, c := cs[..|cs| - 1], cs[|cs| - 1];
      PortsLast(net, s, before);
      var s1 := Run(net, s, before);
      MadeBound(net, s1, c);
      var first, e, t := TextsOf(s.proxies), Ever(net, s, before), TextsOf(Run(net, s, cs).proxies);
      SubsetSize(e + t - first, (e - first) + (t - TextsOf(s1.proxies)));
    }
  }

  lemma EverFew(net: Codec, s: State, cs: seq<Change>)
    requires net.Lawful()
    ensures |Ever(net, s, cs)| <= |s.proxies| + AllMade(net, s, cs)
  {
    PortsLast(net, s, cs);
    TextsFew(s.proxies);
    assert Ever(net, s, cs) == TextsOf(s.proxies) + (Ever(net, s, cs) - TextsOf(s.proxies));
  }

  // ---- the address cursor ----

  // Checkable on the initial state: far enough from 2^64 for every port to be used.
  predicate FarFromWrap(s: State) {
    s.nextOffset + 3 * (|s.proxies| + PortsLeft(s) + MAX_COUNT) + 2 < U64
  }

  lemma FirstFitTakes(net: Codec, base: nat, cap: nat, s: State, s': State, created: seq<Proxy>)
    requires net.Lawful() && base + cap <= ADDRESSES && IsFirstFit(net, base, cap, s, s', created)
    requires forall p :: p in created ==> net.Canonical(p.ipv6)
    ensures s.nextOffset < s'.nextOffset
    ensures TakenFrom(net, base, TextsOf(s.proxies) + TextsOf(created), s.nextOffset, s'.nextOffset)
  {
    forall o: nat | s.nextOffset <= o < s'.nextOffset
      ensures TakenAt(net, base, TextsOf(s.proxies) + TextsOf(created), o)
    {
      if At(net, base, o) !in TextsOf(s.proxies) {
        assert o in FreeOffsets(net, base, s, s'.nextOffset);
        var p :| p in created && OffsetOf(net, base, p) == o;
      }
    }
    var last := created[|created| - 1];
    assert last in created && OffsetOf(net, base, last) in OffsetsOf(net, base, created);
    assert OffsetOf(net, base, last) in FreeOffsets(net, base, s, s'.nextOffset);
  }

  // One creation: the cursor only moves over addresses that were stored or are now.
  lemma CreationTakes(net: Codec, s: State, opts: Options, entropy: Entropy, ever: set<string>)
    requires net.Lawful() && NoWrap(s) && Allocated(net, s, opts, entropy).Ok? && TextsOf(s.proxies) <= ever
    ensures var s' := After(net, s, Created(opts, entropy));
            var base := Masked(net.parsePrefix(s.prefix).value);
            && s.nextOffset < s'.nextOffset
            && TakenFrom(net, base, ever + TextsOf(s'.proxies), s.nextOffset, s'.nextOffset)
  {
    var p := net.parsePrefix(s.prefix).value;
    PrefixRoom(p);
    TakesTheFirst(net, s, opts, entropy);
    AllocatedFresh(net, s, opts, entropy);
    var (s1, created) := Allocated(net, s, opts, entropy).value;
    FirstFitTakes(net, Masked(p), Capacity(p), s, s1, created);
    var s' := After(net, s, Created(opts, entropy));
    assert forall q :: q in created ==> q in s'.proxies;
    forall o: nat | s.nextOffset <= o < s'.nextOffset
      ensures TakenAt(net, Masked(p), ever + TextsOf(s'.proxies), o)
    {
      assert TakenAt(net, Masked(p), TextsOf(s.proxies) + TextsOf(created), o);
    }
  }

  lemma TakenChain(net: Codec, base: nat, small: set<string>, big: set<string>, lo: nat, mid: nat, hi: nat)
    requires TakenFrom(net, base, small, lo, mid) && TakenFrom(net, base, big, mid, hi) && small <= big
    ensures TakenFrom(net, base, big, lo, hi)
  {
    forall o: nat | lo <= o < hi
      ensures TakenAt(net, base, big, o)
    {
      assert o < mid ==> TakenAt(net, base, small, o);
    }
  }

  // Over every run the address cursor never goes back and only passes addresses that were stored at some point,
  // so it stays within the first proxies plus one per port: the 64-bit offset never wraps.
  lemma {:induction false} OffsetsLast(net: Codec, s: State, cs: seq<Change>)
    requires net.Lawful() && s.nextOffset > 0 && RoutedPrefix(net, s) && FarFromWrap(s)
    ensures var s' := Run(net, s, cs);
            && s.nextOffset <= s'.nextOffset <= s.nextOffset + |s.proxies| + AllMade(net, s, cs)
            && TakenFrom(net, Masked(net.parsePrefix(s.prefix).value), Ever(net, s, cs), s.nextOffset, s'.nextOffset)
            && NoWrap(s')
  {
    PortsLast(net, s, cs);
    EverFew(net, s, cs);
    EveryRunKeeps(net, s, cs);
    var base := Masked(net.parsePrefix(s.prefix).value);
    if cs != [] {
      var before, c := cs[..|cs| - 1], cs[|cs| - 1];
      OffsetsLast(net, s, before);
      PortsLast(net, s, before);
      EveryRunKeeps(net, s, before);
      var s1, s' := Run(net, s, before), Run(net, s, cs);
      if c.Created? && Allocated(net, s1, c.opts, c.entropy).Ok? {
        CreationTakes(net, s1, c.opts, c.entropy, Ever(net, s, before));
      } else if !c.Created? {
        var at := ChangeDescends(net, s1, c);
      }
      assert s1.nextOffset <= s'.nextOffset;
      assert TakenFrom(net, base, Ever(net, s, cs), s1.nextOffset, s'.nextOffset);
      TakenChain(net, base, Ever(net, s, before), Ever(net, s, cs), s.nextOffset, s1.nextOffset, s'.nextOffset);
    }
    TakenFew(net, base, Ever(net, s, cs), s.nextOffset, Run(net, s, cs).nextOffset);
  }

  // ---- which addresses come back ----

  // Behind the cursor, or outside the prefix: no later creation can reach it.
  predicate Passed(net: Codec, s: State, p: Proxy)
    requires net.Lawful() && RoutedPrefix(net, s)
  {
    var prefix := net.parsePrefix(s.prefix).value;
    var o := OffsetOf(net, Masked(prefix), p);
    o < s.nextOffset || o >= Capacity(prefix)
  }

  // The address lies behind the cursor, and whoever has it, under whatever text, is this proxy.
  ghost predicate OwnsAddress(net: Codec, p: Proxy, s: State)
    requires net.Lawful() && RoutedPrefix(net, s)
  {
    Passed(net, s, p) && forall q :: q in s.proxies && net.Canon(q.ipv6) == net.Canon(p.ipv6) ==> Id(q) == Id(p)
  }

  lemma NewAddressesAreAhead(net: Codec, s: State, opts: Options, entropy: Entropy, p: Proxy)
    requires net.Lawful() && NoWrap(s) && Allocated(net, s, opts, entropy).Ok? && p in Allocated(net, s, opts, entropy).value.1
    ensures var prefix := net.parsePrefix(s.prefix).value;
            s.nextOffset <= OffsetOf(net, Masked(prefix), p) < Allocated(net, s, opts, entropy).value.0.nextOffset
    ensures !Passed(net, s, p)
  {
    TakesTheFirst(net, s, opts, entropy);
    var prefix := net.parsePrefix(s.prefix).value;
    var (s', created) := Allocated(net, s, opts, entropy).value;
    assert OffsetOf(net, Masked(prefix), p) in OffsetsOf(net, Masked(prefix), created);
    assert OffsetOf(net, Masked(prefix), p) in FreeOffsets(net, Masked(prefix), s, s'.nextOffset);
  }

  // One address has one place in a prefix, whatever the text.
  lemma SameOffset(net: Codec, base: nat, p: Proxy, q: Proxy)
    requires net.Lawful() && net.Canonical(q.ipv6) && net.Canon(p.ipv6) == q.ipv6
    ensures net.ZoneFreeV6(p.ipv6) && OffsetOf(net, base, p) == OffsetOf(net, base, q)
  {
    if net.ZoneFreeV6(p.ipv6) {
      net.FormatInjective(net.parseAddr(p.ipv6).value.v, net.parseAddr(q.ipv6).value.v);
    }
  }

  lemma OwnsAddressKept(net: Codec, s: State, c: Change, p: Proxy)
    requires net.Lawful() && RoutedPrefix(net, s) && NoWrap(s) && OwnsAddress(net, p, s)
    requires s.nextOffset <= After(net, s, c).nextOffset
    ensures RoutedPrefix(net, After(net, s, c)) && OwnsAddress(net, p, After(net, s, c))
  {
    ChangeKeeps(net, s, c);
    var s' := After(net, s, c);
    if c.Created? {
      if Allocated(net, s, c.opts, c.entropy).Ok? {
        AllocatedFresh(net, s, c.opts, c.entropy);
        forall q | q in s'.proxies && net.Canon(q.ipv6) == net.Canon(p.ipv6)
          ensures Id(q) == Id(p)
        {
          if q !in s.proxies {
            NewAddressesAreAhead(net, s, c.opts, c.entropy, q);
            SameOffset(net, Masked(net.parsePrefix(s.prefix).value), p, q);
          }
        }
      }
    } else {
      var at := ChangeDescends(net, s, c);
      DescendsKeep(net, s.proxies, s'.proxies, at);
    }
  }

  lemma {:induction false} OwnsAddressForever(net: Codec, s: State, cs: seq<Change>, p: Proxy)
    requires net.Lawful() && s.nextOffset > 0 && RoutedPrefix(net, s) && FarFromWrap(s) && OwnsAddress(net, p, s)
    ensures RoutedPrefix(net, Run(net, s, cs)) && OwnsAddress(net, p, Run(net, s, cs))
  {
    if cs != [] {
      var before, c := cs[..|cs| - 1], cs[|cs| - 1];
      OwnsAddressForever(net, s, before, p);
      OffsetsLast(net, s, before);
      CursorMoves(net, Run(net, s, before), c);
      OwnsAddressKept(net, Run(net, s, before), c, p);
    }
  }

  lemma CursorMoves(net: Codec, s: State, c: Change)
    requires net.Lawful() && RoutedPrefix(net, s) && NoWrap(s)
    ensures s.nextOffset <= After(net, s, c).nextOffset
  {
    if c.Created? {
      if Allocated(net, s, c.opts, c.entropy).Ok? {
        CreationTakes(net, s, c.opts, c.entropy, TextsOf(s.proxies));
      }
    } else {
      var at := ChangeDescends(net, s, c);
    }
  }

  // A stored address behind the cursor, which every allocated one is, belongs to its proxy for ever if no other stored
  // proxy has it: no later proxy gets it under any text, even after its own was deleted.
  lemma AddressNeverReused(net: Codec, s: State, cs: seq<Change>, p: Proxy, q: Proxy)
    requires net.Lawful() && s.nextOffset > 0 && RoutedPrefix(net, s) && FarFromWrap(s)
    requires p in s.proxies && OwnsAddress(net, p, s)
    requires q in Run(net, s, cs).proxies && net.Canon(q.ipv6) == net.Canon(p.ipv6)
    ensures Id(q) == Id(p)
  {
    OwnsAddressForever(net, s, cs, p);
  }

  // Where stored texts are distinct and canonical, every address behind the cursor has one owner.
  lemma AddressesOwned(net: Codec, s: State, p: Proxy)
    requires net.Lawful() && RoutedPrefix(net, s) && DistinctTexts(s.proxies) && CanonicalSet(net, s.proxies)
    requires p in s.proxies && Passed(net, s, p)
    ensures OwnsAddress(net, p, s)
  {
    forall q | q in s.proxies && net.Canon(q.ipv6) == net.Canon(p.ipv6)
      ensures Id(q) == Id(p)
    {
      var i :| 0 <= i < |s.proxies| && s.proxies[i] == p;
      var j :| 0 <= j < |s.proxies| && s.proxies[j] == q;
      assert i == j;
    }
  }

  lemma AmongCreated(net: Codec, base: nat, cap: nat, s: State, s': State, created: seq<Proxy>, p: Proxy)
    requires net.Lawful() && base + cap <= ADDRESSES && IsFirstFit(net, base, cap, s, s', created)
    requires net.Canonical(p.ipv6) && p.ipv6 !in TextsOf(s.proxies) && forall q :: q in created ==> net.Canonical(q.ipv6)
    ensures p.ipv6 in TextsOf(created) <==> s.nextOffset <= OffsetOf(net, base, p) < s'.nextOffset
  {
    var o := OffsetOf(net, base, p);
    if p.ipv6 in TextsOf(created) {
      var q :| q in created && q.ipv6 == p.ipv6;
      assert o in OffsetsOf(net, base, created);
      assert o in FreeOffsets(net, base, s, s'.nextOffset);
    }
    if s.nextOffset <= o < s'.nextOffset {
      assert p.ipv6 == At(net, base, o);
      assert o in FreeOffsets(net, base, s, s'.nextOffset);
      var q :| q in created && OffsetOf(net, base, q) == o;
      assert q.ipv6 == p.ipv6;
    }
  }

  lemma CountDecides(net: Codec, base: nat, s: State, hi: nat, o: nat)
    requires s.nextOffset <= o && At(net, base, o) !in TextsOf(s.proxies)
    ensures o < hi <==> |FreeOffsets(net, base, s, o)| < |FreeOffsets(net, base, s, hi)|
  {
    if o < hi {
      FewerBelow(net, base, s, o, hi);
    } else {
      SubsetSize(FreeOffsets(net, base, s, hi), FreeOffsets(net, base, s, o));
    }
  }

  lemma FewerBelow(net: Codec, base: nat, s: State, o: nat, hi: nat)
    requires s.nextOffset <= o < hi && At(net, base, o) !in TextsOf(s.proxies)
    ensures |FreeOffsets(net, base, s, o)| < |FreeOffsets(net, base, s, hi)|
  {
    SubsetSize(FreeOffsets(net, base, s, o), FreeOffsets(net, base, s, hi) - {o});
    assert o in FreeOffsets(net, base, s, hi);
  }

  // Among the first free addresses are those that fewer free ones come before.
  lemma AmongFirst(net: Codec, base: nat, cap: nat, s: State, s': State, created: seq<Proxy>, p: Proxy)
    requires net.Lawful() && base + cap <= ADDRESSES && IsFirstFit(net, base, cap, s, s', created)
    requires net.Canonical(p.ipv6) && p.ipv6 !in TextsOf(s.proxies) && forall q :: q in created ==> net.Canonical(q.ipv6)
    ensures var o := OffsetOf(net, base, p);
            p.ipv6 in TextsOf(created) <==> s.nextOffset <= o < cap && |FreeOffsets(net, base, s, o)| < |created|
  {
    hide TextsOf, FreeOffsets;
    var o := OffsetOf(net, base, p);
    OffsetsFew(net, base, created);
    AmongCreated(net, base, cap, s, s', created, p);
    if s.nextOffset <= o < cap {
      assert p.ipv6 == At(net, base, o);
      CountDecides(net, base, s, s'.nextOffset, o);
    }
  }

  lemma CanonicalReused(net: Codec, s: State, opts: Options, entropy: Entropy, p: Proxy)
    requires net.Lawful() && NoWrap(s) && Allocated(net, s, opts, entropy).Ok?
    requires net.Canonical(p.ipv6) && p.ipv6 !in TextsOf(s.proxies)
    ensures var base := Masked(net.parsePrefix(s.prefix).value);
            p.ipv6 in TextsOf(Allocated(net, s, opts, entropy).value.1) <==>
              !Passed(net, s, p) && |FreeOffsets(net, base, s, OffsetOf(net, base, p))| < opts.count
  {
    hide TextsOf, FreeOffsets, IsFirstFit, OffsetOf;
    TakesTheFirst(net, s, opts, entropy);
    AllocatedFresh(net, s, opts, entropy);
    var prefix := net.parsePrefix(s.prefix).value;
    PrefixRoom(prefix);
    var (s', created) := Allocated(net, s, opts, entropy).value;
    assert forall q :: q in created ==> net.Canonical(q.ipv6);
    AmongFirst(net, Masked(prefix), Capacity(prefix), s, s', created, p);
  }

  // The same proxy with its address in the kernel's words.
  function Rewritten(net: Codec, p: Proxy): Proxy {
    p.(ipv6 := net.Canon(p.ipv6))
  }

  lemma RewrittenIsCanonical(net: Codec, p: Proxy)
    requires net.Lawful() && net.ZoneFreeV6(p.ipv6)
    ensures net.Canonical(Rewritten(net, p).ipv6)
    ensures forall base: nat :: OffsetOf(net, base, Rewritten(net, p)) == OffsetOf(net, base, p)
  {
    net.FormatCanonical(net.parseAddr(p.ipv6).value.v);
  }

  // The address of any proxy p, stored or deleted, is handed to the next created proxies exactly when no stored proxy
  // has it as its text in canonical form, it is ahead of the cursor, and fewer than count free addresses come before
  // it. So an imported address can come back once its proxy is deleted, and one that is stored under a text that is not
  // canonical even while its proxy is stored.
  lemma ReusedExactlyWhen(net: Codec, s: State, opts: Options, entropy: Entropy, p: Proxy)
    requires net.Lawful() && NoWrap(s) && Allocated(net, s, opts, entropy).Ok? && net.ZoneFreeV6(p.ipv6)
    ensures var base := Masked(net.parsePrefix(s.prefix).value);
            net.Canon(p.ipv6) in TextsOf(Allocated(net, s, opts, entropy).value.1) <==>
              && net.Canon(p.ipv6) !in TextsOf(s.proxies)
              && !Passed(net, s, p) && |FreeOffsets(net, base, s, OffsetOf(net, base, p))| < opts.count
  {
    hide Passed, OffsetOf;
    RewrittenIsCanonical(net, p);
    SamePlace(net, s, p);
    if net.Canon(p.ipv6) in TextsOf(s.proxies) {
      AllocatedFresh(net, s, opts, entropy);
    } else {
      CanonicalReused(net, s, opts, entropy, Rewritten(net, p));
    }
  }

  lemma SamePlace(net: Codec, s: State, p: Proxy)
    requires net.Lawful() && RoutedPrefix(net, s) && net.ZoneFreeV6(p.ipv6)
    ensures Passed(net, s, Rewritten(net, p)) == Passed(net, s, p)
  {
    RewrittenIsCanonical(net, p);
  }

  // ---- which addresses can come back at all ----

  lemma PickOne<T>(s: set<T>) returns (x: T)
    requires s != {}
    ensures x in s
  {
    x :| x in s;
  }

  lemma {:induction false} OffsetsFit(net: Codec, base: nat, offsets: set<int>, texts: set<string>)
    requires net.Lawful()
    requires forall o :: o in offsets ==> 0 <= o
    requires forall o: nat :: o in offsets ==> TakenAt(net, base, texts, o)
    ensures |offsets| <= |texts|
  {
    if offsets != {} {
      var x := PickOne(offsets);
      assert x in offsets;
      var text := At(net, base, x);
      forall o: nat | o in offsets - {x}
        ensures TakenAt(net, base, texts - {text}, o)
      {
        assert TakenAt(net, base, texts, o);
        if At(net, base, o) == text {
          net.FormatInjective(base + o, base + x);
        }
      }
      OffsetsFit(net, base, offsets - {x}, texts - {text});
    }
  }

  // A cursor that has passed an address has passed everything free before it.
  lemma TextsPassed(net: Codec, base: nat, s: State, used: set<string>, hi: nat, p: Proxy)
    requires net.Lawful() && net.ZoneFreeV6(p.ipv6) && net.Canon(p.ipv6) !in TextsOf(s.proxies)
    requires s.nextOffset <= OffsetOf(net, base, p) < hi && TakenFrom(net, base, used, s.nextOffset, hi)
    ensures |FreeOffsets(net, base, s, OffsetOf(net, base, p))| < |used - TextsOf(s.proxies)|
  {
    var o: nat := OffsetOf(net, base, p);
    assert At(net, base, o) == net.Canon(p.ipv6);
    FewerBelow(net, base, s, o, o + 1);
    forall i: nat | i in FreeOffsets(net, base, s, o + 1)
      ensures TakenAt(net, base, used - TextsOf(s.proxies), i)
    {
      assert TakenAt(net, base, used, i);
    }
    OffsetsFit(net, base, FreeOffsets(net, base, s, o + 1), used - TextsOf(s.proxies));
  }

  // The step of a run at which a text is stored that was not stored before is a creation.
  lemma OnlyCreated(net: Codec, s: State, c: Change, text: string) returns (q: Proxy)
    requires net.Lawful() && text !in TextsOf(s.proxies) && text in TextsOf(After(net, s, c).proxies)
    ensures c.Created? && Allocated(net, s, c.opts, c.entropy).Ok?
    ensures q in Allocated(net, s, c.opts, c.entropy).value.1 && q.ipv6 == text
  {
    q :| q in After(net, s, c).proxies && q.ipv6 == text;
    if c.Created? {
      if Allocated(net, s, c.opts, c.entropy).Ok? {
        AllocatedFresh(net, s, c.opts, c.entropy);
      }
    } else {
      var at := ChangeDescends(net, s, c);
      DescendsTexts(net, s.proxies, After(net, s, c).proxies, at);
      assert false;
    }
  }

  // A run that stores the address again has created a proxy for every free address before it, and one more.
  lemma {:induction false} StoredOnlyIf(net: Codec, s: State, cs: seq<Change>, p: Proxy)
    requires net.Lawful() && s.nextOffset > 0 && RoutedPrefix(net, s) && FarFromWrap(s)
    requires net.Canon(p.ipv6) !in TextsOf(s.proxies) && net.Canon(p.ipv6) in TextsOf(Run(net, s, cs).proxies)
    ensures var base := Masked(net.parsePrefix(s.prefix).value);
            !Passed(net, s, p) && |FreeOffsets(net, base, s, OffsetOf(net, base, p))| < PortsLeft(s)
  {
    hide AlignDown, Pow2, NoWrap, FarFromWrap, Allocated, TakenFrom, FreeOffsets, PortsKept, CanonicalSet, DistinctTexts;
    var before, c := cs[..|cs| - 1], cs[|cs| - 1];
    var s1 := Run(net, s, before);
    if net.Canon(p.ipv6) in TextsOf(s1.proxies) {
      StoredOnlyIf(net, s, before, p);
    } else {
      var base := Masked(net.parsePrefix(s.prefix).value);
      OffsetsLast(net, s, before);
      OffsetsLast(net, s, cs);
      PortsLast(net, s, cs);
      EveryRunKeeps(net, s, before);
      var q := OnlyCreated(net, s1, c, net.Canon(p.ipv6));
      NewAddressesAreAhead(net, s1, c.opts, c.entropy, q);
      AllocatedFresh(net, s1, c.opts, c.entropy);
      SameOffset(net, base, p, q);
      TextsPassed(net, base, s, Ever(net, s, cs), Run(net, s, cs).nextOffset, p);
    }
  }

  const ONE := Options(1, "custom", "user", "pass")

  lemma OneIsValid()
    ensures CheckOptions(ONE).None? && ONE.mode != "random"
  {
    assert "custom"[0] != "random"[0];
  }

  // One creation gives out the address, or one of the free addresses before it.
  lemma OneCloser(net: Codec, s: State, entropy: Entropy, p: Proxy)
    requires net.Lawful() && NoWrap(s) && RoutedPrefix(net, s) && BelowCursor(s) && s.nextPort > 0
    requires net.ZoneFreeV6(p.ipv6) && net.Canon(p.ipv6) !in TextsOf(s.proxies) && !Passed(net, s, p)
    requires PortsLeft(s) > 0
    ensures var s' := After(net, s, Created(ONE, entropy));
            var base := Masked(net.parsePrefix(s.prefix).value);
            var o := OffsetOf(net, base, p);
            && RoutedPrefix(net, s') && s'.prefix == s.prefix && s'.nextPort == s.nextPort + 1
            && (net.Canon(p.ipv6) !in TextsOf(s'.proxies) ==>
                  !Passed(net, s', p) && |FreeOffsets(net, base, s', o)| < |FreeOffsets(net, base, s, o)|)
  {
    hide Capacity, Masked;
    var prefix := net.parsePrefix(s.prefix).value;
    var base := Masked(prefix);
    var o := OffsetOf(net, base, p);
    PrefixRoom(prefix);
    OneIsValid();
    RewrittenIsCanonical(net, p);
    assert At(net, base, o) == net.Canon(p.ipv6);
    OneSupplied(net, base, Capacity(prefix), s, o);
    SuppliesDecide(net, s, ONE, entropy);
    TakesTheFirst(net, s, ONE, entropy);
    AllocatedFresh(net, s, ONE, entropy);
    var (s1, created) := Allocated(net, s, ONE, entropy).value;
    NextPortTaken(s, s1, created);
    if net.Canon(p.ipv6) !in TextsOf(After(net, s, Created(ONE, entropy)).proxies) {
      FreeOneLess(net, base, Capacity(prefix), s, s1, created, o);
    }
  }

  lemma OneSupplied(net: Codec, base: nat, cap: nat, s: State, o: int)
    requires BelowCursor(s) && PortsLeft(s) > 0
    requires s.nextOffset <= o < cap && At(net, base, o) !in TextsOf(s.proxies)
    ensures |FreePorts(s, 65535)| >= 1 && |FreeOffsets(net, base, s, cap)| >= 1
  {
    assert s.nextPort in FreePorts(s, 65535);
    assert o in FreeOffsets(net, base, s, cap);
  }

  lemma NextPortTaken(s: State, s': State, created: seq<Proxy>)
    requires BelowCursor(s) && |created| == 1 && PortsOf(created) == FreePorts(s, s'.nextPort)
    requires s'.nextPort == created[0].port + 1 && created[0].port >= s.nextPort
    ensures s'.nextPort == s.nextPort + 1
  {
    assert s.nextPort in FreePorts(s, s'.nextPort);
    assert s.nextPort in PortsOf(created);
  }

  lemma FreeOneLess(net: Codec, base: nat, cap: nat, s: State, s': State, created: seq<Proxy>, o: nat)
    requires net.Lawful() && base + cap <= ADDRESSES && IsFirstFit(net, base, cap, s, s', created) && |created| == 1
    requires s'.proxies == s.proxies + created && net.Canonical(created[0].ipv6)
    requires s.nextOffset <= o && base + o < ADDRESSES && At(net, base, o) !in TextsOf(s'.proxies)
    ensures s'.nextOffset <= o && |FreeOffsets(net, base, s', o)| < |FreeOffsets(net, base, s, o)|
  {
    var q := created[0];
    var first := OffsetOf(net, base, q);
    assert q in created && q in s'.proxies && forall p :: p in s.proxies ==> p in s'.proxies;
    assert first in OffsetsOf(net, base, created);
    assert first in FreeOffsets(net, base, s, s'.nextOffset);
    assert q.ipv6 == At(net, base, first);
    assert o != first;
    assert o !in OffsetsOf(net, base, created) by { assert forall p :: p in created ==> p == q; }
    SubsetSize(FreeOffsets(net, base, s', o), FreeOffsets(net, base, s, o) - {first});
  }

  // Enough creations bring the address back.
  lemma {:induction false} StoredIf(net: Codec, s: State, done: seq<Change>, p: Proxy) returns (cs: seq<Change>)
    requires net.Lawful() && s.nextOffset > 0 && RoutedPrefix(net, s) && FarFromWrap(s)
    requires net.ZoneFreeV6(p.ipv6)
    requires var s1 := Run(net, s, done);
             && RoutedPrefix(net, s1) && s1.prefix == s.prefix && BelowCursor(s1) && s1.nextPort > 0
             && (net.Canon(p.ipv6) !in TextsOf(s1.proxies) ==>
                   var base := Masked(net.parsePrefix(s.prefix).value);
                   !Passed(net, s1, p) && |FreeOffsets(net, base, s1, OffsetOf(net, base, p))| < PortsLeft(s1))
    ensures net.Canon(p.ipv6) in TextsOf(Run(net, s, cs).proxies)
    decreases PortsLeft(Run(net, s, done))
  {
    hide AlignDown, Pow2, OffsetOf, Passed;
    var s1 := Run(net, s, done);
    cs := done;
    if net.Canon(p.ipv6) !in TextsOf(s1.proxies) {
      OffsetsLast(net, s, done);
      var entropy: Entropy := k => None;
      OneCloser(net, s1, entropy, p);
      var c := Created(ONE, entropy);
      ChangeKeeps(net, s1, c);
      assert (done + [c])[..|done + [c]| - 1] == done;
      cs := StoredIf(net, s, done + [c], p);
    }
  }

  // Some run stores the address of a proxy that is not stored, such as one that was deleted, exactly when it is ahead of
  // the cursor and there are more ports left than free addresses before it.
  lemma ComesBackExactlyWhen(net: Codec, s: State, p: Proxy)
    requires net.Lawful() && s.nextOffset > 0 && RoutedPrefix(net, s) && FarFromWrap(s)
    requires BelowCursor(s) && s.nextPort > 0
    requires net.ZoneFreeV6(p.ipv6) && net.Canon(p.ipv6) !in TextsOf(s.proxies)
    ensures var base := Masked(net.parsePrefix(s.prefix).value);
            (exists cs: seq<Change> :: net.Canon(p.ipv6) in TextsOf(Run(net, s, cs).proxies)) <==>
              !Passed(net, s, p) && |FreeOffsets(net, base, s, OffsetOf(net, base, p))| < PortsLeft(s)
  {
    hide AlignDown, Pow2;
    var base := Masked(net.parsePrefix(s.prefix).value);
    if exists cs: seq<Change> :: net.Canon(p.ipv6) in TextsOf(Run(net, s, cs).proxies) {
      var cs: seq<Change> :| net.Canon(p.ipv6) in TextsOf(Run(net, s, cs).proxies);
      StoredOnlyIf(net, s, cs, p);
    }
    if !Passed(net, s, p) && |FreeOffsets(net, base, s, OffsetOf(net, base, p))| < PortsLeft(s) {
      assert Run(net, s, []) == s;
      var cs := StoredIf(net, s, [], p);
    }
  }
}
