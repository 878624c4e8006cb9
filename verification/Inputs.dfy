// Inputs: states and schedules the program can meet, for the cases in which it does less than it may seem to, and for
// the premises of the round trips.
module Inputs {
  import opened Model
  import opened Text
  import opened Netip
  import opened Order
  import opened Config
  import opened ConfigLaws
  import opened ListLaws
  import opened Lists
  import opened Store
  import opened AddOffset
  import opened Allocate
  import opened AllocateLaws
  import opened Apply
  import opened ApplyLaws
  import opened Printers
  import opened FirstFit
  import opened PrefixProbe
  import opened Undoing
  import opened Operations
  import opened Faultless
  import opened Outcomes
  import I = Import
  import H = History

  // ---- the setting ----

  // The program's own printers over a library, under a schedule of faults.
  function RealEnv(net: Codec, fails: (nat, Step) -> bool): Env {
    Env(net, ps => Rendered(net, ps), (ps, onlyLive) => FormatList(ps, onlyLive), fails)
  }

  lemma RealIsFaithful(fails: (nat, Step) -> bool)
    ensures Faithful(RealEnv(Toy(), fails))
  {
    ToyIsLawful();
  }

  function Served(port: int, text: string): Proxy {
    Proxy(TOY_V4, port, text, "user", "pass", true, Live, "", 0)
  }

  // A state as an import leaves it: the port cursor above its ports, the address cursor where it starts.
  function StateWith(prefix: string, ps: seq<Proxy>): State {
    State(STATE_VERSION, TOY_V4, "eth0", prefix, 10010, 1, "", ps)
  }

  function WorldWith(s: State, bound: set<string>): World {
    World(bound, Some(""), None, None, Files(Some(Encoded(s)), None), None, 0)
  }

  lemma WorldLoads(prefix: string, ps: seq<Proxy>, bound: set<string>)
    ensures var s := StateWith(prefix, ps); var w := WorldWith(s, bound); Decodable(w.files) && Load(w.files) == Ok(s)
  {
  }

  lemma OneDigit(n: nat)
    requires n < 10
    ensures ToyParse(":" + [Digit(n)]) == Some(V6(n, "")) && Toy().format(n) == ":" + [Digit(n)]
    ensures Toy().Canonical(":" + [Digit(n)])
  {
    var t := ":" + [Digit(n)];
    assert Digits(n) == [Digit(n)];
    assert t[1..] == [Digit(n)];
    assert DigitsValue([Digit(n)]) == n by { assert [Digit(n)][..0] == []; }
  }

  lemma Texts()
    ensures ToyParse(":1") == Some(V6(1, "")) && ToyParse(":7") == Some(V6(7, "")) && ToyParse(":8") == Some(V6(8, ""))
    ensures ToyParse(":07") == Some(V6(7, "")) && ToyParse(":01") == Some(V6(1, ""))
    ensures Toy().Canon(":7") == ":7" && Toy().Canon(":07") == ":7" && Toy().format(1) == ":1" && Toy().Canon(":01") == ":1"
    ensures Toy().Canonical(":1") && Toy().Canonical(":7") && Toy().Canonical(":8") && !Toy().Canonical(":07")
  {
    OneDigit(1);
    OneDigit(7);
    OneDigit(8);
    assert ":" + "1" == ":1" && ":" + "7" == ":7" && ":" + "8" == ":8";
    assert ":07"[1..] == "07" && ":01"[1..] == "01";
    assert DigitsValue("0") == 0 && "07"[..1] == "0" && "01"[..1] == "0";
    assert DigitsValue("07") == 7 && DigitsValue("01") == 1;
    assert ":07" != ":7";
  }

  lemma HostIsV4()
    ensures Toy().IsV4(TOY_V4)
  {
  }

  lemma Credentials()
    ensures ValidCredential("user") && ValidCredential("pass")
  {
  }

  lemma ServedFine(port: int, text: string)
    requires 1024 <= port <= 65535 && Toy().IsV6(text)
    ensures Servable(Toy(), Served(port, text)) && Listable(Toy(), Served(port, text))
  {
    HostIsV4();
    Credentials();
  }

  lemma Prefixes()
    ensures Toy().parsePrefix("all") == Some(WHOLE) && Toy().parsePrefix("low") == Some(LOW)
    ensures WellSized(WHOLE) && WellSized(LOW)
  {
    assert "low" != "all" by { assert "low"[0] != "all"[0]; }
  }

  lemma WholeHolds(v: nat)
    requires v < 10
    ensures Contains(WHOLE, V6(v, ""))
  {
    Pow2Of128();
  }

  lemma LowHolds()
    ensures Contains(LOW, V6(7, "")) && !Contains(LOW, V6(8, ""))
  {
    assert Pow2(3) == 8 by { assert Pow2(1) == 2; }
  }

  lemma OneRenders(p: Proxy)
    requires Servable(Toy(), p)
    ensures Renderable(Toy(), [p])
  {
    assert Enabled([p]) <= [p] by { EnabledOne(p); }
  }

  // ---- the premises of the round trips ----

  // There are proxy sets that are printable, listable, of distinct ports, and not all disabled.
  lemma RoundTripsHaveInputs()
    ensures var ps := [Served(10001, ":7")];
            Toy().Lawful() && PrintableSet(Toy(), ps) && AllListable(Toy(), ps) && UniquePorts(ps) && Enabled(ps) == ps
  {
    var p := Served(10001, ":7");
    ToyIsLawful();
    Texts();
    ServedFine(10001, ":7");
    OneRenders(p);
    EnabledOne(p);
  }

  lemma RoundTripReachesIt()
    ensures var ps := [Served(10001, ":7")];
            && RenderConfig(Toy(), ps).Ok?
            && Parse3ProxyServices(RenderConfig(Toy(), ps).value) == map[10001 := Imported(TOY_V4, 10001, ":7")]
  {
    hide Render, Parse3ProxyServices, PrintableSet, AllListable, UniquePorts, Enabled, Toy;
    var p, ps := Served(10001, ":7"), [Served(10001, ":7")];
    RoundTripsHaveInputs();
    ConfigRoundTrip(Toy(), ps, true);
    var m := Parse3ProxyServices(RenderConfig(Toy(), ps).value);
    assert p in ps;
    assert PortsOf(ps) == {10001} by { assert forall q :: q in ps ==> q == p; }
    assert m[10001] == ServiceOf(p);
    assert m.Keys == {10001};
  }

  // ---- states that a transaction accepts ----

  lemma OneAcceptable(p: Proxy)
    requires Servable(Toy(), p) && Toy().parseAddr(p.ipv6) == Some(V6(7, ""))
    ensures Toy().Lawful() && Acceptable(Toy(), StateWith("all", [p]))
  {
    ToyIsLawful();
    Prefixes();
    WholeHolds(7);
    OneRenders(p);
    assert Within(Toy(), WHOLE, p);
  }

  // ---- aliases ----

  predicate NamesSeven(text: string) {
    text == ":7" || text == ":07"
  }

  lemma SevenServed(port: int, text: string)
    requires 1024 <= port <= 65535 && NamesSeven(text)
    ensures Servable(Toy(), Served(port, text)) && Toy().parseAddr(text) == Some(V6(7, "")) && Toy().Canon(text) == ":7"
  {
    Texts();
    ServedFine(port, text);
  }

  function OnlyFails(step: Step): (nat, Step) -> bool {
    (t, s) => s == step
  }

  // An imported proxy is stored under ":07" and its address is bound, which the kernel reports as ":7". The engine
  // does not start, a repair is rolled back, and the address is gone.
  lemma AliasedRollbackUnbinds()
    ensures Toy().Lawful()
    ensures var env := RealEnv(Toy(), OnlyFails(PreStart));
            var w := WorldWith(StateWith("all", [Served(10001, ":07")]), {":7"});
            var (w', r) := Repair(env, w);
            && r.Done? && r.outcome.RolledBack? && KernelTexts(Toy(), w.bound) && ":7" !in w'.bound
  {
    hide Repair, Acceptable, Faithful, NoAlias, Decodable, Load, RealEnv;
    var p, s := Served(10001, ":07"), StateWith("all", [Served(10001, ":07")]);
    var env, w := RealEnv(Toy(), OnlyFails(PreStart)), WorldWith(s, {":7"});
    RealIsFaithful(OnlyFails(PreStart));
    RealParts(OnlyFails(PreStart));
    WorldLoads("all", [p], {":7"});
    SevenServed(10001, ":07");
    OneAcceptable(p);
    SevenIsAliased(p, s);
    AliasedRepairLoses(env, w, s);
  }

  lemma RealParts(fails: (nat, Step) -> bool)
    ensures RealEnv(Toy(), fails).net == Toy() && RealEnv(Toy(), fails).fails == fails
  {
  }

  // For any lawful library and any acceptable state with an enabled proxy whose address is bound under another text.
  lemma AliasedRepairLoses(env: Env, w: World, s: State)
    requires Faithful(env) && env.fails == OnlyFails(PreStart) && Decodable(w.files) && Load(w.files) == Ok(s)
    requires KernelTexts(env.net, w.bound) && Acceptable(env.net, s) && !NoAlias(env.net, w.bound, s.proxies)
    ensures var (w', r) := Repair(env, w); r.Done? && r.outcome.RolledBack? && !(w.bound <= w'.bound)
  {
    hide ApplyCandidate, Acceptable, Faithful, NoAlias, KernelTexts;
    LoadsIt(env, w, s);
    StartFails(env, Tick(w), s, s);
    assert RemovalsWork(env);
    assert env.net.Lawful() by { FaithfulIsLawful(env); }
    AliasesAreLost(env, Tick(w), s, s);
  }

  lemma SevenIsAliased(p: Proxy, s: State)
    requires p == Served(10001, ":07") && s == StateWith("all", [p])
    ensures !NoAlias(Toy(), {":7"}, s.proxies) && KernelTexts(Toy(), {":7"})
  {
    Texts();
    assert p in s.proxies && ":07" !in {":7"};
  }

  lemma LoadsIt(env: Env, w: World, s: State)
    requires Load(w.files) == Ok(s) && !env.fails(w.clock, ReadState) && !env.fails(w.clock, ReadBackup)
    ensures LoadState(env, w) == (Tick(w), Ok(s))
  {
  }

  // With only the pre-start command failing, an acceptable candidate is rolled back.
  lemma StartFails(env: Env, w: World, original: State, candidate: State)
    requires Faithful(env) && env.fails == OnlyFails(PreStart) && Acceptable(env.net, candidate)
    ensures ApplyCandidate(env, w, original, candidate).1.RolledBack?
  {
    hide ApplyCandidate, Acceptable, Faithful;
    FaithfulIsLawful(env);
    SteadyOutcome(env, w, original, candidate);
  }

  // ---- deletions ----

  function NeverFails(): (nat, Step) -> bool {
    (t, s) => false
  }

  // A deletion in which nothing fails goes through and then releases addresses.
  lemma DeletionApplies(env: Env, w: World, s: State, entries: seq<Entry>, kept: seq<Proxy>)
    requires Faithful(env) && NoFaults(env) && Decodable(w.files) && Load(w.files) == Ok(s) && KernelTexts(env.net, w.bound)
    requires Planned(s.proxies, "delete", entries).0 == Some(kept) && Acceptable(env.net, s.(proxies := kept))
    ensures ActOn(env, w, "delete", entries).1 == Done(Applied)
    ensures ActOn(env, w, "delete", entries).0.bound * Released(env.net, s.proxies, TextsOf(kept), 0) == {}
  {
    hide ApplyCandidate, Acceptable, Planned, Released, KernelTexts, Faithful;
    assert !env.fails(w.clock, ReadState) && !env.fails(w.clock, ReadBackup);
    LoadsIt(env, w, s);
    AppliedExactly(env, Tick(w), s, s.(proxies := kept));
    assert env.net.Lawful() by { FaithfulIsLawful(env); }
    ApplyEffect(env, Tick(w), s, s.(proxies := kept));
    assert RemovalsWork(env);
    ReleaseExact(env, ApplyCandidate(env, Tick(w), s, s.(proxies := kept)).0, s.proxies, TextsOf(kept), 0);
  }

  // For any lawful library: a deletion in which nothing fails takes the address of a remaining proxy with it when a
  // deleted proxy names it by a text that no remaining proxy uses.
  lemma AliasedDeletionLoses(env: Env, w: World, s: State, entries: seq<Entry>, kept: seq<Proxy>, p: Proxy, q: Proxy)
    requires Faithful(env) && NoFaults(env) && Decodable(w.files) && Load(w.files) == Ok(s) && KernelTexts(env.net, w.bound)
    requires Planned(s.proxies, "delete", entries).0 == Some(kept) && Acceptable(env.net, s.(proxies := kept))
    requires p in s.proxies && p.ipv6 !in TextsOf(kept) && q in kept && env.net.Canon(p.ipv6) == env.net.Canon(q.ipv6)
    ensures ActOn(env, w, "delete", entries).1 == Done(Applied)
    ensures env.net.Canon(q.ipv6) !in ActOn(env, w, "delete", entries).0.bound
  {
    hide ActOn, Acceptable, Planned, KernelTexts, Faithful;
    FaithfulIsLawful(env);
    DeletionApplies(env, w, s, entries, kept);
    assert s.proxies[0..] == s.proxies;
    assert env.net.Canon(p.ipv6) in Released(env.net, s.proxies, TextsOf(kept), 0);
    assert env.net.Canon(p.ipv6)
        !in ActOn(env, w, "delete", entries).0.bound * Released(env.net, s.proxies, TextsOf(kept), 0);
  }

  lemma FirstOfTwoDeleted(p: Proxy, q: Proxy)
    requires p.port != q.port
    ensures Planned([p, q], "delete", [EntryOf(p)]).0 == Some([q])
  {
    var ps, entries := [p, q], [EntryOf(p)];
    assert FirstMatch(ps, entries[0], 0) == 0;
    var none: set<int> := {};
    assert none + {0} == {0};
    assert MatchAll(ps, entries) == MatchFrom(ps, entries, 1, Matches({0}, []));
    assert Keep(ps, {0}, 2) == [];
    assert Keep(ps, {0}, 1) == [q];
    assert Keep(ps, {0}, 0) == [q];
  }

  // Of two proxies stored under ":07" and ":7", whichever is deleted takes the address of the other one with it.
  lemma AliasedDeletionUnbindsSurvivor(gone: string, left: string)
    requires NamesSeven(gone) && NamesSeven(left) && gone != left
    ensures Toy().Lawful()
    ensures var p, q := Served(10001, gone), Served(10002, left);
            var w := WorldWith(StateWith("all", [p, q]), {":7"});
            var (w', r) := ActOn(RealEnv(Toy(), NeverFails()), w, "delete", [EntryOf(p)]);
            && Planned([p, q], "delete", [EntryOf(p)]).0 == Some([q]) && q.enabled && Toy().Canon(q.ipv6) == ":7"
            && r == Done(Applied) && ":7" !in w'.bound
  {
    hide ActOn, Acceptable, Faithful, Planned, RealEnv, Load, Decodable;
    var p, q := Served(10001, gone), Served(10002, left);
    Texts();
    var s := StateWith("all", [p, q]);
    var env, w := RealEnv(Toy(), NeverFails()), WorldWith(s, {":7"});
    RealIsFaithful(NeverFails());
    RealParts(NeverFails());
    assert NoFaults(env);
    WorldLoads("all", [p, q], {":7"});
    SevenServed(10001, gone);
    SevenServed(10002, left);
    FirstOfTwoDeleted(p, q);
    OneAcceptable(q);
    assert s.(proxies := [q]) == StateWith("all", [q]);
    assert TextsOf([q]) == {q.ipv6} by { assert forall r :: r in [q] <==> r == q; }
    assert p in s.proxies && q in [q];
    AliasedDeletionLoses(env, w, s, [EntryOf(p)], [q], p, q);
  }

  // ---- the two early returns ----

  lemma EnablesOne(p: Proxy)
    requires Listable(Toy(), p) && Toy().Lawful()
    ensures ParseList(Toy(), FormatList([p], false)).Ok?
    ensures Planned([p], "enable", ParseList(Toy(), FormatList([p], false)).value).0 == Some([Switched(p, true)])
  {
    OwnListMatchesAll(Toy(), [p], "enable");
    assert Edited([p], "enable", AllIndexes(1)) == [Switched(p, true)];
  }

  // With only configuration writes failing, an acceptable candidate gets as far as binding its addresses.
  lemma ConfigWriteFails(env: Env, w: World, original: State, candidate: State)
    requires Faithful(env) && env.fails == OnlyFails(WriteConfig) && Acceptable(env.net, candidate)
    ensures ApplyCandidate(env, w, original, candidate).1 == ConfigFailed
  {
    hide ApplyCandidate, Acceptable, Faithful;
    FaithfulIsLawful(env);
    SteadyOutcome(env, w, original, candidate);
  }

  // A disabled proxy is enabled by its line of the list, and the configuration cannot be written: the action fails,
  // the stored state still has the proxy disabled, and its address stays bound.
  lemma FailedConfigWriteLeaks()
    ensures Toy().Lawful()
    ensures var p := Switched(Served(10001, ":7"), false);
            var w := WorldWith(StateWith("all", [p]), {});
            var (w', r) := Act(RealEnv(Toy(), OnlyFails(WriteConfig)), w, "enable", FormatList([p], false));
            r == Done(ConfigFailed) && w'.files == w.files && w'.bound == {":7"}
  {
    hide ApplyCandidate, Acceptable, Faithful, Planned, ParseList, RealEnv, Load, Decodable, FormatList, Transacted;
    var p, q := Switched(Served(10001, ":7"), false), Switched(Served(10001, ":7"), true);
    var s, c := StateWith("all", [p]), StateWith("all", [q]);
    var env, w := RealEnv(Toy(), OnlyFails(WriteConfig)), WorldWith(s, {});
    RealIsFaithful(OnlyFails(WriteConfig));
    RealParts(OnlyFails(WriteConfig));
    WorldLoads("all", [p], {});
    LoadsIt(env, w, s);
    SevenServed(10001, ":7");
    ServedFine(10001, ":7");
    OneAcceptable(q);
    EnablesOne(p);
    ConfigWriteFails(env, Tick(w), s, c);
    ConfigFailureLeaves(env, Tick(w), s, c, q);
  }

  lemma ConfigFailureLeaves(env: Env, w: World, original: State, candidate: State, q: Proxy)
    requires env.net == Toy() && env.net.Lawful() && Decodable(w.files) && Load(w.files) == Ok(original) && w.bound == {}
    requires forall p :: p in original.proxies ==> !p.enabled
    requires candidate.proxies == [q] && q.enabled && q.ipv6 == ":7"
    requires ApplyCandidate(env, w, original, candidate).1 == ConfigFailed
    ensures var w' := ApplyCandidate(env, w, original, candidate).0; w'.bound == {":7"} && w'.files == w.files
  {
    hide ApplyCandidate;
    Texts();
    assert q in [q];
    assert CanonTexts(Toy(), [q]) == {":7"} by { assert forall p :: p in [q] <==> p == q; }
    ApplyEffect(env, w, original, candidate);
  }

  // With additions and the inspection of addresses working, a proxy outside the prefix stops the transaction.
  lemma OutsideStops(env: Env, w: World, original: State, candidate: State)
    requires Faithful(env) && NoFaults(env) && Renderable(env.net, candidate.proxies)
    requires candidate.publicIPv4 != "" && candidate.iface != "" && candidate.prefix != ""
    requires env.net.parsePrefix(candidate.prefix).Some?
    requires FirstOutside(env.net, env.net.parsePrefix(candidate.prefix).value, candidate.proxies, 0) < |candidate.proxies|
    ensures ApplyCandidate(env, w, original, candidate).1.OutsidePrefix?
  {
    hide BindFrom, Renderable, Install;
    RendersExactly(env, candidate.proxies);
    BindsAll(env, Tick(w), env.net.parsePrefix(candidate.prefix).value, w.bound, candidate.proxies, 0, []);
  }

  lemma SevenAndEight()
    ensures Toy().Lawful()
    ensures var p, q := Served(10001, ":7"), Served(10002, ":8");
            && Renderable(Toy(), [p, q])
            && FirstOutside(Toy(), LOW, [p, q], 0) == 1 && CanonTexts(Toy(), [p, q][..1]) == {":7"}
  {
    var p, q := Served(10001, ":7"), Served(10002, ":8");
    ToyIsLawful();
    Texts();
    ServedFine(10001, ":7");
    ServedFine(10002, ":8");
    Prefixes();
    LowHolds();
    EnabledAppend([p], [q]);
    EnabledOne(p);
    EnabledOne(q);
    assert [p] + [q] == [p, q] && [p, q][..1] == [p];
    assert p in [p];
    assert CanonTexts(Toy(), [p]) == {":7"} by { assert forall r :: r in [p] <==> r == p; }
    assert Within(Toy(), LOW, p) && !Within(Toy(), LOW, q);
  }

  // The prefix ends at ":7", and a second proxy lies beyond it. A repair in which nothing fails stops there and leaves
  // the first proxy's address bound.
  lemma ProxyOutsidePrefixLeaks()
    ensures Toy().Lawful()
    ensures var s := StateWith("low", [Served(10001, ":7"), Served(10002, ":8")]);
            var (w', r) := Repair(RealEnv(Toy(), NeverFails()), WorldWith(s, {}));
            r.Done? && r.outcome.OutsidePrefix? && w'.bound == {":7"}
  {
    hide ApplyCandidate, Faithful, RealEnv, Load, Decodable, Renderable, FirstOutside, CanonTexts;
    var p, q := Served(10001, ":7"), Served(10002, ":8");
    var s := StateWith("low", [p, q]);
    var env, w := RealEnv(Toy(), NeverFails()), WorldWith(s, {});
    RealIsFaithful(NeverFails());
    RealParts(NeverFails());
    assert NoFaults(env);
    WorldLoads("low", [p, q], {});
    LoadsIt(env, w, s);
    SevenAndEight();
    Prefixes();
    OutsideStops(env, Tick(w), s, s);
    ApplyEffect(env, Tick(w), s, s);
    var none: set<string> := {};
    assert none + CanonTexts(Toy(), BeforeOutside(Toy(), s)) == {":7"};
  }

  // ---- an address that comes back ----

  const ONE_MORE := Options(1, "custom", "user", "pass")

  lemma OnlyOneDeleted(p: Proxy)
    ensures Planned([p], "delete", [EntryOf(p)]).0 == Some([])
  {
    var ps, entries := [p], [EntryOf(p)];
    assert FirstMatch(ps, entries[0], 0) == 0;
    var none: set<int> := {};
    assert none + {0} == {0};
    assert MatchAll(ps, entries) == MatchFrom(ps, entries, 1, Matches({0}, []));
    assert Keep(ps, {0}, 1) == [];
    assert Keep(ps, {0}, 0) == [];
  }

  lemma WholeRoom()
    ensures WellSized(WHOLE) && Masked(WHOLE) == 0 && Capacity(WHOLE) == ADDRESSES
  {
    Pow2Of128();
  }

  function FirstNew(): Proxy {
    NewProxy(TOY_V4, 10010, ":1", ("user", "pass"))
  }

  lemma OneTurn(ports: set<int>, ips: set<string>, entropy: Entropy)
    requires 10010 !in ports && ":1" !in ips
    ensures Turns(Toy(), 0, ADDRESSES, TOY_V4, ONE_MORE, entropy, Search(10010, 1, ports, ips, []))
         == Ok(Search(10011, 2, ports + {10010}, ips + {":1"}, [FirstNew()]))
  {
    hide ToyParse;
    Texts();
    var c := Search(10010, 1, ports, ips, []);
    var next := Search(10011, 2, ports + {10010}, ips + {":1"}, [FirstNew()]);
    assert NextPort(10010, ports) == 10010;
    assert Toy().format(0 + 1) == ":1";
    assert Probe(Toy(), 0, ADDRESSES, 1, ips, 0) == Some(Found(1, 2));
    assert c.created + [FirstNew()] == next.created;
    assert Turn(Toy(), 0, ADDRESSES, TOY_V4, ONE_MORE, entropy, c) == Ok(next);
    assert Turns(Toy(), 0, ADDRESSES, TOY_V4, ONE_MORE, entropy, next) == Ok(next);
  }

  lemma FirstAddressAllocated(ps: seq<Proxy>, entropy: Entropy)
    requires 10010 !in PortsOf(ps) && ":1" !in TextsOf(ps)
    ensures Toy().Lawful()
    ensures var s := StateWith("all", ps);
            Allocated(Toy(), s, ONE_MORE, entropy)
              == Ok((s.(nextPort := 10011, nextOffset := 2, proxies := ps + [FirstNew()]), [FirstNew()]))
  {
    hide Turns, Masked, Capacity, Pow2, ToyParse, ToyPrefix, ValidCredential;
    var s := StateWith("all", ps);
    ToyIsLawful();
    Prefixes();
    Credentials();
    WholeRoom();
    PrefixRoom(WHOLE);
    OneTurn(PortsOf(ps), TextsOf(ps), entropy);
    assert Start(s) == Search(10010, 1, PortsOf(ps), TextsOf(ps), []);
  }

  // An imported proxy is stored under ":01", enabled. One proxy is created, and it gets ":1", the same address.
  lemma ImportedAddressGivenTwice(entropy: Entropy)
    ensures Toy().Lawful()
    ensures var p, q := Served(10001, ":01"), FirstNew();
            var r := Allocated(Toy(), StateWith("all", [p]), ONE_MORE, entropy);
            && r.Ok? && r.value.0.proxies == [p, q] && p.enabled && q.enabled && Id(p) != Id(q)
            && Toy().Canon(p.ipv6) == Toy().Canon(q.ipv6) == q.ipv6
  {
    hide Allocated, ToyParse;
    var p := Served(10001, ":01");
    Texts();
    assert forall r :: r in [p] <==> r == p;
    assert ":01" != ":1";
    FirstAddressAllocated([p], entropy);
  }

  // An imported proxy has the address ":1", ahead of the address cursor. It is deleted, one proxy is created, and the
  // new proxy, on another port, has ":1".
  lemma ImportedAddressComesBack(entropy: Entropy)
    ensures Toy().Lawful()
    ensures var p, q := Served(10001, ":1"), FirstNew();
            var s := StateWith("all", [p]);
            && H.Kept(Toy(), s) && q.ipv6 == p.ipv6 && Id(q) != Id(p)
            && H.Run(Toy(), s, [H.Acted("delete", [EntryOf(p)]), H.Created(ONE_MORE, entropy)]).proxies == [q]
  {
    hide Allocated, Planned;
    var p, s := Served(10001, ":1"), StateWith("all", [Served(10001, ":1")]);
    Texts();
    OnlyOneDeleted(p);
    FirstAddressAllocated([], entropy);
    var a, b := H.Acted("delete", [EntryOf(p)]), H.Created(ONE_MORE, entropy);
    assert [a, b][..1] == [a] && [a][..0] == [];
    assert H.Run(Toy(), s, []) == s;
    assert H.Run(Toy(), s, [a]) == StateWith("all", []);
  }

  // ---- a crowded prefix ----

  // The addresses a probe of a prefix tries, as the kernel names them.
  function TriedFirst(net: Codec, base: nat): set<string> {
    set o: nat | 1 <= o <= 4096 :: At(net, base, o)
  }

  lemma TriedCrowd(net: Codec, base: nat, cap: nat)
    requires net.Lawful() && 4096 < cap && base + cap <= ADDRESSES
    ensures KernelTexts(net, TriedFirst(net, base)) && Crowded(net, base, cap, TriedFirst(net, base))
  {
    forall t | t in TriedFirst(net, base)
      ensures net.Canonical(t)
    {
      var o: nat :| 1 <= o <= 4096 && At(net, base, o) == t;
      net.FormatCanonical(base + o);
    }
  }

  // For any lawful library and any prefix of more addresses than that: the interface has exactly those the probe tries.
  // Nothing fails, the probe succeeds, and the last of them is gone.
  lemma CrowdedProbeUnbinds(env: Env, w: World, prefixText: string)
    requires env.net.Lawful() && NoFaults(env) && RoutedV6(env.net, prefixText)
    requires 4096 < Capacity(env.net.parsePrefix(prefixText).value)
    requires w.bound == TriedFirst(env.net, Masked(env.net.parsePrefix(prefixText).value))
    ensures var last := At(env.net, Masked(env.net.parsePrefix(prefixText).value), 4096);
            var (w', ok) := ProbePrefix(env, w, prefixText, true);
            ok && last in w.bound && last !in w'.bound
  {
    hide TriedFirst, ProbePrefix, Crowded, KernelTexts, Masked, Capacity, At;
    var prefix := env.net.parsePrefix(prefixText).value;
    PrefixRoom(prefix);
    TriedCrowd(env.net, Masked(prefix), Capacity(prefix));
    ProbeExact(env, w, prefixText, true);
  }

  // ---- a list that repeats a port ----

  lemma TwoAlike(p: Proxy)
    ensures EntriesOf(SortByPort([p, p])) == [EntryOf(p), EntryOf(p)]
  {
    var ps := SortByPort([p, p]);
    assert forall q :: q in [p, p] ==> q == p;
    assert ps[0] in ps && ps[1] in ps;
  }

  // The old list names a proxy twice. The import takes it over twice, on one port, and the state is not one that the
  // runs keep.
  lemma RepeatedPortImported()
    ensures Toy().Lawful()
    ensures var p := Served(10001, ":7");
            && RenderConfig(Toy(), [p]).Ok?
            && var list, configs := I.Contents(FormatList([p, p], false)), [Some(RenderConfig(Toy(), [p]).value)];
               && I.Imports(Toy(), NewState(), list, configs).Ok?
               && !I.CleanFiles(Toy(), list, configs)
               && !H.Kept(Toy(), I.Imports(Toy(), NewState(), list, configs).value)
  {
    hide Parse3ProxyServices, FormatList, ParseList, RenderConfig, TrimSpace, I.TakeFrom, SortByPort, Listable;
    var p, e := Served(10001, ":7"), EntryOf(Served(10001, ":7"));
    RoundTripsHaveInputs();
    RoundTripReachesIt();
    var config := RenderConfig(Toy(), [p]).value;
    var list, configs := I.Contents(FormatList([p, p], false)), [Some(config)];
    AlikeListed(p);
    I.FirstFound([], config, []);
    assert [] + [Some(config)] + [] == configs;
    var services := I.FirstServices(configs);
    assert I.UsableEntries([e, e], services) == [e, e] by { TwoUsable(e, services); }
    I.BootstrapKept(Toy(), NewState(), list, configs);
  }

  lemma AlikeListed(p: Proxy)
    requires Toy().Lawful() && Listable(Toy(), p)
    ensures TrimSpace(FormatList([p, p], false)) != ""
    ensures ParseList(Toy(), FormatList([p, p], false)) == Ok([EntryOf(p), EntryOf(p)])
  {
    assert forall q :: q in [p, p] ==> q == p;
    I.ListIsNotBlank(Toy(), [p, p]);
    ListRoundTrip(Toy(), [p, p]);
    TwoAlike(p);
  }

  lemma TwoUsable(e: Entry, services: map<int, Imported>)
    requires I.Usable(e, services)
    ensures I.UsableEntries([e, e], services) == [e, e]
  {
    assert [e, e][1..] == [e] && [e][1..] == [];
    assert I.UsableEntries([e], services) == [e];
  }

  // ---- texts ----

  lemma TenThousandAndOne()
    ensures Itoa(10001) == "10001"
  {
    assert Digits(1) == "1";
    assert Digits(10) == Digits(1) + "0";
    assert Digits(100) == Digits(10) + "0";
    assert Digits(1000) == Digits(100) + "0";
    assert Digits(10001) == Digits(1000) + "1";
    assert "1" + "0" + "0" + "0" + "1" == "10001";
  }

  // The whole configuration of one proxy, line by line.
  lemma OneProxyConfig()
    ensures var p := Served(10001, ":7");
            RenderConfig(Toy(), [p]).Ok? &&
            ScanLines(RenderConfig(Toy(), [p]).value).lines ==
              ["# Generated by IPv6 " + "Proxy Manager. Manual " + "changes are overwritten.",
               "maxconn 16", "nserver 1.1.1.1", "nserver 8.8.8.8", "nscache 65536",
               "auth none", "socks -p65535 -i127.0.0.1", "flush", "auth strong", "users user:CL:pass",
               "allow user", "socks -S-32768 -6 -n -a " + "-p10001 -i1.1.1.1 -e:7", "flush"]
  {
    hide Toy, Servable, Printable, UserTable, Collect, Gathered, UserLine, SocksLine;
    var p := Served(10001, ":7");
    RoundTripsHaveInputs();
    RenderedText(Toy(), [p], true);
    var users := UserTable(Toy(), [p]);
    AllPlain(Toy(), [p], users, true);
    OneUser(p, users);
    OneProxyLines(p, users);
  }

  lemma OneUser(p: Proxy, users: map<string, string>)
    requires Gathered(Toy(), [p], users)
    ensures p.username in users && users[p.username] == p.password
  {
    assert p in [p];
  }

  lemma OneProxyLines(p: Proxy, users: map<string, string>)
    requires p == Served(10001, ":7") && p.username in users && users[p.username] == p.password
    ensures ConfigLines([p], users, true) ==
              ["# Generated by IPv6 " + "Proxy Manager. Manual " + "changes are overwritten.",
               "maxconn 16", "nserver 1.1.1.1", "nserver 8.8.8.8", "nscache 65536",
               "auth none", "socks -p65535 -i127.0.0.1", "flush", "auth strong", "users user:CL:pass",
               "allow user", "socks -S-32768 -6 -n -a " + "-p10001 -i1.1.1.1 -e:7", "flush"]
  {
    FixedWords();
    assert SortedNames([p]) == ["user"];
    assert UserLines(["user"], users) == ["users user:CL:pass"] by { UserWords(); }
    assert [p][1..] == [] && SortByPort([p]) == [p];
    SocksWordsOf(p);
    assert ServiceLines([p]) == ["allow user", SocksLine(p), FLUSH] by { assert "allow " + "user" == "allow user"; }
  }

  lemma FixedWords()
    ensures NOAUTH == "auth none" && STRONG == "auth strong" && LOOPBACK == "socks -p65535 -i127.0.0.1"
  {
  }

  lemma UserWords()
    ensures UserLine("user", "pass") == "users user:CL:pass"
  {
    assert "users " + "user" == "users user";
    assert "users user" + ":CL:" == "users user:CL:";
    assert "users user:CL:" + "pass" == "users user:CL:pass";
  }

  lemma SocksWordsOf(p: Proxy)
    requires p == Served(10001, ":7")
    ensures SocksLine(p) == "socks -S-32768 -6 -n -a " + "-p10001 -i1.1.1.1 -e:7"
  {
    TenThousandAndOne();
    assert SOCKS_FLAGS == "socks -S-32768 -6 -n -a ";
    assert "-p" + "10001" + " " + "-i" + "1.1.1.1" + " " + "-e" + ":7" == "-p10001 -i1.1.1.1 -e:7";
    var tail := "-p" + "10001" + " " + "-i" + "1.1.1.1" + " " + "-e" + ":7";
    assert SocksLine(p) == SOCKS_FLAGS + tail;
  }

  // The list of one proxy.
  lemma OneProxyList()
    ensures FormatList([Served(10001, ":7")], false) == "1.1.1.1:10001:user:pass\n"
  {
    var p := Served(10001, ":7");
    TenThousandAndOne();
    assert [p][1..] == [] && SortByPort([p]) == [p];
    assert ListLine(p) == "1.1.1.1:10001:user:pass";
  }

  // RFC 4648 section 10, without the padding, and its two characters that differ from plain base64.
  lemma Base64Vectors()
    ensures Base64Url([]) == "" && Base64Url([102]) == "Zg" && Base64Url([102, 111]) == "Zm8"
    ensures Base64Url([102, 111, 111]) == "Zm9v" && Base64Url([102, 111, 111, 98]) == "Zm9vYg"
    ensures Base64Url([251]) == "-w" && Base64Url([255]) == "_w"
  {
    assert [102, 111, 111][3..] == [] && [102, 111, 111, 98][3..] == [98];
    assert Base64Url([98]) == "Yg";
  }

  // Signs, leading zeros and other texts in a port.
  lemma AtoiVectors()
    ensures Atoi("7") == (7, true) && Atoi("+7") == (7, true) && Atoi("-7") == (-7, true) && Atoi("07") == (7, true)
    ensures Atoi("") == (0, false) && Atoi("+") == (0, false) && Atoi("7x") == (0, false) && Atoi(" 7") == (0, false)
  {
    assert "7"[..0] == "" && DigitsValue("7") == 7;
    assert "07"[..1] == "0" && DigitsValue("0") == 0 && DigitsValue("07") == 7;
    assert "+7"[1..] == "7" && "-7"[1..] == "7" && "+"[1..] == "";
    assert "7x"[1] == 'x' && 'x' in "7x" && ' ' in " 7" by { assert " 7"[0] == ' '; }
  }
}
