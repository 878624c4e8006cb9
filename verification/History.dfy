// The stored state over whole runs: every committed change, in any order and number, from any state.
module History {
  import opened Model
  import opened Netip
  import opened Config
  import opened Store
  import opened Lists
  import opened Order
  import opened Health
  import opened Allocate
  import opened AllocateLaws
  import opened AddOffset
  import opened FirstFit

  // A change one operation may commit. A failed operation commits Resaved or nothing, or, when its rollback
  // could not save, the change it wanted to undo.
  datatype Change =
    | Created(opts: Options, entropy: Entropy)
    | Acted(action: string, entries: seq<Entry>)
    | Resaved
    | CheckStarted
    | CheckMerged(checks: map<int, Verdict>, now: nat -> nat)
    | TokenRotated(token: string)

  // What Load returns once s has been saved.
  function Stored(s: State): State {
    Fill(Stamp(s))
  }

  function After(net: Codec, s: State, c: Change): State
    requires net.Lawful()
  {
    match c
    case Created(opts, entropy) =>
      (match Allocated(net, s, opts, entropy) case Ok((s', _)) => Stored(s') case Err(_) => s)
    case Acted(action, entries) =>
      (match Planned(s.proxies, action, entries).0 case Some(ps) => Stored(s.(proxies := ps)) case None => s)
    case Resaved => Stored(s)
    case CheckStarted => Stored(s.(proxies := Mark(s.proxies)))
    case CheckMerged(checks, now) => Stored(s.(proxies := Merge(s.proxies, checks, now)))
    case TokenRotated(token) => Stored(s.(token := token))
  }

  function Run(net: Codec, s: State, cs: seq<Change>): State
    requires net.Lawful()
  {
    if cs == [] then s else After(net, Run(net, s, cs[..|cs| - 1]), cs[|cs| - 1])
  }

  // ---- the invariant, part by part ----

  // The cursor lies above every port.
  ghost predicate BelowCursor(s: State) {
    forall p :: p in s.proxies ==> p.port < s.nextPort
  }

  ghost predicate PortsKept(s: State) {
    UniquePorts(s.proxies) && BelowCursor(s)
  }

  ghost predicate StatusesFit(ps: seq<Proxy>) {
    forall p :: p in ps ==> StatusFits(p)
  }

  ghost predicate Kept(net: Codec, s: State) {
    PortsKept(s) && DistinctTexts(s.proxies) && CanonicalSet(net, s.proxies) && StatusesFit(s.proxies)
  }

  // From s to s' each part is kept whether or not the others hold (distinct ports need the cursor above them), the port
  // cursor has not gone back and the network is the same.
  ghost predicate Keeps(net: Codec, s: State, s': State) {
    && (BelowCursor(s) ==> BelowCursor(s')) && (PortsKept(s) ==> PortsKept(s'))
    && (DistinctTexts(s.proxies) ==> DistinctTexts(s'.proxies))
    && (CanonicalSet(net, s.proxies) ==> CanonicalSet(net, s'.proxies))
    && (StatusesFit(s.proxies) ==> StatusesFit(s'.proxies))
    && s'.nextPort >= s.nextPort && (s.nextOffset > 0 ==> s'.nextOffset > 0)
    && s'.prefix == s.prefix && s'.publicIPv4 == s.publicIPv4
  }

  // What a change does to the list: either it appends fresh proxies, or every proxy left stands for an old one.
  ghost predicate Descends(ps: seq<Proxy>, qs: seq<Proxy>, at: seq<int>) {
    && |at| == |qs|
    && (forall j, k :: 0 <= j < k < |at| ==> at[j] < at[k])
    && (forall k :: 0 <= k < |qs| ==> 0 <= at[k] < |ps| && Id(qs[k]) == Id(ps[at[k]]))
  }

  lemma DescendsKeep(net: Codec, ps: seq<Proxy>, qs: seq<Proxy>, at: seq<int>)
    requires Descends(ps, qs, at)
    ensures UniquePorts(ps) ==> UniquePorts(qs)
    ensures DistinctTexts(ps) ==> DistinctTexts(qs)
    ensures CanonicalSet(net, ps) ==> CanonicalSet(net, qs)
    ensures forall q :: q in qs ==> exists p :: p in ps && Id(p) == Id(q)
  {
    forall i, j | 0 <= i < j < |qs|
      ensures UniquePorts(ps) ==> qs[i].port != qs[j].port
      ensures DistinctTexts(ps) ==> qs[i].ipv6 != qs[j].ipv6
    {
      assert at[i] < at[j] && Id(qs[i]) == Id(ps[at[i]]) && Id(qs[j]) == Id(ps[at[j]]);
    }
    forall q | q in qs
      ensures exists p :: p in ps && Id(p) == Id(q)
    {
      var k :| 0 <= k < |qs| && qs[k] == q;
      assert ps[at[k]] in ps;
    }
  }

  lemma ChecksDescend(ps: seq<Proxy>, checks: map<int, Verdict>, now: nat -> nat) returns (at: seq<int>)
    ensures Descends(ps, Mark(ps), at) && Descends(ps, Merge(ps, checks, now), at)
    ensures StatusesFit(ps) ==> StatusesFit(Mark(ps)) && StatusesFit(Merge(ps, checks, now))
  {
    at := seq(|ps|, i => i);
    ChecksKeepIdentity(ps, checks, now);
  }

  lemma ActionDescends(ps: seq<Proxy>, action: string, entries: seq<Entry>) returns (at: seq<int>)
    ensures match Planned(ps, action, entries).0
            case Some(qs) => Descends(ps, qs, at) && (StatusesFit(ps) ==> StatusesFit(qs))
            case None => true
  {
    at := [];
    if Planned(ps, action, entries).0.Some? {
      var chosen := MatchAll(ps, entries).indexes;
      at := EditedFrom(ps, action, chosen);
      EditedFits(ps, Edited(ps, action, chosen), action, at);
    }
  }

  // Everything but creation only drops or relabels proxies.
  lemma ChangeDescends(net: Codec, s: State, c: Change) returns (at: seq<int>)
    requires net.Lawful() && !c.Created?
    ensures var s' := After(net, s, c);
            && Descends(s.proxies, s'.proxies, at)
            && (StatusesFit(s.proxies) ==> StatusesFit(s'.proxies))
            && s'.prefix == s.prefix && s'.publicIPv4 == s.publicIPv4
            && s.nextPort <= s'.nextPort && s.nextOffset <= s'.nextOffset
            && (s.nextPort > 0 ==> s'.nextPort == s.nextPort) && (s.nextOffset > 0 ==> s'.nextOffset == s.nextOffset)
  {
    at := seq(|s.proxies|, i => i);
    match c
    case Acted(action, entries) =>
      if Planned(s.proxies, action, entries).0.Some? {
        at := ActionDescends(s.proxies, action, entries);
      }
    case CheckStarted => at := ChecksDescend(s.proxies, map[], (i: nat) => 0);
    case CheckMerged(checks, now) => at := ChecksDescend(s.proxies, checks, now);
    case _ =>
  }

  lemma EditedFits(ps: seq<Proxy>, qs: seq<Proxy>, action: string, at: seq<int>)
    requires |at| == |qs|
    requires forall k :: 0 <= k < |qs| ==>
               (0 <= at[k] < |ps| && (qs[k] == ps[at[k]] || qs[k] == Switched(ps[at[k]], action == "enable")))
    ensures StatusesFit(ps) ==> StatusesFit(qs)
  {
    if StatusesFit(ps) {
      forall q | q in qs
        ensures StatusFits(q)
      {
        var k :| 0 <= k < |qs| && qs[k] == q;
        assert ps[at[k]] in ps;
      }
    }
  }

  lemma CreationKeeps(net: Codec, s: State, opts: Options, entropy: Entropy)
    requires net.Lawful() && Allocated(net, s, opts, entropy).Ok?
    ensures var s' := After(net, s, Created(opts, entropy));
            && Keeps(net, s, s')
            && s'.nextPort >= s.nextPort + opts.count && s'.nextPort <= LAST_PORT + 1 && opts.count > 0
  {
    AllocatedFresh(net, s, opts, entropy);
    var (s', created) := Allocated(net, s, opts, entropy).value;
    AscendingSpread(created, s.nextPort);
    AppendKeeps(s, created);
    NextPortBound(net, s, opts, entropy);
  }

  lemma AppendKeeps(s: State, created: seq<Proxy>)
    requires AscendingPorts(created) && DistinctTexts(created)
    requires forall p :: p in created ==> p.port >= s.nextPort && p.ipv6 !in TextsOf(s.proxies)
    ensures PortsKept(s) ==> UniquePorts(s.proxies + created)
    ensures DistinctTexts(s.proxies) ==> DistinctTexts(s.proxies + created)
  {
    forall i | 0 <= i < |s.proxies|
      ensures s.proxies[i] in s.proxies && s.proxies[i].ipv6 in TextsOf(s.proxies)
    {
    }
    forall i | 0 <= i < |created|
      ensures created[i].port >= s.nextPort && created[i].ipv6 !in TextsOf(s.proxies)
    {
      assert created[i] in created;
    }
  }

  lemma {:induction false} AscendingSpread(ps: seq<Proxy>, lo: int)
    requires AscendingPorts(ps) && forall p :: p in ps ==> p.port >= lo
    ensures ps != [] ==> ps[|ps| - 1].port >= lo + |ps| - 1
  {
    if |ps| > 1 {
      AscendingSpread(ps[..|ps| - 1], lo);
    }
  }

  // The committed port cursor is just past a port that exists.
  lemma {:induction false} TurnsPort(net: Codec, base: nat, cap: nat, host: string, opts: Options, entropy: Entropy,
      c: Search)
    requires net.Lawful() && base + cap <= ADDRESSES && (c.created != [] ==> c.port <= LAST_PORT + 1)
    requires opts.count > 0
    ensures var r := Turns(net, base, cap, host, opts, entropy, c);
            r.Ok? ==> r.value.port <= LAST_PORT + 1
    decreases opts.count - |c.created|
  {
    if |c.created| < opts.count && Turn(net, base, cap, host, opts, entropy, c).Ok? {
      TurnsPort(net, base, cap, host, opts, entropy, Turn(net, base, cap, host, opts, entropy, c).value);
    }
  }

  lemma NextPortBound(net: Codec, s: State, opts: Options, entropy: Entropy)
    requires net.Lawful() && Allocated(net, s, opts, entropy).Ok?
    ensures Allocated(net, s, opts, entropy).value.0.nextPort <= LAST_PORT + 1
  {
    var p := net.parsePrefix(s.prefix).value;
    PrefixRoom(p);
    TurnsPort(net, Masked(p), Capacity(p), s.publicIPv4, opts, entropy, Start(s));
  }

  lemma ChangeKeeps(net: Codec, s: State, c: Change)
    requires net.Lawful()
    ensures Keeps(net, s, After(net, s, c))
  {
    match c
    case Created(opts, entropy) =>
      if Allocated(net, s, opts, entropy).Ok? {
        CreationKeeps(net, s, opts, entropy);
      }
    case _ =>
      var at := ChangeDescends(net, s, c);
      DescendsKeep(net, s.proxies, After(net, s, c).proxies, at);
  }

  // Over every history, and each for itself: ports stay pairwise distinct and below the cursor, address texts pairwise
  // distinct, address texts canonical, and statuses fit their switches. The port cursor never goes back.
  lemma {:induction false} EveryRunKeeps(net: Codec, s: State, cs: seq<Change>)
    requires net.Lawful()
    ensures Keeps(net, s, Run(net, s, cs))
  {
    hide BelowCursor, PortsKept, DistinctTexts, CanonicalSet, StatusesFit;
    if cs != [] {
      EveryRunKeeps(net, s, cs[..|cs| - 1]);
      ChangeKeeps(net, Run(net, s, cs[..|cs| - 1]), cs[|cs| - 1]);
    }
  }

  // In every reachable state the dashboard counts every proxy, and when the first statuses fit, as those of every import
  // do, its cards add up and agree with the lists they open.
  lemma DashboardAgrees(net: Codec, s: State, cs: seq<Change>)
    requires net.Lawful()
    ensures var ps := Run(net, s, cs).proxies;
            var cards := Summarized(ps);
            && cards.total == |ps| == |SortByPort(Filter(ps, ViewOf("all")))|
            && (StatusesFit(s.proxies) ==>
                  && cards.total == cards.live + cards.disabled + cards.failed + cards.checking
                  && cards.live == |SortByPort(Filter(ps, ViewOf("live")))|
                  && cards.disabled == |SortByPort(Filter(ps, ViewOf("disabled")))|
                  && cards.failed == |SortByPort(Filter(ps, ViewOf("failed")))|)
  {
    hide Summarized, Filter, CanonicalSet, DistinctTexts, PortsKept;
    EveryRunKeeps(net, s, cs);
    AllIncluded(Run(net, s, cs).proxies);
    if StatusesFit(s.proxies) {
      SummaryAgrees(Run(net, s, cs).proxies);
    }
  }

  lemma {:induction false} AllIncluded(ps: seq<Proxy>)
    ensures |Filter(ps, All)| == |ps| == Summarized(ps).total
  {
    if ps != [] {
      AllIncluded(ps[..|ps| - 1]);
    }
  }

  // ---- a port is one proxy's for ever ----

  // The port is behind the cursor, and whoever has it is this proxy.
  ghost predicate OwnsPort(p: Identity, s: State) {
    p.port < s.nextPort && forall q :: q in s.proxies && q.port == p.port ==> Id(q) == p
  }

  lemma PortsOwned(s: State, p: Proxy)
    requires PortsKept(s) && p in s.proxies
    ensures OwnsPort(Id(p), s)
  {
    forall q | q in s.proxies && q.port == p.port
      ensures Id(q) == Id(p)
    {
      var i :| 0 <= i < |s.proxies| && s.proxies[i] == p;
      var j :| 0 <= j < |s.proxies| && s.proxies[j] == q;
      assert i == j;
    }
  }

  lemma OwnsPortKept(net: Codec, s: State, c: Change, p: Identity)
    requires net.Lawful() && OwnsPort(p, s)
    ensures OwnsPort(p, After(net, s, c))
  {
    ChangeKeeps(net, s, c);
    match c
    case Created(opts, entropy) =>
      if Allocated(net, s, opts, entropy).Ok? {
        AllocatedFresh(net, s, opts, entropy);
      }
    case _ =>
      var at := ChangeDescends(net, s, c);
      DescendsKeep(net, s.proxies, After(net, s, c).proxies, at);
  }

  lemma {:induction false} OwnsPortForever(net: Codec, s: State, cs: seq<Change>, p: Identity)
    requires net.Lawful() && OwnsPort(p, s)
    ensures OwnsPort(p, Run(net, s, cs))
  {
    if cs != [] {
      OwnsPortForever(net, s, cs[..|cs| - 1], p);
      OwnsPortKept(net, Run(net, s, cs[..|cs| - 1]), cs[|cs| - 1], p);
    }
  }

  // A port behind the cursor that one proxy has is never given to another proxy, even after its own was deleted.
  // Where ports are distinct and behind the cursor, this is every port (PortsOwned).
  lemma PortNeverReused(net: Codec, s: State, cs: seq<Change>, p: Proxy, q: Proxy)
    requires net.Lawful() && (PortsKept(s) || OwnsPort(Id(p), s)) && p in s.proxies
    requires q in Run(net, s, cs).proxies && q.port == p.port
    ensures Id(q) == Id(p)
  {
    if PortsKept(s) {
      PortsOwned(s, p);
    }
    OwnsPortForever(net, s, cs, Id(p));
  }

  // ---- health results that arrive late ----

  // The result that counts for proxy j of a snapshot: its first, or its second when the first is an error and no more
  // than 1000 proxies had one.
  ghost predicate CountingResult(snapshot: seq<Proxy>, probe: Probe, j: nat, v: Verdict) {
    var failed := set i: nat | i < |snapshot| && snapshot[i].enabled && probe(i, 0).Some?;
    v == if j in failed && |failed| <= 1000 then probe(j, 1) else probe(j, 0)
  }

  lemma FinalCounts(snapshot: seq<Proxy>, probe: Probe, j: nat)
    requires j < |snapshot|
    ensures CountingResult(snapshot, probe, j, FinalVerdict(snapshot, probe, j))
  {
    var failed := set i: nat | i < |snapshot| && snapshot[i].enabled && probe(i, 0).Some?;
    assert failed == FailedFirst(snapshot, probe);
  }

  // What a result makes of a proxy.
  ghost predicate Shows(p: Proxy, v: Verdict, now: nat, q: Proxy) {
    && (v == None ==> q == p.(status := Live, lastError := "", lastChecked := now))
    && (v.Some? ==> q == p.(status := Failed, lastError := v.value, lastChecked := now))
  }

  // What the merge makes of proxy p of the latest state, given the snapshot the checks were made on.
  ghost predicate Deserved(snapshot: seq<Proxy>, probe: Probe, p: Proxy, q: Proxy, now: nat) {
    if !p.enabled then q == p.(status := Disabled)
    else if p.port !in PortsOf(Enabled(snapshot)) then q == p
    else exists j: nat, v :: j < |snapshot| && snapshot[j].enabled && Id(snapshot[j]) == Id(p)
                             && CountingResult(snapshot, probe, j, v) && Shows(p, v, now, q)
  }

  // Whatever is committed between the two critical sections of a check, every enabled proxy that was in the snapshot gets
  // its own result, measured on the very same host, port, address and credentials, and no other proxy gets any. Nothing
  // is added, revived or reordered, and only status, error and time change.
  lemma ResultsReachTheirProxy(net: Codec, s: State, cs: seq<Change>, probe: Probe, checks: map<int, Verdict>,
      now: nat -> nat)
    requires net.Lawful() && PortsKept(s) && ChecksOf(s.proxies, probe, checks)
    ensures var latest := Run(net, s, cs).proxies;
            var merged := Merge(latest, checks, now);
            |merged| == |latest| && forall i :: 0 <= i < |latest| ==> Deserved(s.proxies, probe, latest[i], merged[i], now(i))
  {
    var latest := Run(net, s, cs).proxies;
    var merged := Merge(latest, checks, now);
    forall i | 0 <= i < |latest|
      ensures Deserved(s.proxies, probe, latest[i], merged[i], now(i))
    {
      var p := latest[i];
      if p.enabled && p.port in checks {
        var m :| m in Enabled(s.proxies) && m.port == p.port;
        var j: nat :| j < |s.proxies| && s.proxies[j] == m;
        assert p in latest;
        PortNeverReused(net, s, cs, m, p);
        FinalCounts(s.proxies, probe, j);
        assert Shows(p, checks[p.port], now(i), merged[i]);
      }
    }
  }

  // ---- how a proxy comes to its status ----

  // The first section of a check shows every enabled proxy as being checked, without an error, and nothing else.
  lemma MarksExactly(net: Codec, s: State)
    requires net.Lawful()
    ensures var qs := After(net, s, CheckStarted).proxies;
            |qs| == |s.proxies| && forall i :: 0 <= i < |qs| ==>
              qs[i] == if s.proxies[i].enabled then s.proxies[i].(status := Checking, lastError := "") else s.proxies[i]
  {
  }

  // A new token replaces the old one and nothing else.
  lemma RotatesExactly(net: Codec, s: State, token: string)
    requires net.Lawful()
    ensures var s' := After(net, s, TokenRotated(token));
            s'.token == token && s'.proxies == s.proxies && s'.prefix == s.prefix && s'.iface == s.iface
            && s'.publicIPv4 == s.publicIPv4
  {
  }

  // Proxy q has this result from the checks that were merged.
  ghost predicate FromCheck(c: Change, q: Proxy) {
    && c.CheckMerged? && q.port in c.checks
    && (q.status == Live <==> c.checks[q.port] == None)
    && (q.status == Failed ==> c.checks[q.port] == Some(q.lastError))
  }

  ghost predicate HadStatus(ps: seq<Proxy>, q: Proxy) {
    exists p :: p in ps && Id(p) == Id(q) && p.enabled && p.status == q.status && p.lastError == q.lastError
  }

  lemma JudgedOnce(net: Codec, s: State, c: Change, q: Proxy)
    requires net.Lawful() && q in After(net, s, c).proxies && q.status in {Live, Failed} && q.enabled
    ensures HadStatus(s.proxies, q) || FromCheck(c, q)
  {
    hide Planned, Mark, Merge, Allocated;
    match c
    case Created(opts, entropy) =>
      if Allocated(net, s, opts, entropy).Ok? {
        AllocatedFresh(net, s, opts, entropy);
      }
    case Acted(action, entries) => JudgedByNoAction(s.proxies, action, entries, q);
    case CheckMerged(checks, now) => JudgedByMerge(s.proxies, checks, now, q);
    case CheckStarted => MarksExactly(net, s);
    case _ =>
  }

  lemma JudgedByNoAction(ps: seq<Proxy>, action: string, entries: seq<Entry>, q: Proxy)
    requires q.status in {Live, Failed} && q.enabled
    ensures var kept := Planned(ps, action, entries).0; kept.Some? && q in kept.value ==> HadStatus(ps, q)
  {
    var kept := Planned(ps, action, entries).0;
    if kept.Some? && q in kept.value {
      var at := EditedFrom(ps, action, MatchAll(ps, entries).indexes);
      var k :| 0 <= k < |kept.value| && kept.value[k] == q;
      assert ps[at[k]] in ps;
    }
  }

  lemma JudgedByMerge(ps: seq<Proxy>, checks: map<int, Verdict>, now: nat -> nat, q: Proxy)
    requires q in Merge(ps, checks, now) && q.status in {Live, Failed} && q.enabled
    ensures HadStatus(ps, q) || FromCheck(CheckMerged(checks, now), q)
  {
    var k :| 0 <= k < |ps| && Merge(ps, checks, now)[k] == q;
    assert ps[k] in ps;
  }

  // Over every history an enabled proxy is live or failed only because it was from the start or because a check of its
  // port said so: no other change makes it one.
  lemma {:induction false} LiveOnlyByCheck(net: Codec, s: State, cs: seq<Change>, q: Proxy)
    requires net.Lawful() && q in Run(net, s, cs).proxies && q.status in {Live, Failed} && q.enabled
    ensures HadStatus(s.proxies, q) || exists c :: c in cs && FromCheck(c, q)
  {
    if cs != [] {
      var before, c := cs[..|cs| - 1], cs[|cs| - 1];
      JudgedOnce(net, Run(net, s, before), c, q);
      if FromCheck(c, q) {
        assert c in cs;
      } else {
        var p :| p in Run(net, s, before).proxies && Id(p) == Id(q) && p.enabled && p.status == q.status
                 && p.lastError == q.lastError;
        LiveOnlyByCheck(net, s, before, p);
        if !HadStatus(s.proxies, q) {
          var d :| d in before && FromCheck(d, p);
          assert d in cs && FromCheck(d, q);
        }
      }
    }
  }
}
