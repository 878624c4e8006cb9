// What the transaction keeps, for every fault schedule and every address text.
module ApplyLaws {
  import opened Model
  import opened Netip
  import opened Store
  import opened Apply

  function EnabledTexts(ps: seq<Proxy>): set<string> {
    set p | p in ps && p.enabled :: p.ipv6
  }

  function SetOf(s: seq<string>): set<string> {
    set t | t in s
  }

  // The kernel's names for the enabled addresses.
  function CanonTexts(net: Codec, ps: seq<Proxy>): set<string> {
    set p | p in ps && p.enabled :: net.Canon(p.ipv6)
  }

  // What the kernel calls these addresses.
  function CanonSet(net: Codec, texts: seq<string>): set<string> {
    set t | t in texts :: net.Canon(t)
  }

  // The kernel names addresses canonically: CurrentIPv6 gives the texts of its answer the form of Addr.String.
  ghost predicate KernelTexts(net: Codec, bound: set<string>) {
    forall t :: t in bound ==> net.Canonical(t)
  }

  ghost predicate RemovalsWork(env: Env) {
    forall t, a :: !env.fails(t, RemoveAddress(a))
  }

  ghost predicate RemovalsWorkFrom(env: Env, lo: nat) {
    forall t, a :: lo <= t ==> !env.fails(t, RemoveAddress(a))
  }

  ghost predicate RemovalWorks(env: Env, text: string) {
    forall t :: !env.fails(t, RemoveAddress(text))
  }

  ghost predicate AdditionsWork(env: Env) {
    forall t, a :: !env.fails(t, AddAddress(a))
  }

  predicate Within(net: Codec, prefix: Prefix, p: Proxy)
    requires WellSized(prefix)
  {
    net.parseAddr(p.ipv6).Some? && Contains(prefix, net.parseAddr(p.ipv6).value)
  }

  // ---- binding and unbinding ----

  // Where the binding loop stops: at the proxy that could not be bound, or at the end.
  function StopsAt(env: Env, w: World, prefix: Prefix, current: set<string>, ps: seq<Proxy>, i: nat): (k: nat)
    requires WellSized(prefix) && env.net.Lawful() && i <= |ps|
    ensures i <= k <= |ps|
    decreases |ps| - i
  {
    if i == |ps| then i
    else
      var p := ps[i];
      if !p.enabled then StopsAt(env, w, prefix, current, ps, i + 1)
      else if !Within(env.net, prefix, p) then i
      else if p.ipv6 in current then StopsAt(env, w, prefix, current, ps, i + 1)
      else
        var (w1, ok) := AddIPv6(env, w, p.ipv6);
        if ok then StopsAt(env, w1, prefix, current, ps, i + 1) else i
  }

  // Before proxy i: the enabled addresses are bound, and added counts their texts that were not bound as such.
  ghost predicate BoundUpTo(net: Codec, current: set<string>, bound: set<string>, ps: seq<Proxy>, added: seq<string>) {
    && bound == current + CanonTexts(net, ps) && KernelTexts(net, bound)
    && SetOf(added) == EnabledTexts(ps) - current
  }

  lemma BoundOneMore(net: Codec, current: set<string>, bound: set<string>, ps: seq<Proxy>, added: seq<string>, p: Proxy)
    requires net.Lawful() && KernelTexts(net, current) && BoundUpTo(net, current, bound, ps, added)
    ensures !p.enabled || p.ipv6 in current ==> BoundUpTo(net, current, bound, ps + [p], added)
    ensures p.enabled && p.ipv6 !in current && net.ZoneFreeV6(p.ipv6) ==>
              BoundUpTo(net, current, bound + {net.Canon(p.ipv6)}, ps + [p], added + [p.ipv6])
  {
    assert EnabledTexts(ps + [p]) == EnabledTexts(ps) + (if p.enabled then {p.ipv6} else {});
    assert CanonTexts(net, ps + [p]) == CanonTexts(net, ps) + (if p.enabled then {net.Canon(p.ipv6)} else {});
    assert SetOf(added + [p.ipv6]) == SetOf(added) + {p.ipv6};
    if net.ZoneFreeV6(p.ipv6) {
      net.FormatCanonical(net.parseAddr(p.ipv6).value.v);
    }
  }

  lemma {:induction false} BindEffect(env: Env, w: World, prefix: Prefix, current: set<string>, ps: seq<Proxy>,
      i: nat, added: seq<string>)
    requires WellSized(prefix) && env.net.Lawful() && i <= |ps| && KernelTexts(env.net, current)
    requires BoundUpTo(env.net, current, w.bound, ps[..i], added)
    ensures var (w', added', end) := BindFrom(env, w, prefix, current, ps, i, added);
            && w' == w.(bound := w'.bound, clock := w'.clock)
            && BoundUpTo(env.net, current, w'.bound, ps[..StopsAt(env, w, prefix, current, ps, i)], added')
    decreases |ps| - i
  {
    hide BoundUpTo, KernelTexts, Contains;
    if i < |ps| {
      var p := ps[i];
      assert ps[..i + 1] == ps[..i] + [p];
      BoundOneMore(env.net, current, w.bound, ps[..i], added, p);
      if !p.enabled || (Within(env.net, prefix, p) && p.ipv6 in current) {
        BindEffect(env, w, prefix, current, ps, i + 1, added);
      } else if Within(env.net, prefix, p) && AddIPv6(env, w, p.ipv6).1 {
        BindEffect(env, AddIPv6(env, w, p.ipv6).0, prefix, current, ps, i + 1, added + [p.ipv6]);
      }
    }
  }

  // Index of the first enabled proxy from i on whose address is not in the prefix.
  function FirstOutside(net: Codec, prefix: Prefix, ps: seq<Proxy>, i: nat): (k: nat)
    requires WellSized(prefix) && i <= |ps|
    ensures i <= k <= |ps|
    ensures k < |ps| ==> ps[k].enabled && !Within(net, prefix, ps[k])
    ensures forall j :: i <= j < k && ps[j].enabled ==> Within(net, prefix, ps[j])
    decreases |ps| - i
  {
    if i == |ps| || (ps[i].enabled && !Within(net, prefix, ps[i])) then i else FirstOutside(net, prefix, ps, i + 1)
  }

  // The loop reports the first proxy outside the prefix if that is where it stops, completes only if there is none,
  // and otherwise stops before it, at an addition that failed.
  lemma {:induction false} BindStops(env: Env, w: World, prefix: Prefix, current: set<string>, ps: seq<Proxy>, i: nat,
      added: seq<string>)
    requires WellSized(prefix) && env.net.Lawful() && i <= |ps|
    ensures var end := BindFrom(env, w, prefix, current, ps, i, added).2;
            var k, first := StopsAt(env, w, prefix, current, ps, i), FirstOutside(env.net, prefix, ps, i);
            && k <= first
            && (k < first <==> end.AddFailed?)
            && (k == first ==> end == if k == |ps| then AllBound else Outside(ps[k].port))
    decreases |ps| - i
  {
    hide Contains;
    if i < |ps| {
      var p := ps[i];
      if !p.enabled || (Within(env.net, prefix, p) && p.ipv6 in current) {
        BindStops(env, w, prefix, current, ps, i + 1, added);
      } else if Within(env.net, prefix, p) && AddIPv6(env, w, p.ipv6).1 {
        BindStops(env, AddIPv6(env, w, p.ipv6).0, prefix, current, ps, i + 1, added + [p.ipv6]);
      }
    }
  }

  lemma {:induction false} UnbindEffect(env: Env, w: World, added: seq<string>, i: nat)
    requires i <= |added| && KernelTexts(env.net, w.bound)
    ensures var w' := Unbind(env, w, added, i);
            && w' == w.(bound := w'.bound, clock := w'.clock)
            && w.bound - CanonSet(env.net, added[i..]) <= w'.bound <= w.bound
            && (forall t :: t in added[i..] && RemovalWorks(env, t) ==> env.net.Canon(t) !in w'.bound)
            && (RemovalsWorkFrom(env, w.clock) ==> w'.bound == w.bound - CanonSet(env.net, added[i..]))
    decreases |added| - i
  {
    if i < |added| {
      assert added[i..] == [added[i]] + added[i + 1..];
      assert CanonSet(env.net, added[i..]) == {env.net.Canon(added[i])} + CanonSet(env.net, added[i + 1..]);
      RemovesOne(env, w, added[i]);
      UnbindEffect(env, RemoveIPv6(env, w, added[i]), added, i + 1);
    } else {
      assert CanonSet(env.net, added[i..]) == {};
    }
  }

  // A text with a zone, which ip refuses, is no name of a bound address.
  lemma RemovesOne(env: Env, w: World, text: string)
    requires KernelTexts(env.net, w.bound)
    ensures var w' := RemoveIPv6(env, w, text);
            && w' == Tick(w).(bound := w'.bound) && w.bound - {env.net.Canon(text)} <= w'.bound <= w.bound
            && (RemovalWorks(env, text) ==> env.net.Canon(text) !in w'.bound)
            && (RemovalsWorkFrom(env, w.clock) ==> w'.bound == w.bound - {env.net.Canon(text)})
  {
  }

  // ---- texts that are not canonical ----

  // No enabled proxy names, by a text that is not bound as such, an address that is bound.
  ghost predicate NoAlias(net: Codec, bound: set<string>, ps: seq<Proxy>) {
    forall p :: p in ps && p.enabled && p.ipv6 !in bound ==> net.Canon(p.ipv6) !in bound
  }

  lemma CountedCanon(net: Codec, bound: set<string>, ps: seq<Proxy>, added: seq<string>)
    requires SetOf(added) == EnabledTexts(ps) - bound
    ensures forall p :: p in ps && p.enabled && p.ipv6 !in bound ==> net.Canon(p.ipv6) in CanonSet(net, added)
    ensures forall x :: x in CanonSet(net, added) ==>
              exists p :: p in ps && p.enabled && p.ipv6 !in bound && net.Canon(p.ipv6) == x
  {
    forall p | p in ps && p.enabled && p.ipv6 !in bound
      ensures net.Canon(p.ipv6) in CanonSet(net, added)
    {
      assert p.ipv6 in SetOf(added);
    }
    forall x | x in CanonSet(net, added)
      ensures exists p :: p in ps && p.enabled && p.ipv6 !in bound && net.Canon(p.ipv6) == x
    {
      var t :| t in added && net.Canon(t) == x;
      assert t in SetOf(added);
      var p :| p in ps && p.enabled && p.ipv6 == t;
    }
  }

  // What removing the counted texts takes away of what was bound before.
  lemma CountedAliases(net: Codec, bound: set<string>, ps: seq<Proxy>, added: seq<string>)
    requires KernelTexts(net, bound) && SetOf(added) == EnabledTexts(ps) - bound
    ensures bound * CanonSet(net, added) == {} <==> NoAlias(net, bound, ps)
    ensures bound + CanonTexts(net, ps) == bound + CanonSet(net, added)
  {
    hide SetOf, EnabledTexts, CanonSet;
    CountedCanon(net, bound, ps, added);
    if bound * CanonSet(net, added) == {} {
      forall p | p in ps && p.enabled && p.ipv6 !in bound
        ensures net.Canon(p.ipv6) !in bound
      {
        assert net.Canon(p.ipv6) !in bound * CanonSet(net, added);
      }
    }
    if NoAlias(net, bound, ps) {
      forall x | x in CanonSet(net, added)
        ensures x !in bound
      {
        var p :| p in ps && p.enabled && p.ipv6 !in bound && net.Canon(p.ipv6) == x;
      }
    }
    forall x | x in CanonTexts(net, ps)
      ensures x in bound + CanonSet(net, added)
    {
      var p :| p in ps && p.enabled && net.Canon(p.ipv6) == x;
    }
    forall x | x in CanonSet(net, added)
      ensures x in CanonTexts(net, ps)
    {
      var p :| p in ps && p.enabled && p.ipv6 !in bound && net.Canon(p.ipv6) == x;
    }
  }

  // ---- Prepare ----

  // From w to w', some of what Prepare does for state s has been done and nothing else.
  ghost predicate Refreshed(env: Env, w: World, w': World, s: State) {
    && w'.files == w.files
    && w.bound <= w'.bound <= w.bound + CanonTexts(env.net, s.proxies) && KernelTexts(env.net, w'.bound)
    && (w'.config == w.config || (w'.config.Some? && w'.config == env.render(s.proxies)))
    && (w'.full == w.full || w'.full == Some(env.list(s.proxies, false)))
    && (w'.live == w.live || w'.live == Some(env.list(s.proxies, true)))
  }

  // Everything Prepare does for state s has been done.
  ghost predicate Prepared(env: Env, w: World, s: State) {
    && CanonTexts(env.net, s.proxies) <= w.bound
    && w.config.Some? && w.config == env.render(s.proxies)
    && w.full == Some(env.list(s.proxies, false)) && w.live == Some(env.list(s.proxies, true))
  }

  lemma PutListsEffect(env: Env, w: World, ps: seq<Proxy>)
    ensures var (w', ok) := PutLists(env, w, ps);
            && w' == w.(full := w'.full, live := w'.live, clock := w'.clock)
            && (w'.full == w.full || w'.full == Some(env.list(ps, false)))
            && (w'.live == w.live || w'.live == Some(env.list(ps, true)))
            && (ok ==> w'.full == Some(env.list(ps, false)) && w'.live == Some(env.list(ps, true)))
            && (env.fails(w.clock, WriteFull) ==> !ok && w'.full == w.full && w'.live == w.live)
            && (!env.fails(w.clock, WriteFull) ==> w'.full == Some(env.list(ps, false)))
  {
  }

  lemma NothingBound(net: Codec, current: set<string>, ps: seq<Proxy>)
    requires KernelTexts(net, current)
    ensures BoundUpTo(net, current, current, ps[..0], [])
  {
    assert CanonTexts(net, ps[..0]) == {} && EnabledTexts(ps[..0]) == {} && SetOf([]) == {};
  }

  // In this order: the configuration is written when every address is bound, then the full list, then the live list.
  lemma PrepareStateEffect(env: Env, w: World, s: State)
    requires env.net.Lawful() && KernelTexts(env.net, w.bound)
    ensures var (w', ok) := PrepareState(env, w, s);
            && Refreshed(env, w, w', s) && w'.engine == w.engine && (ok ==> Prepared(env, w', s))
            && (w'.config == w.config || CanonTexts(env.net, s.proxies) <= w'.bound)
            && ((w'.full == w.full && w'.live == w.live) || w'.config == env.render(s.proxies))
            && (w'.live == w.live || w'.full == Some(env.list(s.proxies, false)))
  {
    if s.iface != "" && s.prefix != "" && env.net.parsePrefix(s.prefix).Some? {
      var prefix := env.net.parsePrefix(s.prefix).value;
      var (w1, current) := CurrentIPv6(env, w);
      if current.Some? {
        var ps := s.proxies;
        NothingBound(env.net, current.value, ps);
        BindEffect(env, w1, prefix, current.value, ps, 0, []);
        BindStops(env, w1, prefix, current.value, ps, 0, []);
        var (w2, added, end) := BindFrom(env, w1, prefix, current.value, ps, 0, []);
        var k := StopsAt(env, w1, prefix, current.value, ps, 0);
        assert CanonTexts(env.net, ps[..k]) <= CanonTexts(env.net, ps);
        assert end == AllBound ==> ps[..k] == ps;
        if end == AllBound && env.render(ps).Some? {
          var (w3, ok) := PutConfig(env, w2, env.render(ps).value);
          PutListsEffect(env, w3, ps);
        }
      }
    }
  }

  lemma LoadsTheSame(f: Files, a: bool, b: bool)
    ensures LoadFrom(f, a, b).Ok? ==> LoadFrom(f, a, b) == Load(f)
  {
  }

  lemma RestartEffect(env: Env, w: World, s: State)
    requires env.net.Lawful() && Load(w.files) == Ok(s) && KernelTexts(env.net, w.bound)
    ensures var (w', ok) := Restart(env, w);
            && Refreshed(env, w, w', s) && (ok ==> Prepared(env, w', s))
            && (w'.engine.Some? ==> ok && w'.engine == Some(Enabled(s.proxies)))
  {
    var stopped := Tick(w).(engine := None);
    if !env.fails(w.clock, PreStart) {
      var (w1, loaded) := LoadState(env, stopped);
      LoadsTheSame(w.files, !env.fails(stopped.clock, ReadState), !env.fails(stopped.clock, ReadBackup));
      if loaded.Ok? {
        PrepareStateEffect(env, w1, s);
        var w2 := PrepareState(env, w1, s).0;
        LoadsTheSame(w2.files, !env.fails(w2.clock, EngineLoads), !env.fails(w2.clock, ReadBackup));
      }
    }
  }

  lemma RefreshedTwice(env: Env, w: World, w': World, w'': World, s: State)
    requires Refreshed(env, w, w', s) && Refreshed(env, w', w'', s)
    ensures Refreshed(env, w, w'', s)
  {
  }

  // ---- saving ----

  lemma SaveEffect(env: Env, w: World, s: State)
    requires Decodable(w.files)
    ensures var (w', ok) := SaveState(env, w, s);
            && w' == w.(files := w'.files, clock := w'.clock) && Decodable(w'.files)
            && Load(w'.files) == (if ok then Ok(Fill(Stamp(s))) else Load(w.files))
            && (ok <==> !env.fails(w.clock, WriteBackup) && !env.fails(w.clock, WriteState))
  {
  }

  // ---- the launch ----

  lemma LaunchListsEffect(env: Env, w: World, s: State)
    requires Prepared(env, w, s) && w.engine == Some(Enabled(s.proxies)) && KernelTexts(env.net, w.bound)
    ensures var (w', failed) := LaunchLists(env, w, s);
            && Refreshed(env, w, w', s) && Prepared(env, w', s) && w'.engine == w.engine
  {
    PutListsEffect(env, w, s.proxies);
  }

  // The engine that a failure at this stage leaves behind: the old one before any restart, none after a restart that
  // failed, and otherwise at most the candidate's.
  ghost predicate EngineAfter(stage: Stage, before: Option<seq<Proxy>>, after: Option<seq<Proxy>>, candidate: State) {
    match stage
    case AtSave => after == before
    case AtRestart => after == None
    case AtRetry => after == None
    case AtProbe => after == None || after == Some(Enabled(candidate.proxies))
    case AtLists => after == Some(Enabled(candidate.proxies))
  }

  lemma LaunchEffect(env: Env, w: World, candidate: State, s: State)
    requires env.net.Lawful() && Load(w.files) == Ok(s) && s.proxies == candidate.proxies
    requires KernelTexts(env.net, w.bound)
    ensures var (w', failed) := Launch(env, w, candidate);
            && Refreshed(env, w, w', candidate)
            && (failed == None ==> Prepared(env, w', candidate) && w'.engine == Some(Enabled(candidate.proxies)))
            && (failed.Some? ==> failed.value != AtSave && EngineAfter(failed.value, w.engine, w'.engine, candidate))
  {
    var (w1, started) := Restart(env, w);
    RestartEffect(env, w, s);
    if started {
      var (w2, active) := Active(env, w1);
      if active {
        LaunchListsEffect(env, w2, candidate);
      } else {
        var (w3, restarted) := Restart(env, w2);
        RestartEffect(env, w2, s);
        RefreshedTwice(env, w, w1, w3, candidate);
        if restarted && Active(env, w3).1 {
          LaunchListsEffect(env, Active(env, w3).0, candidate);
        }
      }
    }
  }

  // ---- time goes on ----

  lemma {:induction false} BindClock(env: Env, w: World, prefix: Prefix, current: set<string>, ps: seq<Proxy>, i: nat,
      added: seq<string>)
    requires WellSized(prefix) && env.net.Lawful() && i <= |ps|
    ensures var w' := BindFrom(env, w, prefix, current, ps, i, added).0;
            w' == w.(bound := w'.bound, clock := w'.clock) && w.clock <= w'.clock && w.bound <= w'.bound
    decreases |ps| - i
  {
    if i < |ps| {
      var p := ps[i];
      if !p.enabled || (Within(env.net, prefix, p) && p.ipv6 in current) {
        BindClock(env, w, prefix, current, ps, i + 1, added);
      } else if Within(env.net, prefix, p) && AddIPv6(env, w, p.ipv6).1 {
        BindClock(env, AddIPv6(env, w, p.ipv6).0, prefix, current, ps, i + 1, added + [p.ipv6]);
      }
    }
  }

  lemma PrepareClock(env: Env, w: World, s: State)
    requires env.net.Lawful()
    ensures var w' := PrepareState(env, w, s).0;
            w.clock <= w'.clock && w'.files == w.files && w'.engine == w.engine && w.bound <= w'.bound
  {
    if s.iface != "" && s.prefix != "" && env.net.parsePrefix(s.prefix).Some? {
      var (w1, current) := CurrentIPv6(env, w);
      if current.Some? {
        BindClock(env, w1, env.net.parsePrefix(s.prefix).value, current.value, s.proxies, 0, []);
      }
    }
  }

  lemma RestartClock(env: Env, w: World)
    requires env.net.Lawful()
    ensures var w' := Restart(env, w).0; w.clock < w'.clock && w'.files == w.files && w.bound <= w'.bound
  {
    hide PrepareState;
    var stopped := Tick(w).(engine := None);
    var (w1, loaded) := LoadState(env, stopped);
    if loaded.Ok? {
      PrepareClock(env, w1, loaded.value);
    }
  }

  // ---- the rollback ----

  // The state that is stored while the rollback's restart runs Prepare.
  function During(original: State, stored: State, stateChanged: bool, undo: Undo): State {
    if stateChanged && undo.state then Fill(Stamp(original)) else stored
  }

  lemma RollbackEffect(env: Env, w: World, original: State, stored: State, oldConfig: Option<string>,
      stateChanged: bool, added: seq<string>)
    requires env.net.Lawful() && Decodable(w.files) && Load(w.files) == Ok(stored) && KernelTexts(env.net, w.bound)
    ensures var (w', undo) := Rollback(env, w, original, oldConfig, stateChanged, added);
            var s := During(original, stored, stateChanged, undo);
            && Decodable(w'.files) && Load(w'.files) == Ok(s) && (!stateChanged ==> undo.state && w'.files == w.files)
            && KernelTexts(env.net, w'.bound)
            && w.bound - CanonSet(env.net, added) <= w'.bound <= w.bound + CanonTexts(env.net, s.proxies)
            && (RemovalsWorkFrom(env, w.clock) ==> w'.bound * CanonSet(env.net, added) == {})
            && (undo.config ==>
                  (oldConfig.Some? && (w'.config == oldConfig || (w'.config.Some? && w'.config == env.render(s.proxies)))))
            && (oldConfig.None? ==> !undo.config && w'.config == w.config && w'.engine == w.engine)
            && (oldConfig.Some? ==> w'.engine == None || w'.engine == Some(Enabled(s.proxies)))
            && (undo.full ==> w'.full == Some(env.list(original.proxies, false)))
  {
    hide CanonSet, CanonTexts, Restart, Unbind;
    var w1 := if stateChanged then SaveState(env, w, original).0 else w;
    var undo := Rollback(env, w, original, oldConfig, stateChanged, added).1;
    SaveEffect(env, w, original);
    var s := During(original, stored, stateChanged, undo);
    assert Load(w1.files) == Ok(s);
    var w2 := if oldConfig.None? then w1 else Restart(env, PutConfig(env, w1, oldConfig.value).0).0;
    if oldConfig.Some? {
      RestartEffect(env, PutConfig(env, w1, oldConfig.value).0, s);
    }
    if oldConfig.Some? {
      RestartClock(env, PutConfig(env, w1, oldConfig.value).0);
    }
    PutListsEffect(env, w2, original.proxies);
    assert added[0..] == added;
    UnbindEffect(env, PutLists(env, w2, original.proxies).0, added, 0);
  }

  // ---- the transaction as a whole ----

  // The configuration and the full list are the ones printed from this list of proxies.
  ghost predicate Coherent(env: Env, w: World, ps: seq<Proxy>) {
    w.config.Some? && w.config == env.render(ps) && w.full == Some(env.list(ps, false))
  }

  ghost predicate UndoWorked(undo: Undo) {
    undo.state && undo.config && undo.full
  }

  // The bound set after an undone transaction, up to addresses that only the original uses.
  ghost predicate AddressesRestored(net: Codec, before: set<string>, after: set<string>, original: State,
      candidate: State) {
    before <= after <= before + (CanonTexts(net, original.proxies) - CanonTexts(net, candidate.proxies))
  }

  // What a rollback does to the bound set: it loses nothing unless the candidate names a bound address by another text,
  // and, when removals succeed, it does lose such an address and otherwise restores the set.
  ghost predicate AddressesUndone(net: Codec, removed: bool, before: set<string>, after: set<string>, original: State,
      candidate: State) {
    && (NoAlias(net, before, candidate.proxies) ==> before <= after)
    && (removed && before <= after ==> NoAlias(net, before, candidate.proxies))
    && (removed && NoAlias(net, before, candidate.proxies) ==> AddressesRestored(net, before, after, original, candidate))
  }

  lemma Overlap(before: set<string>, after: set<string>, gone: set<string>)
    requires before - gone <= after
    ensures before * gone == {} ==> before <= after
    ensures after * gone == {} && before <= after ==> before * gone == {}
  {
    if before * gone == {} {
      forall t | t in before
        ensures t in after
      {
        assert t !in before * gone && t in before - gone;
      }
    }
    if after * gone == {} && before <= after {
      forall t | t in before && t in gone
        ensures t in after * gone
      {
      }
    }
  }

  lemma UndoneExactly(net: Codec, removed: bool, before: set<string>, bound: set<string>, after: set<string>, original: State,
      candidate: State, s: State, added: seq<string>)
    requires KernelTexts(net, before) && BoundUpTo(net, before, bound, candidate.proxies, added)
    requires s.proxies == original.proxies || s.proxies == candidate.proxies
    requires bound - CanonSet(net, added) <= after <= bound + CanonTexts(net, s.proxies)
    requires removed ==> after * CanonSet(net, added) == {}
    ensures AddressesUndone(net, removed, before, after, original, candidate)
  {
    hide NoAlias, CanonTexts, CanonSet;
    CountedAliases(net, before, candidate.proxies, added);
    Overlap(before, after, CanonSet(net, added));
    if removed && NoAlias(net, before, candidate.proxies) {
      forall t | t in after && t !in before
        ensures t in CanonTexts(net, original.proxies) && t !in CanonTexts(net, candidate.proxies)
      {
        assert t !in after * CanonSet(net, added);
        assert t in before + CanonTexts(net, candidate.proxies) ==> t in before + CanonSet(net, added);
      }
    }
  }

  // What Install guarantees, per outcome. The stored state is the candidate, the original, or, when the
  // rollback could not save, still the candidate.
  // readable says whether the old configuration could be read. If so, the engine was restarted after the undoing and
  // serves the stored proxies or nothing; if not, the configuration is the candidate's and the engine what the failure
  // left.
  ghost predicate Installed(env: Env, before: set<string>, w: World, w': World, original: State, candidate: State,
      readable: bool, outcome: Outcome) {
    && Decodable(w'.files) && Load(w'.files).Ok? && KernelTexts(env.net, w'.bound)
    && match outcome
       case Applied =>
         && Load(w'.files).value == Fill(Stamp(candidate))
         && Prepared(env, w', candidate) && w'.engine == Some(Enabled(candidate.proxies))
         && w'.bound == before + CanonTexts(env.net, candidate.proxies)
       case ConfigFailed => w' == w.(clock := w'.clock)
       case RolledBack(stage, undo) =>
         && Load(w'.files).value.proxies == (if undo.state then original else candidate).proxies
         && (undo.state ==> Load(w'.files).value == original || Load(w'.files).value == Fill(Stamp(original)))
         && (!undo.state ==> Load(w'.files).value == Fill(Stamp(candidate)))
         && AddressesUndone(env.net, RemovalsWork(env), before, w'.bound, original, candidate)
         && (readable ==> w'.engine == None || w'.engine == Some(Enabled(Load(w'.files).value.proxies)))
         && (!readable ==> w'.config == env.render(candidate.proxies) && EngineAfter(stage, w.engine, w'.engine, candidate))
         && (Coherent(env, w, original.proxies) && UndoWorked(undo) ==> Coherent(env, w', original.proxies))
       case _ => false
  }

  lemma SaveFails(env: Env, before: set<string>, w: World, w3: World, original: State, candidate: State,
      oldConfig: Option<string>, added: seq<string>)
    requires env.net.Lawful() && KernelTexts(env.net, before)
    requires BoundUpTo(env.net, before, w.bound, candidate.proxies, added)
    requires w3 == w.(config := w3.config, files := w3.files, clock := w3.clock)
    requires w3.config == env.render(candidate.proxies)
    requires Decodable(w3.files) && Load(w3.files) == Ok(original) && (oldConfig.Some? ==> oldConfig == w.config)
    ensures var (w', undo) := Rollback(env, w3, original, oldConfig, false, added);
            Installed(env, before, w, w', original, candidate, oldConfig.Some?, RolledBack(AtSave, undo))
  {
    hide Rollback, AddressesUndone;
    RollbackEffect(env, w3, original, original, oldConfig, false, added);
    var w' := Rollback(env, w3, original, oldConfig, false, added).0;
    UndoneExactly(env.net, RemovalsWork(env), before, w3.bound, w'.bound, original, candidate, original, added);
  }

  lemma LaunchFails(env: Env, before: set<string>, w: World, w4: World, original: State, candidate: State,
      oldConfig: Option<string>, added: seq<string>, stage: Stage)
    requires env.net.Lawful() && KernelTexts(env.net, before)
    requires BoundUpTo(env.net, before, w4.bound, candidate.proxies, added)
    requires Decodable(w4.files) && Load(w4.files) == Ok(Fill(Stamp(candidate)))
    requires w4.config == env.render(candidate.proxies) && EngineAfter(stage, w.engine, w4.engine, candidate)
    requires oldConfig.Some? ==> oldConfig == w.config
    ensures var (w', undo) := Rollback(env, w4, original, oldConfig, true, added);
            Installed(env, before, w, w', original, candidate, oldConfig.Some?, RolledBack(stage, undo))
  {
    hide Rollback, AddressesUndone;
    var s := Fill(Stamp(candidate));
    RollbackEffect(env, w4, original, s, oldConfig, true, added);
    var (w5, undo) := Rollback(env, w4, original, oldConfig, true, added);
    UndoneExactly(env.net, RemovalsWork(env), before, w4.bound, w5.bound, original, candidate, During(original, s, true, undo), added);
  }

  predicate ConfigReads(env: Env, w: World) {
    w.config.Some? && !env.fails(w.clock, ReadConfig)
  }

  lemma InstallEffect(env: Env, before: set<string>, w: World, original: State, candidate: State, text: string,
      added: seq<string>)
    requires env.net.Lawful() && Decodable(w.files) && Load(w.files) == Ok(original)
    requires KernelTexts(env.net, before) && BoundUpTo(env.net, before, w.bound, candidate.proxies, added)
    requires env.render(candidate.proxies) == Some(text)
    ensures var (w', outcome) := Install(env, w, original, candidate, text, added);
            Installed(env, before, w, w', original, candidate, ConfigReads(env, w), outcome)
  {
    hide Rollback, Launch, AddressesUndone, Coherent;
    var (w1, oldConfig) := ReadConfigFile(env, w);
    var (w2, wrote) := PutConfig(env, w1, text);
    if wrote {
      var (w3, saved) := SaveState(env, w2, candidate);
      SaveEffect(env, w2, candidate);
      if !saved {
        SaveFails(env, before, w, w3, original, candidate, oldConfig, added);
      } else {
        LaunchEffect(env, w3, candidate, Fill(Stamp(candidate)));
        var (w4, failed) := Launch(env, w3, candidate);
        assert w4.bound == before + CanonTexts(env.net, candidate.proxies);
        if failed.Some? {
          LaunchFails(env, before, w, w4, original, candidate, oldConfig, added, failed.value);
        }
      }
    }
  }

  // The proxy at which a transaction's binding stops.
  function FailsAt(env: Env, w: World, candidate: State): (k: nat)
    requires env.net.Lawful() && env.net.parsePrefix(candidate.prefix).Some?
    ensures k <= |candidate.proxies|
  {
    StopsAt(env, Tick(w), env.net.parsePrefix(candidate.prefix).value, w.bound, candidate.proxies, 0)
  }

  // Whether the configuration can be read when the transaction, its addresses bound, comes to it.
  predicate ConfigReadable(env: Env, w: World, candidate: State)
    requires env.net.Lawful() && env.net.parsePrefix(candidate.prefix).Some?
  {
    var prefix := env.net.parsePrefix(candidate.prefix).value;
    ConfigReads(env, w.(clock := BindFrom(env, Tick(w), prefix, w.bound, candidate.proxies, 0, []).0.clock))
  }

  // The candidate's proxies before the first one whose address is outside the prefix.
  function BeforeOutside(net: Codec, candidate: State): seq<Proxy>
    requires net.Lawful() && net.parsePrefix(candidate.prefix).Some?
  {
    candidate.proxies[..FirstOutside(net, net.parsePrefix(candidate.prefix).value, candidate.proxies, 0)]
  }

  // What a transaction from w to w' guarantees, per outcome.
  ghost predicate Transacted(env: Env, w: World, w': World, original: State, candidate: State, outcome: Outcome)
    requires env.net.Lawful()
  {
    match outcome
    case Refused => w' == w.(clock := w'.clock)
    case OutsidePrefix(port) =>
      && env.net.parsePrefix(candidate.prefix).Some?
      && w' == w.(bound := w.bound + CanonTexts(env.net, BeforeOutside(env.net, candidate)), clock := w'.clock)
      && KernelTexts(env.net, w'.bound)
      && var k := |BeforeOutside(env.net, candidate)|;
         k < |candidate.proxies| && port == candidate.proxies[k].port
    case BindFailed =>
      && env.net.parsePrefix(candidate.prefix).Some?
      && w' == w.(bound := w'.bound, clock := w'.clock) && KernelTexts(env.net, w'.bound)
      && BindingUndone(env, w.bound, w'.bound, candidate.proxies[..FailsAt(env, w, candidate)])
    case ConfigFailed =>
      && w' == w.(bound := w.bound + CanonTexts(env.net, candidate.proxies), clock := w'.clock)
      && KernelTexts(env.net, w'.bound)
    case _ =>
      && env.net.parsePrefix(candidate.prefix).Some?
      && Installed(env, w.bound, w, w', original, candidate, ConfigReadable(env, w, candidate), outcome)
  }

  // The bound set after the addresses of these proxies were bound and the counted ones unbound.
  ghost predicate BindingUndone(env: Env, before: set<string>, after: set<string>, ps: seq<Proxy>) {
    && (NoAlias(env.net, before, ps) ==> before <= after)
    && (RemovalsWork(env) ==> after <= before && (after == before <==> NoAlias(env.net, before, ps)))
  }

  lemma UnboundAgain(env: Env, w: World, before: set<string>, ps: seq<Proxy>, added: seq<string>)
    requires KernelTexts(env.net, before) && BoundUpTo(env.net, before, w.bound, ps, added)
    ensures var w' := Unbind(env, w, added, 0);
            && w' == w.(bound := w'.bound, clock := w'.clock) && KernelTexts(env.net, w'.bound)
            && BindingUndone(env, before, w'.bound, ps)
  {
    hide CanonSet, CanonTexts, NoAlias, Unbind;
    CountedAliases(env.net, before, ps, added);
    assert added[0..] == added;
    UnbindEffect(env, w, added, 0);
    Overlap(before, Unbind(env, w, added, 0).bound, CanonSet(env.net, added));
  }

  // The transaction, for every fault schedule and whatever the texts are.
  lemma ApplyEffect(env: Env, w: World, original: State, candidate: State)
    requires env.net.Lawful() && Decodable(w.files) && Load(w.files) == Ok(original) && KernelTexts(env.net, w.bound)
    ensures var (w', outcome) := ApplyCandidate(env, w, original, candidate);
            Transacted(env, w, w', original, candidate, outcome)
  {
    hide Install, BindFrom, Unbind, BindingUndone, AddressesUndone, KernelTexts, CanonTexts;
    var parsed, rendered := env.net.parsePrefix(candidate.prefix), env.render(candidate.proxies);
    var (w1, current) := CurrentIPv6(env, w);
    if candidate.publicIPv4 != "" && candidate.iface != "" && candidate.prefix != ""
      && parsed.Some? && rendered.Some? && current.Some?
    {
      var ps := candidate.proxies;
      NothingBound(env.net, w.bound, ps);
      BindEffect(env, w1, parsed.value, w.bound, ps, 0, []);
      BindStops(env, w1, parsed.value, w.bound, ps, 0, []);
      var (w2, added, end) := BindFrom(env, w1, parsed.value, w.bound, ps, 0, []);
      var k := FailsAt(env, w, candidate);
      match end
      case Outside(port) =>
      case AddFailed => UnboundAgain(env, w2, w.bound, ps[..k], added);
      case AllBound =>
        assert ps[..k] == ps;
        InstallEffect(env, w.bound, w2, original, candidate, rendered.value, added);
        InstalledFrom(env, w, w2, Install(env, w2, original, candidate, rendered.value, added).0, original, candidate,
                      Install(env, w2, original, candidate, rendered.value, added).1, added, ConfigReads(env, w2));
    }
  }

  lemma InstalledFrom(env: Env, w: World, w2: World, w': World, original: State, candidate: State, outcome: Outcome,
      added: seq<string>, readable: bool)
    requires w2 == w.(bound := w2.bound, clock := w2.clock)
    requires BoundUpTo(env.net, w.bound, w2.bound, candidate.proxies, added)
    requires env.net.Lawful() && Installed(env, w.bound, w2, w', original, candidate, readable, outcome)
    requires env.net.parsePrefix(candidate.prefix).Some? && readable == ConfigReadable(env, w, candidate)
    ensures Transacted(env, w, w', original, candidate, outcome)
  {
    hide AddressesUndone, KernelTexts, CanonTexts, Prepared;
  }
}
