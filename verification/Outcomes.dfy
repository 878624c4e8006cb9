// Which outcome a transaction has, and what is left of a failed one: for faults that strike at one moment, and for steps
// that keep failing.
module Outcomes {
  import opened Model
  import opened Netip
  import opened Config
  import opened Store
  import opened Apply
  import opened ApplyLaws
  import opened AllocateLaws
  import opened Undoing
  import opened Printers
  import opened Faultless
  import opened Operations

  // A transaction is refused exactly when the network is not known, its prefix cannot be read, the proxies cannot be
  // rendered, or the addresses of the interface cannot be listed.
  lemma RefusedExactly(env: Env, w: World, original: State, candidate: State)
    requires Faithful(env)
    ensures ApplyCandidate(env, w, original, candidate).1 == Refused <==>
              || candidate.publicIPv4 == "" || candidate.iface == "" || candidate.prefix == ""
              || env.net.parsePrefix(candidate.prefix).None? || !Renderable(env.net, candidate.proxies)
              || env.fails(w.clock, ReadAddresses)
  {
    hide Renderable, Rollback, Launch, BindFrom;
    RendersExactly(env, candidate.proxies);
  }

  // ---- what a rollback restores ----

  // Everything a client or the next operation can see is the original's again.
  ghost predicate FullyUndone(env: Env, before: set<string>, w': World, original: State, candidate: State, undo: Undo) {
    && undo == Undo(true, true, true)
    && Load(w'.files).Ok? && (Load(w'.files).value == original || Load(w'.files).value == Fill(Stamp(original)))
    && w'.config.Some? && w'.config == env.render(original.proxies)
    && w'.full == Some(env.list(original.proxies, false)) && w'.live == Some(env.list(original.proxies, true))
    && w'.engine == Some(Enabled(original.proxies))
    && AddressesUndone(env.net, true, before, w'.bound, original, candidate)
  }

  lemma {:induction false} UnbindClock(env: Env, w: World, added: seq<string>, i: nat)
    requires i <= |added|
    ensures var w' := Unbind(env, w, added, i);
            w' == w.(bound := w'.bound, clock := w'.clock) && w.clock <= w'.clock
    decreases |added| - i
  {
    if i < |added| {
      UnbindClock(env, RemoveIPv6(env, w, added[i]), added, i + 1);
    }
  }

  ghost predicate QuietFrom(env: Env, lo: nat) {
    forall t, step :: lo <= t && step != ProbeEngine ==> !env.fails(t, step)
  }

  lemma QuietAfter(env: Env, lo: nat, from: nat, to: nat)
    requires QuietFrom(env, lo) && lo <= from
    ensures Quiet(env, from, to) && QuietFrom(env, from) && RemovalsWorkFrom(env, from)
  {
  }

  // The part of the rollback that puts the configuration back and restarts the engine.
  lemma RestartUndoes(env: Env, w: World, s: State, oldConfig: string)
    requires Faithful(env) && Preparable(env.net, s) && Load(w.files) == Ok(s) && KernelTexts(env.net, w.bound)
    requires QuietFrom(env, w.clock)
    ensures var (w1, wrote) := PutConfig(env, w, oldConfig);
            var (w2, ok) := Restart(env, w1);
            && wrote && w2.engine == Some(Enabled(s.proxies)) && w.clock < w2.clock && w2.files == w.files
            && w2.config.Some? && w2.config == env.render(s.proxies)
  {
    hide Restart, Preparable, Faithful;
    FaithfulIsLawful(env);
    var w1 := PutConfig(env, w, oldConfig).0;
    assert !env.fails(w.clock, WriteConfig);
    RestartClock(env, w1);
    QuietAfter(env, w.clock, w1.clock, Restart(env, w1).0.clock);
    RestartsIf(env, w1, s);
    RestartEffect(env, w1, s);
  }

  // The worlds of a rollback that had a configuration to put back: after the save, the restart and the lists.
  function AfterSaveBack(env: Env, w: World, original: State, stateChanged: bool): World {
    if stateChanged then SaveState(env, w, original).0 else w
  }

  function AfterRestartBack(env: Env, w: World, original: State, oldConfig: string, stateChanged: bool): World
    requires env.net.Lawful()
  {
    Restart(env, PutConfig(env, AfterSaveBack(env, w, original, stateChanged), oldConfig).0).0
  }

  lemma SavesBack(env: Env, w: World, original: State, stored: State, stateChanged: bool)
    requires QuietFrom(env, w.clock) && Decodable(w.files) && Load(w.files) == Ok(stored)
    requires !stateChanged ==> stored == original
    ensures var w1 := AfterSaveBack(env, w, original, stateChanged);
            && w1 == w.(files := w1.files, clock := w1.clock) && w.clock <= w1.clock && QuietFrom(env, w1.clock)
            && Load(w1.files) == Ok(if stateChanged then Fill(Stamp(original)) else original)
            && (stateChanged ==> SaveState(env, w, original).1)
  {
    SaveEffect(env, w, original);
    assert !env.fails(w.clock, WriteBackup) && !env.fails(w.clock, WriteState);
  }

  lemma ListsBack(env: Env, w: World, ps: seq<Proxy>)
    requires QuietFrom(env, w.clock)
    ensures var (w', ok) := PutLists(env, w, ps);
            && ok && w' == w.(full := w'.full, live := w'.live, clock := w'.clock) && w.clock <= w'.clock
            && w'.full == Some(env.list(ps, false)) && w'.live == Some(env.list(ps, true))
            && PutFull(env, w, env.list(ps, false)).1
  {
    assert !env.fails(w.clock, WriteFull) && !env.fails(w.clock + 1, WriteLive);
    PutListsEffect(env, w, ps);
  }

  // With a readable old configuration and nothing failing from its start on, a rollback restores everything.
  lemma RollbackRestores(env: Env, before: set<string>, w: World, original: State, candidate: State, stored: State,
      oldConfig: string, stateChanged: bool, added: seq<string>)
    requires Faithful(env) && Preparable(env.net, original) && QuietFrom(env, w.clock)
    requires Decodable(w.files) && Load(w.files) == Ok(stored) && (!stateChanged ==> stored == original)
    requires KernelTexts(env.net, before) && KernelTexts(env.net, w.bound)
    requires BoundUpTo(env.net, before, w.bound, candidate.proxies, added)
    ensures var (w', undo) := Rollback(env, w, original, Some(oldConfig), stateChanged, added);
            FullyUndone(env, before, w', original, candidate, undo)
  {
    hide Restart, Preparable, Faithful, Unbind, BoundUpTo, AddressesUndone, PutLists, KernelTexts, QuietFrom, AfterSaveBack,
         SaveState, PutFull, RemovalsWorkFrom, CanonTexts, CanonSet, Fill;
    FaithfulIsLawful(env);
    var w1 := AfterSaveBack(env, w, original, stateChanged);
    SavesBack(env, w, original, stored, stateChanged);
    var s := if stateChanged then Fill(Stamp(original)) else original;
    StoredPreparable(env.net, original);
    FillsProxies(original);
    RestartUndoes(env, w1, s, oldConfig);
    var w2 := AfterRestartBack(env, w, original, oldConfig, stateChanged);
    QuietAfter(env, w1.clock, w2.clock, w2.clock);
    ListsBack(env, w2, original.proxies);
    var w3 := PutLists(env, w2, original.proxies).0;
    UnbindClock(env, w3, added, 0);
    RollbackSteps(env, w, original, oldConfig, stateChanged, added);
    RollbackEffect(env, w, original, stored, Some(oldConfig), stateChanged, added);
    QuietAfter(env, w.clock, w.clock, w.clock);
    UndoneExactly(env.net, true, before, w.bound, Unbind(env, w3, added, 0).bound, original, candidate, s, added);
  }

  lemma FillsProxies(s: State)
    ensures Fill(Stamp(s)).proxies == s.proxies
  {
  }

  lemma RollbackSteps(env: Env, w: World, original: State, oldConfig: string, stateChanged: bool, added: seq<string>)
    requires env.net.Lawful()
    ensures var w1, w2 := AfterSaveBack(env, w, original, stateChanged), AfterRestartBack(env, w, original, oldConfig, stateChanged);
            var w3 := PutLists(env, w2, original.proxies).0;
            Rollback(env, w, original, Some(oldConfig), stateChanged, added)
              == (Unbind(env, w3, added, 0),
                  Undo(!stateChanged || SaveState(env, w, original).1, PutConfig(env, w1, oldConfig).1,
                       PutFull(env, w2, env.list(original.proxies, false)).1))
  {
    hide Restart, Unbind, PutLists, PutFull;
  }

  // ---- the moment of failure ----

  // The world in which a transaction whose addresses are bound fails, before anything is undone.
  function FailedInstall(env: Env, w: World, candidate: State, text: string): World
    requires env.net.Lawful()
  {
    var w2 := PutConfig(env, ReadConfigFile(env, w).0, text).0;
    var (w3, saved) := SaveState(env, w2, candidate);
    if saved then Launch(env, w3, candidate).0 else w3
  }

  lemma InstallRestores(env: Env, before: set<string>, w: World, original: State, candidate: State, text: string,
      added: seq<string>)
    requires Faithful(env) && Preparable(env.net, original)
    requires Decodable(w.files) && Load(w.files) == Ok(original) && KernelTexts(env.net, before)
    requires BoundUpTo(env.net, before, w.bound, candidate.proxies, added) && ConfigReads(env, w)
    requires QuietFrom(env, FailedInstall(env, w, candidate, text).clock)
    ensures var (w', outcome) := Install(env, w, original, candidate, text, added);
            outcome.RolledBack? ==> FullyUndone(env, before, w', original, candidate, outcome.undo)
  {
    hide Launch, Rollback, FullyUndone, Preparable, Faithful, QuietFrom;
    FaithfulIsLawful(env);
    var (w1, oldConfig) := ReadConfigFile(env, w);
    var (w2, wrote) := PutConfig(env, w1, text);
    if wrote {
      var (w3, saved) := SaveState(env, w2, candidate);
      SaveEffect(env, w2, candidate);
      if !saved {
        RollbackRestores(env, before, w3, original, candidate, original, oldConfig.value, false, added);
      } else {
        LaunchEffect(env, w3, candidate, Fill(Stamp(candidate)));
        var w4 := Launch(env, w3, candidate).0;
        assert w4.bound == w.bound;
        RollbackRestores(env, before, w4, original, candidate, Fill(Stamp(candidate)), oldConfig.value, true, added);
      }
    }
  }

  // The moment at which a transaction that is rolled back begins to be.
  function FailureTime(env: Env, w: World, candidate: State): nat
    requires env.net.Lawful() && env.net.parsePrefix(candidate.prefix).Some? && env.render(candidate.proxies).Some?
  {
    var prefix := env.net.parsePrefix(candidate.prefix).value;
    var w2 := BindFrom(env, Tick(w), prefix, w.bound, candidate.proxies, 0, []).0;
    FailedInstall(env, w2, candidate, env.render(candidate.proxies).value).clock
  }

  // A transaction that is rolled back, with a configuration that could be read and nothing failing from the moment of
  // failure on, leaves the stored state, the configuration, both lists and the running engine as they were for the
  // original, and the addresses up to aliases.
  lemma UndoneCompletely(env: Env, w: World, original: State, candidate: State)
    requires Faithful(env) && Decodable(w.files) && Load(w.files) == Ok(original) && KernelTexts(env.net, w.bound)
    requires Preparable(env.net, original) && ApplyCandidate(env, w, original, candidate).1.RolledBack?
    requires ConfigReadable(env, w, candidate) && QuietFrom(env, FailureTime(env, w, candidate))
    ensures var (w', outcome) := ApplyCandidate(env, w, original, candidate);
            FullyUndone(env, w.bound, w', original, candidate, outcome.undo)
  {
    hide Install, Preparable, Faithful, QuietFrom, FullyUndone, BindFrom;
    FaithfulIsLawful(env);
    var prefix, text := env.net.parsePrefix(candidate.prefix).value, env.render(candidate.proxies).value;
    var w1, ps := Tick(w), candidate.proxies;
    NothingBound(env.net, w.bound, ps);
    BindEffect(env, w1, prefix, w.bound, ps, 0, []);
    BindStops(env, w1, prefix, w.bound, ps, 0, []);
    var (w2, added, end) := BindFrom(env, w1, prefix, w.bound, ps, 0, []);
    assert end == AllBound ==> ps[..StopsAt(env, w1, prefix, w.bound, ps, 0)] == ps;
    InstallRestores(env, w.bound, w2, original, candidate, text, added);
  }

  // ---- faults that strike at one moment ----

  ghost predicate OneMoment(env: Env, t0: nat) {
    forall t, step :: env.fails(t, step) ==> t == t0
  }

  lemma MomentInside(env: Env, t0: nat, lo: nat, hi: nat)
    requires OneMoment(env, t0) && !(lo <= t0 < hi)
    ensures Quiet(env, lo, hi) && StableButOnce(env, lo, hi)
  {
  }

  // What makes a transaction roll back happens after its configuration was read and before the rollback.
  lemma MomentOfFailure(env: Env, w: World, original: State, candidate: State, text: string, added: seq<string>, t0: nat)
    requires Faithful(env) && OneMoment(env, t0) && Preparable(env.net, candidate)
    requires Install(env, w, original, candidate, text, added).1.RolledBack?
    ensures w.clock < t0 < FailedInstall(env, w, candidate, text).clock
  {
    hide Launch, Rollback, Preparable, Faithful;
    FaithfulIsLawful(env);
    var w2 := PutConfig(env, ReadConfigFile(env, w).0, text).0;
    var (w3, saved) := SaveState(env, w2, candidate);
    if saved {
      var s := Fill(Stamp(candidate));
      assert Load(w3.files) == Ok(s);
      StoredPreparable(env.net, candidate);
      var hi := Launch(env, w3, candidate).0.clock;
      if !(w3.clock <= t0 < hi) {
        MomentInside(env, t0, w3.clock, hi);
        LaunchesIf(env, w3, candidate, s);
      }
    }
  }

  // Whatever fails at one moment, and however much at once: a transaction between two states that can be served, over a
  // configuration that exists, is applied, refused before anything was written, or completely undone.
  lemma OneMomentUndone(env: Env, w: World, original: State, candidate: State, t0: nat)
    requires Faithful(env) && OneMoment(env, t0)
    requires Decodable(w.files) && Load(w.files) == Ok(original) && KernelTexts(env.net, w.bound) && w.config.Some?
    requires Preparable(env.net, original) && Acceptable(env.net, candidate)
    ensures var (w', outcome) := ApplyCandidate(env, w, original, candidate);
            && !outcome.OutsidePrefix?
            && (outcome.RolledBack? ==> FullyUndone(env, w.bound, w', original, candidate, outcome.undo))
  {
    hide Install, BindFrom, FullyUndone, Faithful, OneMoment, FailedInstall, KernelTexts, Renderable;
    FaithfulIsLawful(env);
    RendersExactly(env, candidate.proxies);
    var prefix, text := env.net.parsePrefix(candidate.prefix).value, env.render(candidate.proxies).value;
    BindStops(env, Tick(w), prefix, w.bound, candidate.proxies, 0, []);
    var (w2, added, end) := BindFrom(env, Tick(w), prefix, w.bound, candidate.proxies, 0, []);
    InstallStaysInside(env, w2, original, candidate, text, added);
    if ApplyCandidate(env, w, original, candidate).1.RolledBack? {
      MomentOfFailure(env, w2, original, candidate, text, added, t0);
      NotAt(env, t0, w2.clock, FailedInstall(env, w2, candidate, text).clock);
      UndoneCompletely(env, w, original, candidate);
    }
  }

  lemma InstallStaysInside(env: Env, w: World, original: State, candidate: State, text: string, added: seq<string>)
    requires env.net.Lawful()
    ensures !Install(env, w, original, candidate, text, added).1.OutsidePrefix?
  {
    hide Launch, Rollback, SaveState;
  }

  lemma NotAt(env: Env, t0: nat, t: nat, lo: nat)
    requires OneMoment(env, t0) && t < t0 < lo
    ensures !env.fails(t, ReadConfig) && QuietFrom(env, lo)
  {
  }

  // ---- steps that keep failing ----

  // Whether a step fails does not depend on when.
  ghost predicate Steady(env: Env) {
    forall t, step :: env.fails(t, step) == env.fails(0, step)
  }

  // Some enabled address that is not bound under its text cannot be added.
  ghost predicate CannotAdd(env: Env, bound: set<string>, ps: seq<Proxy>) {
    exists p :: p in ps && p.enabled && p.ipv6 !in bound && env.fails(0, AddAddress(p.ipv6))
  }

  lemma {:induction false} BindSteady(env: Env, w: World, prefix: Prefix, current: set<string>, ps: seq<Proxy>, i: nat,
      added: seq<string>)
    requires WellSized(prefix) && env.net.Lawful() && i <= |ps| && Steady(env)
    requires FirstOutside(env.net, prefix, ps, i) == |ps| && forall p :: p in ps && p.enabled ==> env.net.IsV6(p.ipv6)
    ensures BindFrom(env, w, prefix, current, ps, i, added).2 == if CannotAdd(env, current, ps[i..]) then AddFailed else AllBound
    decreases |ps| - i
  {
    if i < |ps| {
      var p := ps[i];
      assert p in ps && ps[i..] == [p] + ps[i + 1..];
      assert CannotAdd(env, current, ps[i..])
        <==> (p.enabled && p.ipv6 !in current && env.fails(0, AddAddress(p.ipv6))) || CannotAdd(env, current, ps[i + 1..]);
      if !p.enabled || p.ipv6 in current {
        BindSteady(env, w, prefix, current, ps, i + 1, added);
      } else if !env.fails(w.clock, AddAddress(p.ipv6)) {
        BindSteady(env, AddIPv6(env, w, p.ipv6).0, prefix, current, ps, i + 1, added + [p.ipv6]);
      }
    }
  }

  lemma FewerLeft(env: Env, before: set<string>, bound: set<string>, ps: seq<Proxy>)
    requires before <= bound && !CannotAdd(env, before, ps)
    ensures !CannotAdd(env, bound, ps)
  {
  }

  lemma PrepareSteady(env: Env, w: World, s: State)
    requires Faithful(env) && Steady(env) && Preparable(env.net, s) && !CannotAdd(env, w.bound, s.proxies)
    ensures PrepareState(env, w, s).1 <==>
              !env.fails(0, ReadAddresses) && !env.fails(0, WriteConfig) && !env.fails(0, WriteFull) && !env.fails(0, WriteLive)
  {
    hide BindFrom, Renderable, CannotAdd, PutLists, FirstOutside;
    RendersExactly(env, s.proxies);
    var prefix, w1 := env.net.parsePrefix(s.prefix).value, Tick(w);
    BindSteady(env, w1, prefix, w.bound, s.proxies, 0, []);
    assert s.proxies[0..] == s.proxies;
    assert env.fails(w.clock, ReadAddresses) == env.fails(0, ReadAddresses);
    var w2 := BindFrom(env, w1, prefix, w.bound, s.proxies, 0, []).0;
    assert env.fails(w2.clock, WriteConfig) == env.fails(0, WriteConfig);
    if env.render(s.proxies).Some? {
      ListsSteady(env, PutConfig(env, w2, env.render(s.proxies).value).0, s.proxies);
    }
  }

  ghost predicate StartsSteady(env: Env) {
    && !env.fails(0, PreStart) && !env.fails(0, ReadState) && !env.fails(0, ReadAddresses)
    && !env.fails(0, WriteConfig) && !env.fails(0, WriteFull) && !env.fails(0, WriteLive) && !env.fails(0, StartEngine)
  }

  lemma RestartSteady(env: Env, w: World, s: State)
    requires Faithful(env) && Steady(env) && Preparable(env.net, s) && !CannotAdd(env, w.bound, s.proxies)
    requires w.files.main.Some? && w.files.main.value.Encoded? && Load(w.files) == Ok(s)
    ensures var (w', ok) := Restart(env, w);
            (ok <==> StartsSteady(env)) && (w'.engine.Some? <==> ok && !env.fails(0, EngineLoads))
  {
    hide PrepareState, Preparable, CannotAdd;
    var stopped := Tick(w).(engine := None);
    assert env.fails(w.clock, PreStart) == env.fails(0, PreStart);
    assert env.fails(stopped.clock, ReadState) == env.fails(0, ReadState);
    var w1 := LoadState(env, stopped).0;
    PrepareSteady(env, w1, s);
    PrepareClock(env, w1, s);
    var w2 := PrepareState(env, w1, s).0;
    assert env.fails(w2.clock, StartEngine) == env.fails(0, StartEngine);
    assert env.fails(w2.clock, EngineLoads) == env.fails(0, EngineLoads);
  }

  lemma LaunchSteady(env: Env, w: World, candidate: State, s: State)
    requires Faithful(env) && Steady(env) && Preparable(env.net, s) && !CannotAdd(env, w.bound, s.proxies)
    requires w.files.main.Some? && w.files.main.value.Encoded? && Load(w.files) == Ok(s)
    ensures Launch(env, w, candidate).1
         == if !StartsSteady(env) then Some(AtRestart)
            else if env.fails(0, EngineLoads) || env.fails(0, ProbeEngine) then Some(AtProbe) else None
  {
    hide Restart, Preparable, CannotAdd;
    RestartSteady(env, w, s);
    RestartClock(env, w);
    var w2 := Active(env, Restart(env, w).0).0;
    FewerLeft(env, w.bound, w2.bound, s.proxies);
    RestartSteady(env, w2, s);
    var w1, w3 := Restart(env, w).0, Restart(env, w2).0;
    ListsSteady(env, w2, candidate.proxies);
    assert env.fails(w1.clock, ProbeEngine) == env.fails(0, ProbeEngine);
    assert env.fails(w3.clock, ProbeEngine) == env.fails(0, ProbeEngine);
  }

  lemma ListsSteady(env: Env, w: World, ps: seq<Proxy>)
    requires Steady(env)
    ensures PutLists(env, w, ps).1 <==> !env.fails(0, WriteFull) && !env.fails(0, WriteLive)
  {
    assert env.fails(w.clock, WriteFull) == env.fails(0, WriteFull);
    assert env.fails(w.clock + 1, WriteLive) == env.fails(0, WriteLive);
  }

  // The outcome of a transaction to an acceptable candidate, for any set of steps that keep failing: the first of these
  // that applies, in the order in which the steps are taken.
  lemma SteadyOutcome(env: Env, w: World, original: State, candidate: State)
    requires Faithful(env) && Steady(env) && Acceptable(env.net, candidate)
    ensures var outcome := ApplyCandidate(env, w, original, candidate).1;
            if env.fails(0, ReadAddresses) then outcome == Refused
            else if CannotAdd(env, w.bound, candidate.proxies) then outcome == BindFailed
            else if env.fails(0, WriteConfig) then outcome == ConfigFailed
            else if env.fails(0, WriteBackup) || env.fails(0, WriteState) then outcome.RolledBack? && outcome.stage == AtSave
            else if env.fails(0, PreStart) || env.fails(0, ReadState) || env.fails(0, WriteFull) || env.fails(0, WriteLive)
                    || env.fails(0, StartEngine) then outcome.RolledBack? && outcome.stage == AtRestart
            else if env.fails(0, EngineLoads) || env.fails(0, ProbeEngine) then outcome.RolledBack? && outcome.stage == AtProbe
            else outcome == Applied
  {
    hide Install, BindFrom, Renderable, CannotAdd;
    RendersExactly(env, candidate.proxies);
    assert env.fails(w.clock, ReadAddresses) == env.fails(0, ReadAddresses);
    var prefix, text := env.net.parsePrefix(candidate.prefix).value, env.render(candidate.proxies).value;
    BindSteady(env, Tick(w), prefix, w.bound, candidate.proxies, 0, []);
    assert candidate.proxies[0..] == candidate.proxies;
    BindClock(env, Tick(w), prefix, w.bound, candidate.proxies, 0, []);
    var (w2, added, end) := BindFrom(env, Tick(w), prefix, w.bound, candidate.proxies, 0, []);
    if !CannotAdd(env, w.bound, candidate.proxies) && !env.fails(0, ReadAddresses) {
      FewerLeft(env, w.bound, w2.bound, candidate.proxies);
      InstallSteady(env, w2, original, candidate, text, added);
    }
  }

  lemma InstallSteady(env: Env, w: World, original: State, candidate: State, text: string, added: seq<string>)
    requires Faithful(env) && Steady(env) && Preparable(env.net, candidate) && !CannotAdd(env, w.bound, candidate.proxies)
    ensures var outcome := Install(env, w, original, candidate, text, added).1;
            if env.fails(0, WriteConfig) then outcome == ConfigFailed
            else if env.fails(0, WriteBackup) || env.fails(0, WriteState) then outcome.RolledBack? && outcome.stage == AtSave
            else if !StartsSteady(env) then outcome.RolledBack? && outcome.stage == AtRestart
            else if env.fails(0, EngineLoads) || env.fails(0, ProbeEngine) then outcome.RolledBack? && outcome.stage == AtProbe
            else outcome == Applied
  {
    hide Launch, Rollback, Preparable, CannotAdd;
    var w1 := ReadConfigFile(env, w).0;
    var w2 := PutConfig(env, w1, text).0;
    assert env.fails(w1.clock, WriteConfig) == env.fails(0, WriteConfig);
    assert env.fails(w2.clock, WriteBackup) == env.fails(0, WriteBackup);
    assert env.fails(w2.clock, WriteState) == env.fails(0, WriteState);
    var (w3, saved) := SaveState(env, w2, candidate);
    if saved {
      StoredPreparable(env.net, candidate);
      LaunchSteady(env, w3, candidate, Fill(Stamp(candidate)));
    }
  }

  // ---- the engine after a rollback ----

  lemma RollbackServes(env: Env, w: World, original: State, stored: State, oldConfig: string, stateChanged: bool,
      added: seq<string>)
    requires Faithful(env) && Preparable(env.net, original) && Preparable(env.net, stored)
    requires QuietFrom(env, w.clock + if stateChanged then 2 else 1)
    requires Decodable(w.files) && Load(w.files) == Ok(stored) && KernelTexts(env.net, w.bound)
    ensures var (w', undo) := Rollback(env, w, original, Some(oldConfig), stateChanged, added);
            w'.engine == Some(Enabled(During(original, stored, stateChanged, undo).proxies))
  {
    hide Restart, Preparable, Faithful, Unbind, PutLists, KernelTexts, QuietFrom, SaveState, PutFull, Fill;
    FaithfulIsLawful(env);
    SaveEffect(env, w, original);
    var w1 := AfterSaveBack(env, w, original, stateChanged);
    RollbackSteps(env, w, original, oldConfig, stateChanged, added);
    var s := During(original, stored, stateChanged, Rollback(env, w, original, Some(oldConfig), stateChanged, added).1);
    StoredPreparable(env.net, original);
    var w2 := PutConfig(env, w1, oldConfig).0;
    SaveTakesOne(env, w, original);
    RestartClock(env, w2);
    QuietAfter(env, w.clock + if stateChanged then 2 else 1, w2.clock, Restart(env, w2).0.clock);
    RestartsIf(env, w2, s);
    ListsKeepEngine(env, Restart(env, w2).0, original.proxies);
    UnbindClock(env, PutLists(env, Restart(env, w2).0, original.proxies).0, added, 0);
  }

  lemma SaveTakesOne(env: Env, w: World, s: State)
    ensures SaveState(env, w, s).0.clock == w.clock + 1
  {
  }

  lemma ListsKeepEngine(env: Env, w: World, ps: seq<Proxy>)
    ensures PutLists(env, w, ps).0.engine == w.engine
  {
  }

  lemma InstallServes(env: Env, w: World, original: State, candidate: State, text: string, added: seq<string>)
    requires Faithful(env) && Preparable(env.net, original) && Preparable(env.net, candidate)
    requires Decodable(w.files) && Load(w.files) == Ok(original) && KernelTexts(env.net, w.bound) && ConfigReads(env, w)
    requires var outcome := Install(env, w, original, candidate, text, added).1;
             outcome.RolledBack? &&
             QuietFrom(env, FailedInstall(env, w, candidate, text).clock + if outcome.stage == AtSave then 1 else 2)
    ensures var (w', outcome) := Install(env, w, original, candidate, text, added);
            w'.engine == Some(Enabled((if outcome.undo.state then original else candidate).proxies))
  {
    hide Launch, Rollback, Preparable, Faithful, QuietFrom, KernelTexts;
    FaithfulIsLawful(env);
    var (w1, oldConfig) := ReadConfigFile(env, w);
    var (w2, wrote) := PutConfig(env, w1, text);
    var (w3, saved) := SaveState(env, w2, candidate);
    SaveEffect(env, w2, candidate);
    if !saved {
      NothingToSave(env, w3, original, oldConfig.value, added);
      RollbackServes(env, w3, original, original, oldConfig.value, false, added);
    } else {
      var s := Fill(Stamp(candidate));
      StoredPreparable(env.net, candidate);
      LaunchEffect(env, w3, candidate, s);
      RollbackServes(env, Launch(env, w3, candidate).0, original, s, oldConfig.value, true, added);
    }
  }

  lemma NothingToSave(env: Env, w: World, original: State, oldConfig: string, added: seq<string>)
    requires env.net.Lawful()
    ensures Rollback(env, w, original, Some(oldConfig), false, added).1.state
  {
    hide Restart, Unbind, PutLists, PutFull;
  }

  // The restart of a rollback is tried whether or not the state could be saved back and the configuration written. If
  // nothing fails from then on, the engine serves the proxies that are stored: the original's, or the candidate's when
  // the original could not be saved.
  lemma EngineServesAgain(env: Env, w: World, original: State, candidate: State)
    requires Faithful(env) && Decodable(w.files) && Load(w.files) == Ok(original) && KernelTexts(env.net, w.bound)
    requires Preparable(env.net, original) && ApplyCandidate(env, w, original, candidate).1.RolledBack?
    requires ConfigReadable(env, w, candidate)
    requires var stage := ApplyCandidate(env, w, original, candidate).1.stage;
             QuietFrom(env, FailureTime(env, w, candidate) + if stage == AtSave then 1 else 2)
    ensures var (w', outcome) := ApplyCandidate(env, w, original, candidate);
            w'.engine == Some(Enabled((if outcome.undo.state then original else candidate).proxies))
  {
    hide Install, Renderable, Faithful, QuietFrom, BindFrom, KernelTexts;
    FaithfulIsLawful(env);
    RendersExactly(env, candidate.proxies);
    var prefix, text := env.net.parsePrefix(candidate.prefix).value, env.render(candidate.proxies).value;
    NothingBound(env.net, w.bound, candidate.proxies);
    BindEffect(env, Tick(w), prefix, w.bound, candidate.proxies, 0, []);
    BindStops(env, Tick(w), prefix, w.bound, candidate.proxies, 0, []);
    var (w2, added, end) := BindFrom(env, Tick(w), prefix, w.bound, candidate.proxies, 0, []);
    InstallServes(env, w2, original, candidate, text, added);
  }

  // When nothing fails, a reboot brings the engine up exactly for a stored state that can be prepared, and it then serves
  // exactly its enabled proxies.
  lemma BootsExactly(env: Env, w: World, s: State)
    requires Faithful(env) && NoFaults(env) && Load(w.files) == Ok(s)
    ensures var (w', r) := Reboot(env, w);
            && (r == Booted(true) <==> Preparable(env.net, s))
            && (r == Booted(true) ==> w'.engine == Some(Enabled(s.proxies)))
  {
    hide Restart, Preparable, Faithful;
    FaithfulIsLawful(env);
    var off := w.(bound := {}, engine := None);
    if Preparable(env.net, s) {
      RestartsIf(env, off, s);
    }
    if Restart(env, off).1 {
      RestartsOnlyIf(env, off, s);
    }
  }
}
