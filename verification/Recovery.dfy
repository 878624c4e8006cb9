// What a crash leaves behind, and what a working disk gives: when files can be read and written, every failure of the
// engine, of the binding and of the live list is undone completely, without looking at any report.
module Recovery {
  import opened Model
  import opened Netip
  import opened Store
  import opened Apply
  import opened ApplyLaws
  import opened Undoing
  import opened Operations
  import opened WholeRuns
  import H = History

  // Reading and writing the configuration, the full list and the state never fails. Everything else may.
  ghost predicate DiskWorks(env: Env) {
    forall t :: !env.fails(t, ReadConfig) && !env.fails(t, WriteConfig) && !env.fails(t, WriteFull)
             && !env.fails(t, WriteBackup) && !env.fails(t, WriteState)
  }

  lemma UndoSucceeds(env: Env, w: World, original: State, oldConfig: Option<string>, stateChanged: bool,
      added: seq<string>)
    requires env.net.Lawful() && DiskWorks(env) && oldConfig.Some?
    ensures UndoWorked(Rollback(env, w, original, oldConfig, stateChanged, added).1)
  {
    hide Restart, Unbind;
    var w1 := if stateChanged then SaveState(env, w, original).0 else w;
    var w' := PutConfig(env, w1, oldConfig.value).0;
    var w2 := Restart(env, w').0;
    assert !env.fails(w.clock, WriteBackup) && !env.fails(w1.clock, WriteConfig) && !env.fails(w2.clock, WriteFull);
  }

  lemma InstallUndone(env: Env, w: World, original: State, candidate: State, text: string, added: seq<string>)
    requires env.net.Lawful() && DiskWorks(env) && w.config.Some?
    ensures var outcome := Install(env, w, original, candidate, text, added).1;
            outcome != ConfigFailed && (outcome.RolledBack? ==> UndoWorked(outcome.undo))
  {
    hide Launch, Rollback, SaveState;
    var (w1, oldConfig) := ReadConfigFile(env, w);
    assert !env.fails(w.clock, ReadConfig) && oldConfig.Some?;
    var (w2, wrote) := PutConfig(env, w1, text);
    assert !env.fails(w1.clock, WriteConfig);
    var (w3, saved) := SaveState(env, w2, candidate);
    UndoSucceeds(env, w3, original, oldConfig, false, added);
    UndoSucceeds(env, Launch(env, w3, candidate).0, original, oldConfig, true, added);
  }

  lemma {:induction false} BindsOnly(env: Env, w: World, prefix: Prefix, current: set<string>, ps: seq<Proxy>, i: nat,
      added: seq<string>)
    requires WellSized(prefix) && env.net.Lawful() && i <= |ps|
    ensures BindFrom(env, w, prefix, current, ps, i, added).0.config == w.config
    decreases |ps| - i
  {
    if i < |ps| {
      var p := ps[i];
      if !p.enabled || (Within(env.net, prefix, p) && p.ipv6 in current) {
        BindsOnly(env, w, prefix, current, ps, i + 1, added);
      } else if Within(env.net, prefix, p) && AddIPv6(env, w, p.ipv6).1 {
        BindsOnly(env, AddIPv6(env, w, p.ipv6).0, prefix, current, ps, i + 1, added + [p.ipv6]);
      }
    }
  }

  lemma TransactionUndone(env: Env, w: World, original: State, candidate: State)
    requires env.net.Lawful() && DiskWorks(env) && w.config.Some?
    ensures var outcome := ApplyCandidate(env, w, original, candidate).1;
            outcome != ConfigFailed && AllUndone(outcome)
  {
    hide Install, BindFrom, Unbind;
    var parsed, rendered := env.net.parsePrefix(candidate.prefix), env.render(candidate.proxies);
    var (w1, current) := CurrentIPv6(env, w);
    if candidate.publicIPv4 != "" && candidate.iface != "" && candidate.prefix != ""
      && parsed.Some? && rendered.Some? && current.Some?
    {
      var (w2, added, end) := BindFrom(env, w1, parsed.value, current.value, candidate.proxies, 0, []);
      BindsOnly(env, w1, parsed.value, current.value, candidate.proxies, 0, []);
      InstallUndone(env, w2, original, candidate, rendered.value, added);
    }
  }

  // Starting coherent, with a working disk and removals that succeed, a transaction that fails after it has begun to
  // bind, other than for an address outside the prefix, leaves everything as it was: the stored state, the
  // configuration, the full list, and, unless the candidate names a bound address by another text, the addresses up to
  // those that only the original uses.
  lemma FailureRestoresEverything(env: Env, w: World, original: State, candidate: State)
    requires env.net.Lawful() && Durable(env, w) && Load(w.files) == Ok(original)
    requires DiskWorks(env) && RemovalsWork(env) && Coherent(env, w, original.proxies)
    requires var outcome := ApplyCandidate(env, w, original, candidate).1; outcome != Applied && !outcome.OutsidePrefix?
    ensures var w' := ApplyCandidate(env, w, original, candidate).0;
            && Load(w'.files).Ok? && (Load(w'.files).value == original || Load(w'.files).value == H.Stored(original))
            && Coherent(env, w', original.proxies)
            && (NoAlias(env.net, w.bound, candidate.proxies) ==>
                  AddressesRestored(env.net, w.bound, w'.bound, original, candidate))
  {
    hide ApplyCandidate, NoAlias, RemovalsWork;
    ApplyEffect(env, w, original, candidate);
    AliasesAreLost(env, w, original, candidate);
    TransactionUndone(env, w, original, candidate);
  }

  lemma OperationUndone(env: Env, w: World, e: Event)
    requires env.net.Lawful() && DiskWorks(env) && w.config.Some?
    ensures FullyRecovered(Happens(env, w, e).1)
  {
    hide ApplyCandidate;
    var (w1, loaded) := LoadState(env, w);
    if loaded.Ok? {
      forall candidate
        ensures AllUndone(ApplyCandidate(env, w1, loaded.value, candidate).1)
      {
        TransactionUndone(env, w1, loaded.value, candidate);
      }
    }
  }

  // Over every run with a working disk, whatever else fails and however often: the configuration and the full list
  // are always those of the stored state.
  lemma {:induction false} AlwaysCoherent(env: Env, w: World, events: seq<Event>)
    requires env.net.Lawful() && DiskWorks(env) && StatusBlind(env) && Durable(env, w) && CoherentWorld(env, w)
    ensures Durable(env, Runs(env, w, events)) && CoherentWorld(env, Runs(env, w, events))
  {
    hide Happens, StatusBlind, Durable;
    if events != [] {
      var n := |events| - 1;
      var before := Runs(env, w, events[..n]);
      AlwaysCoherent(env, w, events[..n]);
      OperationUndone(env, before, events[n]);
      var cs := EventSteps(env, before, events[n]);
    }
  }

  // A crash is a schedule under which every step fails from some time on: nothing more reaches the disk or the host.
  // Wherever it strikes, if the machine then boots successfully, the last durable state is in force: its enabled
  // addresses are bound and its files printed.
  lemma CrashThenBoot(env: Env, w: World, events: seq<Event>, later: Env)
    requires env.net.Lawful() && later.net == env.net && Durable(env, w)
    ensures var crashed := Runs(env, w, events);
            var (booted, r) := Reboot(later, crashed);
            r == Booted(true) ==>
              && Load(crashed.files).Ok?
              && Safe(later, booted) && CoherentWorld(later, booted) && booted.files == crashed.files
  {
    hide Happens, H.Run, Reboot;
    var cs := EveryRun(env, w, events);
    var crashed := Runs(env, w, events);
    RebootSteps(later, crashed);
    RebootKeepsFiles(later, crashed);
  }

  lemma RebootKeepsFiles(env: Env, w: World)
    requires env.net.Lawful() && Durable(env, w)
    ensures Reboot(env, w).0.files == w.files
  {
    RestartEffect(env, w.(bound := {}, engine := None), StoredState(w));
  }
}
