// What the transaction does when nothing fails, and how one fault, or any set of steps that keep failing, decides its
// outcome.
module Faultless {
  import opened Model
  import opened Netip
  import opened Config
  import opened Store
  import opened Apply
  import opened ApplyLaws
  import opened Printers

  ghost predicate NoFaults(env: Env) {
    forall t, step :: !env.fails(t, step)
  }

  // Nothing fails from time lo to before time hi, except that a probe may find the engine unstable.
  ghost predicate Quiet(env: Env, lo: nat, hi: nat) {
    forall t, step :: lo <= t < hi && step != ProbeEngine ==> !env.fails(t, step)
  }

  // From time lo to before time hi at most one probe finds the engine unstable.
  ghost predicate StableButOnce(env: Env, lo: nat, hi: nat) {
    forall t, u :: lo <= t < u < hi ==> !(env.fails(t, ProbeEngine) && env.fails(u, ProbeEngine))
  }

  ghost predicate Tolerable(env: Env) {
    && (forall t, step :: env.fails(t, step) ==> step == ProbeEngine)
    && (forall t, u :: env.fails(t, ProbeEngine) && env.fails(u, ProbeEngine) ==> t == u)
  }

  // What Prepare needs: an interface, a prefix, proxies that can be rendered, and every enabled address in the prefix.
  ghost predicate Preparable(net: Codec, s: State)
    requires net.Lawful()
  {
    && s.iface != "" && s.prefix != "" && net.parsePrefix(s.prefix).Some?
    && Renderable(net, s.proxies)
    && FirstOutside(net, net.parsePrefix(s.prefix).value, s.proxies, 0) == |s.proxies|
  }

  // What a transaction needs, checkable before the call.
  ghost predicate Acceptable(net: Codec, s: State)
    requires net.Lawful()
  {
    s.publicIPv4 != "" && Preparable(net, s)
  }

  lemma RendersExactly(env: Env, ps: seq<Proxy>)
    requires Faithful(env)
    ensures env.render(ps).Some? <==> Renderable(env.net, ps)
    ensures Renderable(env.net, ps) ==> forall p :: p in ps && p.enabled ==> env.net.IsV6(p.ipv6)
  {
    AcceptedExactly(env.net, ps, true);
    assert forall p :: p in ps && p.enabled ==> p in Enabled(ps);
  }

  lemma LaunchClock(env: Env, w: World, candidate: State)
    requires env.net.Lawful()
    ensures var w' := Launch(env, w, candidate).0; w.clock < w'.clock && w'.files == w.files && w.bound <= w'.bound
  {
    hide Restart;
    RestartClock(env, w);
    RestartClock(env, Active(env, Restart(env, w).0).0);
  }

  // ---- while nothing fails ----

  lemma {:induction false} BindsAll(env: Env, w: World, prefix: Prefix, current: set<string>, ps: seq<Proxy>, i: nat,
      added: seq<string>)
    requires WellSized(prefix) && env.net.Lawful() && i <= |ps|
    requires Quiet(env, w.clock, BindFrom(env, w, prefix, current, ps, i, added).0.clock)
    requires forall p :: p in ps && p.enabled ==> env.net.IsV6(p.ipv6)
    ensures var (w', _, end) := BindFrom(env, w, prefix, current, ps, i, added);
            var k := FirstOutside(env.net, prefix, ps, i);
            end == (if k == |ps| then AllBound else Outside(ps[k].port))
    decreases |ps| - i
  {
    if i < |ps| {
      var p := ps[i];
      assert p in ps;
      if !p.enabled || (Within(env.net, prefix, p) && p.ipv6 in current) {
        BindsAll(env, w, prefix, current, ps, i + 1, added);
      } else if Within(env.net, prefix, p) {
        var (w1, ok) := AddIPv6(env, w, p.ipv6);
        if ok {
          BindClock(env, w1, prefix, current, ps, i + 1, added + [p.ipv6]);
          BindsAll(env, w1, prefix, current, ps, i + 1, added + [p.ipv6]);
        }
      }
    }
  }

  lemma ListsWork(env: Env, w: World, ps: seq<Proxy>)
    requires Quiet(env, w.clock, PutLists(env, w, ps).0.clock)
    ensures PutLists(env, w, ps).1
  {
    assert !env.fails(w.clock, WriteFull);
    assert !env.fails(w.clock + 1, WriteLive);
  }

  lemma QuietPart(env: Env, lo: nat, hi: nat, from: nat, to: nat)
    requires Quiet(env, lo, hi) && lo <= from && to <= hi
    ensures Quiet(env, from, to)
  {
  }

  lemma PreparesOnlyIf(env: Env, w: World, s: State)
    requires Faithful(env) && PrepareState(env, w, s).1
    ensures Preparable(env.net, s)
  {
    hide Renderable, PutLists;
    RendersExactly(env, s.proxies);
    var prefix := env.net.parsePrefix(s.prefix).value;
    var (w1, current) := CurrentIPv6(env, w);
    BindStops(env, w1, prefix, current.value, s.proxies, 0, []);
  }

  lemma QuietAt(env: Env, lo: nat, hi: nat, t: nat, step: Step)
    requires Quiet(env, lo, hi) && lo <= t < hi && step != ProbeEngine
    ensures !env.fails(t, step)
  {
  }

  lemma FaithfulIsLawful(env: Env)
    requires Faithful(env)
    ensures env.net.Lawful()
  {
  }

  // Configuration and lists are written when nothing fails meanwhile.
  lemma PrintsAll(env: Env, w: World, text: string, ps: seq<Proxy>, hi: nat)
    requires var (w1, ok) := PutConfig(env, w, text);
             Quiet(env, w.clock, hi) && (if ok then PutLists(env, w1, ps).0 else w1).clock <= hi
    ensures PutConfig(env, w, text).1 && PutLists(env, PutConfig(env, w, text).0, ps).1
  {
    hide Quiet;
    QuietAt(env, w.clock, hi, w.clock, WriteConfig);
    QuietAt(env, w.clock, hi, w.clock + 1, WriteFull);
    QuietAt(env, w.clock, hi, w.clock + 2, WriteLive);
  }

  lemma PreparesIf(env: Env, w: World, s: State)
    requires Faithful(env) && Preparable(env.net, s) && Quiet(env, w.clock, PrepareState(env, w, s).0.clock)
    ensures PrepareState(env, w, s).1
  {
    hide BindFrom, Renderable, PutLists, PutConfig, FirstOutside, Faithful, Quiet;
    FaithfulIsLawful(env);
    RendersExactly(env, s.proxies);
    var prefix, hi := env.net.parsePrefix(s.prefix).value, PrepareState(env, w, s).0.clock;
    PrepareClock(env, w, s);
    var w1 := CurrentIPv6(env, w).0;
    BindClock(env, w1, prefix, w.bound, s.proxies, 0, []);
    PrintClock(env, BindFrom(env, w1, prefix, w.bound, s.proxies, 0, []).0, env.render(s.proxies).value, s.proxies);
    QuietAt(env, w.clock, hi, w.clock, ReadAddresses);
    var w2 := BindFrom(env, w1, prefix, w.bound, s.proxies, 0, []).0;
    QuietPart(env, w.clock, hi, w1.clock, w2.clock);
    BindsAll(env, w1, prefix, w.bound, s.proxies, 0, []);
    QuietPart(env, w.clock, hi, w2.clock, hi);
    PrintsAll(env, w2, env.render(s.proxies).value, s.proxies, hi);
  }

  lemma PrintClock(env: Env, w: World, text: string, ps: seq<Proxy>)
    ensures PutConfig(env, w, text).0.clock == w.clock + 1
    ensures w.clock < PutLists(env, w, ps).0.clock <= w.clock + 2
    ensures w.clock + 1 < PutLists(env, PutConfig(env, w, text).0, ps).0.clock
  {
  }

  // A restart runs Prepare, so what can be prepared decides whether the engine comes up.
  lemma RestartsOnlyIf(env: Env, w: World, s: State)
    requires Faithful(env) && Load(w.files) == Ok(s) && Restart(env, w).1
    ensures Preparable(env.net, s)
  {
    hide PrepareState, Preparable;
    var stopped := Tick(w).(engine := None);
    LoadsTheSame(w.files, !env.fails(stopped.clock, ReadState), !env.fails(stopped.clock, ReadBackup));
    PreparesOnlyIf(env, LoadState(env, stopped).0, s);
  }

  lemma RestartsIf(env: Env, w: World, s: State)
    requires Faithful(env) && Preparable(env.net, s) && Load(w.files) == Ok(s)
    requires Quiet(env, w.clock, Restart(env, w).0.clock)
    ensures var (w', ok) := Restart(env, w); ok && w'.engine == Some(Enabled(s.proxies))
  {
    hide PrepareState, Preparable, Quiet, Faithful;
    FaithfulIsLawful(env);
    RestartClock(env, w);
    var hi, stopped := Restart(env, w).0.clock, Tick(w).(engine := None);
    QuietAt(env, w.clock, hi, w.clock, PreStart);
    var w1 := LoadState(env, stopped).0;
    LoadsTheSame(w.files, !env.fails(stopped.clock, ReadState), !env.fails(stopped.clock, ReadBackup));
    PrepareClock(env, w1, s);
    QuietLoad(env, w.clock, hi, stopped.clock);
    var w2 := PrepareState(env, w1, s).0;
    QuietPart(env, w.clock, hi, w1.clock, w2.clock);
    PreparesIf(env, w1, s);
    QuietAt(env, w.clock, hi, w2.clock, StartEngine);
    QuietAt(env, w.clock, hi, w2.clock, EngineLoads);
    QuietAt(env, w.clock, hi, w2.clock, ReadBackup);
  }

  lemma QuietLoad(env: Env, lo: nat, hi: nat, t: nat)
    requires Quiet(env, lo, hi) && lo <= t < hi
    ensures !env.fails(t, ReadState) && !env.fails(t, ReadBackup)
  {
  }

  // One probe that finds the engine unstable is made good by the retry.
  lemma LaunchesIf(env: Env, w: World, candidate: State, s: State)
    requires Faithful(env) && Preparable(env.net, s) && Load(w.files) == Ok(s)
    requires var hi := Launch(env, w, candidate).0.clock; Quiet(env, w.clock, hi) && StableButOnce(env, w.clock, hi)
    ensures Launch(env, w, candidate).1 == None
  {
    hide Restart, PutLists, Quiet, Preparable, Faithful;
    FaithfulIsLawful(env);
    var hi, w1 := Launch(env, w, candidate).0.clock, Restart(env, w).0;
    LaunchPasses(env, w, candidate);
    RestartClock(env, w);
    QuietPart(env, w.clock, hi, w.clock, w1.clock);
    RestartsIf(env, w, s);
    var (w2, active) := Active(env, w1);
    if active {
      QuietPart(env, w.clock, hi, w2.clock, hi);
      ListsWork(env, w2, candidate.proxies);
    } else {
      RestartClock(env, w2);
      var w3 := Restart(env, w2).0;
      QuietPart(env, w.clock, hi, w2.clock, w3.clock);
      RestartsIf(env, w2, s);
      assert Active(env, w3).1;
      QuietPart(env, w.clock, hi, w3.clock + 1, hi);
      ListsWork(env, Active(env, w3).0, candidate.proxies);
    }
  }

  lemma LaunchPasses(env: Env, w: World, candidate: State)
    requires env.net.Lawful()
    ensures var (w1, ok) := Restart(env, w);
            var (w2, active) := Active(env, w1);
            var (w3, again) := Restart(env, w2);
            var hi := Launch(env, w, candidate).0.clock;
            && w1.clock <= hi && (ok ==> w2.clock <= hi)
            && (ok && !active ==> w3.clock <= hi && (again ==> w3.clock + 1 <= hi))
  {
    hide Restart;
    var w2 := Active(env, Restart(env, w).0).0;
    RestartClock(env, w2);
    PrintClock(env, w2, "", candidate.proxies);
    PrintClock(env, Active(env, Restart(env, w2).0).0, "", candidate.proxies);
  }

  // ---- a transaction in which nothing fails ----

  lemma InstallWorks(env: Env, w: World, original: State, candidate: State, text: string, added: seq<string>)
    requires Faithful(env) && Tolerable(env) && Preparable(env.net, candidate)
    ensures Install(env, w, original, candidate, text, added).1 == Applied
  {
    hide Launch, Rollback, Preparable;
    var w1 := ReadConfigFile(env, w).0;
    var w2 := PutConfig(env, w1, text).0;
    assert !env.fails(w1.clock, WriteConfig) && !env.fails(w2.clock, WriteBackup) && !env.fails(w2.clock, WriteState);
    var (w3, saved) := SaveState(env, w2, candidate);
    assert saved && Load(w3.files) == Ok(Fill(Stamp(candidate)));
    StoredPreparable(env.net, candidate);
    LaunchesIf(env, w3, candidate, Fill(Stamp(candidate)));
  }

  lemma StoredPreparable(net: Codec, s: State)
    requires net.Lawful()
    ensures Preparable(net, Fill(Stamp(s))) == Preparable(net, s)
  {
  }

  // When nothing fails, or one probe at most finds the engine unstable, a transaction is applied exactly for an acceptable
  // candidate, whatever the world was like.
  lemma AppliedExactly(env: Env, w: World, original: State, candidate: State)
    requires Faithful(env) && Tolerable(env)
    ensures ApplyCandidate(env, w, original, candidate).1 == Applied <==> Acceptable(env.net, candidate)
  {
    hide Install, BindFrom, Renderable;
    RendersExactly(env, candidate.proxies);
    assert !env.fails(w.clock, ReadAddresses);
    if candidate.publicIPv4 != "" && candidate.iface != "" && candidate.prefix != ""
      && env.net.parsePrefix(candidate.prefix).Some? && env.render(candidate.proxies).Some?
    {
      var prefix, text := env.net.parsePrefix(candidate.prefix).value, env.render(candidate.proxies).value;
      BindsAll(env, Tick(w), prefix, w.bound, candidate.proxies, 0, []);
      var (w2, added, end) := BindFrom(env, Tick(w), prefix, w.bound, candidate.proxies, 0, []);
      if end == AllBound {
        InstallWorks(env, w2, original, candidate, text, added);
      }
    }
  }
}
