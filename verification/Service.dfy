// The service of internal/app/service.go as it is written: methods that change the host, the files and the store
// step by step. Each is proved equal to its specification in Apply and Operations, about which the theorems are.
module Service {
  import opened Model
  import opened Netip
  import opened Config
  import opened Lists
  import opened Health
  import opened Allocate
  import opened Printers
  import opened Order
  import S = Store
  import A = Apply
  import O = Operations
  import P = PrefixProbe
  import I = Import

  class Service {
    const store: S.Store
    var bound: set<string>
    var config: Option<string>
    var full: Option<string>
    var live: Option<string>
    var engine: Option<seq<Proxy>>
    var clock: nat

    function Snapshot(): A.World
      reads this, store
    {
      A.World(bound, config, full, live, store.Contents(), engine, clock)
    }

    constructor (store: S.Store, w: A.World)
      requires store.Contents() == w.files
      ensures this.store == store && Snapshot() == w
    {
      this.store := store;
      bound, config, full, live, engine, clock := w.bound, w.config, w.full, w.live, w.engine, w.clock;
    }

    // ---- the store ----

    method Load(env: A.Env) returns (r: Result<State, S.LoadError>)
      modifies this
      ensures (Snapshot(), r) == A.LoadState(env, old(Snapshot()))
    {
      r := store.LoadLocked(!env.fails(clock, A.ReadState), !env.fails(clock, A.ReadBackup));
      clock := clock + 1;
    }

    method Save(env: A.Env, s: State) returns (ok: bool)
      modifies this, store
      ensures (Snapshot(), ok) == A.SaveState(env, old(Snapshot()), s)
    {
      ok := store.SaveLocked(s, !env.fails(clock, A.CopyState), A.SaveReach(env, Snapshot()));
      clock := clock + 1;
    }

    // ---- the host (internal/system/host.go) ----

    method CurrentIPv6(env: A.Env) returns (r: Option<set<string>>)
      modifies this
      ensures (Snapshot(), r) == A.CurrentIPv6(env, old(Snapshot()))
    {
      r := if env.fails(clock, A.ReadAddresses) then None else Some(bound);
      clock := clock + 1;
    }

    method AddIPv6(env: A.Env, text: string) returns (ok: bool)
      modifies this
      ensures (Snapshot(), ok) == A.AddIPv6(env, old(Snapshot()), text)
    {
      ok := !env.fails(clock, A.AddAddress(text)) && env.net.ZoneFreeV6(text);
      if ok {
        bound := bound + {env.net.Canon(text)};
      }
      clock := clock + 1;
    }

    method RemoveIPv6(env: A.Env, text: string)
      modifies this
      ensures Snapshot() == A.RemoveIPv6(env, old(Snapshot()), text)
    {
      if !env.fails(clock, A.RemoveAddress(text)) && env.net.ZoneFreeV6(text) {
        bound := bound - {env.net.Canon(text)};
      }
      clock := clock + 1;
    }

    method ProbeRoutedPrefix(env: A.Env, prefixText: string, routed: bool) returns (ok: bool)
      requires env.net.Lawful()
      modifies this
      ensures (Snapshot(), ok) == P.ProbePrefix(env, old(Snapshot()), prefixText, routed)
    {
      hide P.Candidate;
      var prefix := env.net.parsePrefix(prefixText);
      if prefix == None || prefix.value.addr.V4? {
        return false;
      }
      var current := CurrentIPv6(env);
      if current == None {
        return false;
      }
      var candidate := P.FindCandidate(env.net, prefix.value, current.value);
      if candidate == None {
        return false;
      }
      var added := AddIPv6(env, env.net.format(candidate.value));
      if !added {
        return false;
      }
      RemoveIPv6(env, env.net.format(candidate.value));
      return routed;
    }

    method EngineActive(env: A.Env) returns (ok: bool)
      modifies this
      ensures (Snapshot(), ok) == A.Active(env, old(Snapshot()))
    {
      ok := !env.fails(clock, A.ProbeEngine) && engine.Some?;
      clock := clock + 1;
    }

    // ---- files ----

    method ReadConfigFile(env: A.Env) returns (r: Option<string>)
      modifies this
      ensures (Snapshot(), r) == A.ReadConfigFile(env, old(Snapshot()))
    {
      r := if env.fails(clock, A.ReadConfig) then None else config;
      clock := clock + 1;
    }

    method PutConfig(env: A.Env, text: string) returns (ok: bool)
      modifies this
      ensures (Snapshot(), ok) == A.PutConfig(env, old(Snapshot()), text)
    {
      ok := !env.fails(clock, A.WriteConfig);
      if ok {
        config := Some(text);
      }
      clock := clock + 1;
    }

    method PutFull(env: A.Env, text: string) returns (ok: bool)
      modifies this
      ensures (Snapshot(), ok) == A.PutFull(env, old(Snapshot()), text)
    {
      ok := !env.fails(clock, A.WriteFull);
      if ok {
        full := Some(text);
      }
      clock := clock + 1;
    }

    method PutLive(env: A.Env, text: string) returns (ok: bool)
      modifies this
      ensures (Snapshot(), ok) == A.PutLive(env, old(Snapshot()), text)
    {
      ok := !env.fails(clock, A.WriteLive);
      if ok {
        live := Some(text);
      }
      clock := clock + 1;
    }

    method WriteLists(env: A.Env, ps: seq<Proxy>) returns (ok: bool, wroteFull: bool)
      requires Faithful(env)
      modifies this
      ensures (Snapshot(), ok) == A.PutLists(env, old(Snapshot()), ps)
      ensures wroteFull == A.PutFull(env, old(Snapshot()), env.list(ps, false)).1
    {
      var text := FormatListText(ps, false);
      wroteFull := PutFull(env, text);
      if !wroteFull {
        return false, false;
      }
      text := FormatListText(ps, true);
      ok := PutLive(env, text);
    }

    method Render(env: A.Env, ps: seq<Proxy>) returns (r: Option<string>)
      requires Faithful(env)
      ensures r == env.render(ps)
    {
      var rendered := RenderConfigText(env.net, ps, true);
      r := if rendered.Ok? then Some(rendered.value) else None;
    }

    // ---- binding ----

    // The loop over the proxies of a state; on a failure it stops and undoes nothing.
    method Bind(env: A.Env, prefix: Prefix, current: set<string>, ps: seq<Proxy>) returns (added: seq<string>,
        end: A.Binding)
      requires WellSized(prefix) && env.net.Lawful()
      modifies this
      ensures (Snapshot(), added, end) == A.BindFrom(env, old(Snapshot()), prefix, current, ps, 0, [])
    {
      added := [];
      ghost var answer := A.BindFrom(env, Snapshot(), prefix, current, ps, 0, []);
      for i := 0 to |ps|
        invariant answer == A.BindFrom(env, Snapshot(), prefix, current, ps, i, added)
        invariant store.Contents() == old(store.Contents())
      {
        var p := ps[i];
        if !p.enabled {
          continue;
        }
        var ip := env.net.parseAddr(p.ipv6);
        if ip.None? || !Contains(prefix, ip.value) {
          return added, A.Outside(p.port);
        }
        if p.ipv6 in current {
          continue;
        }
        var ok := AddIPv6(env, p.ipv6);
        if !ok {
          return added, A.AddFailed;
        }
        added := added + [p.ipv6];
      }
      end := A.AllBound;
    }

    method Unbind(env: A.Env, added: seq<string>)
      modifies this
      ensures Snapshot() == A.Unbind(env, old(Snapshot()), added, 0)
    {
      ghost var answer := A.Unbind(env, Snapshot(), added, 0);
      for i := 0 to |added|
        invariant answer == A.Unbind(env, Snapshot(), added, i)
      {
        RemoveIPv6(env, added[i]);
      }
    }

    // ---- Prepare and the engine ----

    method Prepare(env: A.Env) returns (ok: bool)
      requires Faithful(env)
      modifies this
      ensures (Snapshot(), ok) == A.Prepare(env, old(Snapshot()))
    {
      var loaded := Load(env);
      if loaded.Err? {
        return false;
      }
      ok := PrepareState(env, loaded.value);
    }

    method PrepareState(env: A.Env, s: State) returns (ok: bool)
      requires Faithful(env)
      modifies this
      ensures (Snapshot(), ok) == A.PrepareState(env, old(Snapshot()), s)
    {
      if s.iface == "" || s.prefix == "" {
        return false;
      }
      var prefix := env.net.parsePrefix(s.prefix);
      if prefix.None? {
        return false;
      }
      var current := CurrentIPv6(env);
      if current.None? {
        return false;
      }
      var _, end := Bind(env, prefix.value, current.value, s.proxies);
      if end != A.AllBound {
        return false;
      }
      var text := Render(env, s.proxies);
      if text.None? {
        return false;
      }
      ok := PutConfig(env, text.value);
      if !ok {
        return;
      }
      var listed, _ := WriteLists(env, s.proxies);
      return listed;
    }

    // What systemd does on a restart: stop, the manager's prepare command, start.
    method RestartEngine(env: A.Env) returns (ok: bool)
      requires Faithful(env)
      modifies this
      ensures (Snapshot(), ok) == A.Restart(env, old(Snapshot()))
    {
      hide A.Prepare, A.PrepareState, S.LoadFrom, S.Fill, Enabled;
      var failed := env.fails(clock, A.PreStart);
      engine := None;
      clock := clock + 1;
      if failed {
        return false;
      }
      ok := Prepare(env);
      if !ok {
        return;
      }
      if env.fails(clock, A.StartEngine) {
        clock := clock + 1;
        return false;
      }
      var loaded := store.LoadLocked(!env.fails(clock, A.EngineLoads), !env.fails(clock, A.ReadBackup));
      engine := if loaded.Ok? then Some(Enabled(loaded.value.proxies)) else None;
      clock := clock + 1;
    }

    // ---- the transaction ----

    method Rollback(env: A.Env, original: State, oldConfig: Option<string>, stateChanged: bool, added: seq<string>)
      returns (undo: A.Undo)
      requires Faithful(env)
      modifies this, store
      ensures (Snapshot(), undo) == A.Rollback(env, old(Snapshot()), original, oldConfig, stateChanged, added)
    {
      var savedBack, configBack := true, false;
      if stateChanged {
        savedBack := Save(env, original);
      }
      if oldConfig.Some? {
        configBack := PutConfig(env, oldConfig.value);
        var _ := RestartEngine(env);
      }
      var _, fullBack := WriteLists(env, original.proxies);
      Unbind(env, added);
      undo := A.Undo(savedBack, configBack, fullBack);
    }

    // From the saved candidate to the running engine and the lists.
    method Launch(env: A.Env, candidate: State) returns (failed: Option<A.Stage>)
      requires Faithful(env)
      modifies this
      ensures (Snapshot(), failed) == A.Launch(env, old(Snapshot()), candidate)
    {
      var ok := RestartEngine(env);
      if !ok {
        return Some(A.AtRestart);
      }
      ok := EngineActive(env);
      if !ok {
        ok := RestartEngine(env);
        if !ok {
          return Some(A.AtRetry);
        }
        ok := EngineActive(env);
        if !ok {
          return Some(A.AtProbe);
        }
      }
      var listed, _ := WriteLists(env, candidate.proxies);
      failed := if listed then None else Some(A.AtLists);
    }

    // From the bound addresses to the end of the transaction.
    method Install(env: A.Env, original: State, candidate: State, text: string,
        added: seq<string>) returns (outcome: A.Outcome)
      requires Faithful(env)
      modifies this, store
      ensures (Snapshot(), outcome) == A.Install(env, old(Snapshot()), original, candidate, text, added)
    {
      hide A.Rollback, A.Launch, A.PutConfig, A.SaveState, A.ReadConfigFile;
      var oldConfig := ReadConfigFile(env);
      var stateChanged := false;
      var ok := PutConfig(env, text);
      if !ok {
        return A.ConfigFailed;
      }
      ok := Save(env, candidate);
      if !ok {
        var undo := Rollback(env, original, oldConfig, stateChanged, added);
        return A.RolledBack(A.AtSave, undo);
      }
      stateChanged := true;
      var failed := Launch(env, candidate);
      if failed.Some? {
        var undo := Rollback(env, original, oldConfig, stateChanged, added);
        return A.RolledBack(failed.value, undo);
      }
      return A.Applied;
    }

    method ApplyCandidate(env: A.Env, original: State, candidate: State) returns (outcome: A.Outcome)
      requires Faithful(env)
      modifies this, store
      ensures (Snapshot(), outcome) == A.ApplyCandidate(env, old(Snapshot()), original, candidate)
    {
      hide A.Install, A.BindFrom, A.Unbind, A.CurrentIPv6;
      if candidate.publicIPv4 == "" || candidate.iface == "" || candidate.prefix == "" {
        return A.Refused;
      }
      var prefix := env.net.parsePrefix(candidate.prefix);
      if prefix.None? {
        return A.Refused;
      }
      var text := Render(env, candidate.proxies);
      if text.None? {
        return A.Refused;
      }
      var current := CurrentIPv6(env);
      if current.None? {
        return A.Refused;
      }
      var added, end := Bind(env, prefix.value, current.value, candidate.proxies);
      match end {
        case Outside(port) => return A.OutsidePrefix(port);
        case AddFailed =>
          Unbind(env, added);
          return A.BindFailed;
        case AllBound =>
          outcome := Install(env, original, candidate, text.value, added);
      }
    }

    // ---- the operations ----

    // The longest list a Go slice can hold is below any limit that matters here.
    ghost predicate Sized()
      reads this, store
    {
      forall a, b :: S.LoadFrom(store.Contents(), a, b).Ok? ==> |S.LoadFrom(store.Contents(), a, b).value.proxies| <= MAX_LENGTH
    }

    method Create(env: A.Env, opts: Options, entropy: Entropy) returns (report: O.Report)
      requires Faithful(env) && Sized()
      modifies this, store
      ensures (Snapshot(), report) == O.Create(env, old(Snapshot()), opts, entropy)
    {
      hide A.ApplyCandidate, Allocated, S.LoadFrom;
      var loaded := Load(env);
      if loaded.Err? {
        return O.NotLoaded;
      }
      var current := loaded.value;
      var candidate := new StateRef(current);
      var created := Allocate.Allocate(env.net, candidate, opts, entropy);
      if created.Err? {
        return O.NotAllocated(created.error);
      }
      var outcome := ApplyCandidate(env, current, candidate.state);
      return O.Done(outcome);
    }

    method ApplyListAction(env: A.Env, action: string, text: string) returns (report: O.Report)
      requires Faithful(env)
      modifies this, store
      ensures (Snapshot(), report) == O.Act(env, old(Snapshot()), action, text)
    {
      hide A.ApplyCandidate, ParseList, Planned, S.LoadFrom;
      var entries := ParseListText(env.net, text);
      if entries.Err? {
        return O.BadList(entries.error);
      }
      if action != "disable" && action != "enable" && action != "delete" {
        return O.BadAction;
      }
      var loaded := Load(env);
      if loaded.Err? {
        return O.NotLoaded;
      }
      var current := loaded.value;
      var kept, _ := Plan(current.proxies, action, entries.value);
      if kept.None? {
        return O.NotMatched;
      }
      var outcome := ApplyCandidate(env, current, current.(proxies := kept.value));
      if outcome == A.Applied && action == "delete" {
        Release(env, current.proxies, kept.value);
      }
      return O.Done(outcome);
    }

    // After a deletion: addresses no remaining proxy uses are removed from the interface.
    method Release(env: A.Env, was: seq<Proxy>, kept: seq<Proxy>)
      modifies this
      ensures Snapshot() == O.Release(env, old(Snapshot()), was, TextsOf(kept), 0)
    {
      var remaining: set<string> := {};
      for i := 0 to |kept|
        invariant remaining == TextsOf(kept[..i]) && Snapshot() == old(Snapshot())
      {
        assert kept[..i + 1] == kept[..i] + [kept[i]];
        remaining := remaining + {kept[i].ipv6};
      }
      assert kept[..|kept|] == kept;
      ghost var answer := O.Release(env, Snapshot(), was, remaining, 0);
      for i := 0 to |was|
        invariant answer == O.Release(env, Snapshot(), was, remaining, i)
      {
        if was[i].ipv6 !in remaining {
          RemoveIPv6(env, was[i].ipv6);
        }
      }
    }

    method Repair(env: A.Env) returns (report: O.Report)
      requires Faithful(env)
      modifies this, store
      ensures (Snapshot(), report) == O.Repair(env, old(Snapshot()))
    {
      hide A.ApplyCandidate, S.LoadFrom;
      var loaded := Load(env);
      if loaded.Err? {
        return O.NotLoaded;
      }
      var outcome := ApplyCandidate(env, loaded.value, loaded.value);
      return O.Done(outcome);
    }

    // The first critical section of CheckAll: the snapshot the checks are made on.
    method MarkAll(env: A.Env) returns (snapshot: Option<State>)
      modifies this, store
      ensures (Snapshot(), snapshot) == O.UpdateProxies(env, old(Snapshot()), ps => Mark(ps))
    {
      hide S.LoadFrom, Mark;
      var loaded := Load(env);
      if loaded.Err? {
        return None;
      }
      var marked := MarkLoop(loaded.value.proxies);
      var state := loaded.value.(proxies := marked);
      var ok := Save(env, state);
      return if ok then Some(state) else None;
    }

    // The second: the results go into the state as it is by then.
    method MergeAll(env: A.Env, checks: map<int, Verdict>, now: nat -> nat) returns (updated: Option<State>)
      modifies this, store
      ensures (Snapshot(), updated) == O.UpdateProxies(env, old(Snapshot()), ps => Merge(ps, checks, now))
    {
      hide S.LoadFrom, Merge;
      var loaded := Load(env);
      if loaded.Err? {
        return None;
      }
      var merged := MergeLoop(loaded.value.proxies, checks, now);
      var state := loaded.value.(proxies := merged);
      var ok := Save(env, state);
      return if ok then Some(state) else None;
    }

    // A check that nothing interrupts. pool says in which order the workers deliver (see Pool).
    method CheckAll(env: A.Env, probe: Probe, pool: seq<Proxy> -> seq<nat>, cancelled: bool, now: nat -> nat)
      returns (report: O.Report, ghost checks: map<int, Verdict>)
      requires Faithful(env) && forall ps :: Delivery(ps, pool(ps)) && Within(ps, pool(ps))
      modifies this, store
      ensures (Snapshot(), report) == O.Check(env, old(Snapshot()), checks, cancelled, now)
      ensures var snapshot := O.UpdateProxies(env, old(Snapshot()), ps => Mark(ps)).1;
              snapshot.Some? ==> checks == Checks(snapshot.value.proxies, probe, pool(snapshot.value.proxies))
    {
      hide O.UpdateProxies, Mark, Merge, Checks, Filing;
      checks := map[];
      var snapshot := MarkAll(env);
      if snapshot.None? {
        return O.NotSaved, checks;
      }
      var ps := snapshot.value.proxies;
      checks := Checks(ps, probe, pool(ps));
      var filed := FirstPass(ps, probe, pool(ps));
      if cancelled {
        return O.Cancelled, checks;
      }
      var results := RetryTail(ps, probe, pool(ps), filed);
      var updated := MergeAll(env, results, now);
      if updated.None? {
        return O.NotSaved, checks;
      }
      var ok, _ := WriteLists(env, updated.value.proxies);
      return O.Listed(ok), checks;
    }

    method RotateToken(env: A.Env, token: string) returns (report: O.Report)
      modifies this, store
      ensures (Snapshot(), report) == O.Rotate(env, old(Snapshot()), token)
    {
      hide S.LoadFrom;
      var loaded := Load(env);
      if loaded.Err? {
        return O.NotSaved;
      }
      var ok := Save(env, loaded.value.(token := token));
      return if ok then O.Rotated else O.NotSaved;
    }

    method Locate(env: A.Env, s: State, found: Option<O.Detected>, routed: bool) returns (state: State, ok: bool)
      requires env.net.Lawful()
      modifies this
      ensures (Snapshot(), ok) == O.Located(env, old(Snapshot()), s, found, routed) && state == O.Placed(s, found)
    {
      hide P.ProbePrefix;
      if s.publicIPv4 != "" && s.iface != "" && s.prefix != "" {
        return s, true;
      }
      if found == None {
        return s, false;
      }
      var d := found.value;
      state := s.(publicIPv4 := d.publicIPv4, iface := d.iface, prefix := d.prefix);
      ok := ProbeRoutedPrefix(env, state.prefix, routed);
    }

    method Bootstrap(env: A.Env, found: Option<O.Detected>, routed: bool, list: I.FileRead,
        configs: seq<Option<string>>)
      returns (report: O.Report)
      requires Faithful(env)
      modifies this, store
      ensures (Snapshot(), report) == O.Bootstrap(env, old(Snapshot()), found, routed, list, configs)
    {
      hide S.LoadFrom, I.Imports, O.Located;
      var loaded := Load(env);
      if loaded.Err? {
        return O.NotLoaded;
      }
      var state, located := Locate(env, loaded.value, found, routed);
      if !located {
        return O.Unsupported;
      }
      var ref := new StateRef(state);
      if |state.proxies| == 0 {
        var failure := I.ImportExisting(env.net, ref, list, configs);
        if failure.Some? {
          return O.NotImported(failure.value);
        }
      }
      var saved := Save(env, ref.state);
      if !saved {
        return O.NotSaved;
      }
      var ok, _ := WriteLists(env, ref.state.proxies);
      return O.Bootstrapped(ok);
    }
  }
}
