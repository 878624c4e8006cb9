// The world outside the process, the steps that change it, and the transaction of internal/app/service.go that
// strings them together: applyCandidate, its rollback, and Prepare, which every engine restart runs again.
// A schedule of faults, indexed by time and step, decides which external step fails.
module Apply {
  import opened Model
  import opened Netip
  import opened Store

  datatype Step =
    | ReadState | ReadBackup | CopyState | WriteBackup | WriteState
    | ReadAddresses | AddAddress(text: string) | RemoveAddress(text: string)
    | ReadConfig | WriteConfig | WriteFull | WriteLive
    | PreStart | StartEngine | EngineLoads | ProbeEngine

  // What the transaction takes from elsewhere: the address library, the two printers and the fault schedule.
  datatype Env = Env(net: Codec, render: seq<Proxy> -> Option<string>, list: (seq<Proxy>, bool) -> string,
                     fails: (nat, Step) -> bool)

  datatype World = World(
    bound: set<string>,            // addresses on the interface, in the kernel's canonical text
    config: Option<string>,        // the generated configuration file
    full: Option<string>,          // the full text list
    live: Option<string>,          // the live text list
    files: Files,                  // the state file and its backup
    engine: Option<seq<Proxy>>,    // the listeners of the running engine
    clock: nat)

  function Tick(w: World): World {
    w.(clock := w.clock + 1)
  }

  // ---- single steps ----

  function LoadState(env: Env, w: World): (World, Result<State, LoadError>) {
    (Tick(w), LoadFrom(w.files, !env.fails(w.clock, ReadState), !env.fails(w.clock, ReadBackup)))
  }

  function SaveReach(env: Env, w: World): Reach {
    if env.fails(w.clock, WriteBackup) then BeforeBackup
    else if env.fails(w.clock, WriteState) then AfterBackup else Complete
  }

  function SaveState(env: Env, w: World, s: State): (World, bool) {
    var reach := SaveReach(env, w);
    (Tick(w).(files := Saved(w.files, s, !env.fails(w.clock, CopyState), reach)), reach == Complete)
  }

  function CurrentIPv6(env: Env, w: World): (World, Option<set<string>>) {
    (Tick(w), if env.fails(w.clock, ReadAddresses) then None else Some(w.bound))
  }

  // An address already there is not an error, nor is removing one that is not. ip refuses a text with a zone.
  function AddIPv6(env: Env, w: World, text: string): (World, bool) {
    if env.fails(w.clock, AddAddress(text)) || !env.net.ZoneFreeV6(text) then (Tick(w), false)
    else (Tick(w).(bound := w.bound + {env.net.Canon(text)}), true)
  }

  function RemoveIPv6(env: Env, w: World, text: string): World {
    if env.fails(w.clock, RemoveAddress(text)) || !env.net.ZoneFreeV6(text) then Tick(w)
    else Tick(w).(bound := w.bound - {env.net.Canon(text)})
  }

  function ReadConfigFile(env: Env, w: World): (World, Option<string>) {
    (Tick(w), if env.fails(w.clock, ReadConfig) then None else w.config)
  }

  function PutConfig(env: Env, w: World, text: string): (World, bool) {
    if env.fails(w.clock, WriteConfig) then (Tick(w), false) else (Tick(w).(config := Some(text)), true)
  }

  function PutFull(env: Env, w: World, text: string): (World, bool) {
    if env.fails(w.clock, WriteFull) then (Tick(w), false) else (Tick(w).(full := Some(text)), true)
  }

  function PutLive(env: Env, w: World, text: string): (World, bool) {
    if env.fails(w.clock, WriteLive) then (Tick(w), false) else (Tick(w).(live := Some(text)), true)
  }

  // writeLists
  function PutLists(env: Env, w: World, ps: seq<Proxy>): (World, bool) {
    var (w1, ok) := PutFull(env, w, env.list(ps, false));
    if !ok then (w1, false) else PutLive(env, w1, env.list(ps, true))
  }

  // ---- binding the enabled addresses ----

  datatype Binding = AllBound | Outside(port: int) | AddFailed

  // The loop of applyCandidate and of Prepare, from proxy i on, with the addresses added so far.
  function BindFrom(env: Env, w: World, prefix: Prefix, current: set<string>, ps: seq<Proxy>, i: nat,
      added: seq<string>):
    (World, seq<string>, Binding)
    requires WellSized(prefix) && env.net.Lawful() && i <= |ps|
    decreases |ps| - i
  {
    if i == |ps| then (w, added, AllBound)
    else
      var p := ps[i];
      if !p.enabled then BindFrom(env, w, prefix, current, ps, i + 1, added)
      else
        var ip := env.net.parseAddr(p.ipv6);
        if ip.None? || !Contains(prefix, ip.value) then (w, added, Outside(p.port))
        else if p.ipv6 in current then BindFrom(env, w, prefix, current, ps, i + 1, added)
        else
          var (w1, ok) := AddIPv6(env, w, p.ipv6);
          if !ok then (w1, added, AddFailed)
          else BindFrom(env, w1, prefix, current, ps, i + 1, added + [p.ipv6])
  }

  function Unbind(env: Env, w: World, added: seq<string>, i: nat): World
    requires i <= |added|
    decreases |added| - i
  {
    if i == |added| then w else Unbind(env, RemoveIPv6(env, w, added[i]), added, i + 1)
  }

  // ---- Prepare and the engine ----

  function PrepareState(env: Env, w: World, s: State): (World, bool)
    requires env.net.Lawful()
  {
    if s.iface == "" || s.prefix == "" then (w, false)
    else match env.net.parsePrefix(s.prefix)
      case None => (w, false)
      case Some(prefix) =>
        var (w1, current) := CurrentIPv6(env, w);
        if current.None? then (w1, false)
        else
          var (w2, _, end) := BindFrom(env, w1, prefix, current.value, s.proxies, 0, []);
          if end != AllBound then (w2, false)
          else match env.render(s.proxies)
            case None => (w2, false)
            case Some(text) =>
              var (w3, ok) := PutConfig(env, w2, text);
              if !ok then (w3, false) else PutLists(env, w3, s.proxies)
  }

  function Prepare(env: Env, w: World): (World, bool)
    requires env.net.Lawful()
  {
    var (w1, loaded) := LoadState(env, w);
    if loaded.Err? then (w1, false) else PrepareState(env, w1, loaded.value)
  }

  // systemctl restart: stop, run Prepare (install.sh), start. A started engine serves what it loads.
  function Restart(env: Env, w: World): (World, bool)
    requires env.net.Lawful()
  {
    var stopped := Tick(w).(engine := None);
    if env.fails(w.clock, PreStart) then (stopped, false)
    else
      var (w1, ok) := Prepare(env, stopped);
      if !ok then (w1, false)
      else if env.fails(w1.clock, StartEngine) then (Tick(w1), false)
      else
        var loaded := LoadFrom(w1.files, !env.fails(w1.clock, EngineLoads), !env.fails(w1.clock, ReadBackup));
        (Tick(w1).(engine := if loaded.Ok? then Some(Enabled(loaded.value.proxies)) else None), true)
  }

  function Active(env: Env, w: World): (World, bool) {
    (Tick(w), !env.fails(w.clock, ProbeEngine) && w.engine.Some?)
  }

  // ---- the transaction ----

  // How much of the rollback took effect; the source ignores these results.
  datatype Undo = Undo(state: bool, config: bool, full: bool)

  datatype Stage = AtSave | AtRestart | AtRetry | AtProbe | AtLists

  datatype Outcome =
    | Applied
    | Refused                       // nothing was touched
    | OutsidePrefix(port: int)      // returns without removing the addresses added so far
    | BindFailed                    // addresses added so far are removed
    | ConfigFailed                  // returns without removing the addresses added so far
    | RolledBack(stage: Stage, undo: Undo)

  function Rollback(env: Env, w: World, original: State, oldConfig: Option<string>, stateChanged: bool,
      added: seq<string>):
    (World, Undo)
    requires env.net.Lawful()
  {
    var (w1, savedBack) := if stateChanged then SaveState(env, w, original) else (w, true);
    var (w2, configBack) :=
      if oldConfig.None? then (w1, false)
      else
        var (w', ok) := PutConfig(env, w1, oldConfig.value);
        (Restart(env, w').0, ok);
    var fullBack := PutFull(env, w2, env.list(original.proxies, false)).1;
    var w3 := PutLists(env, w2, original.proxies).0;
    (Unbind(env, w3, added, 0), Undo(savedBack, configBack, fullBack))
  }

  // From the saved candidate to the running engine and the lists: the failing stage, if any.
  function Launch(env: Env, w: World, candidate: State): (World, Option<Stage>)
    requires env.net.Lawful()
  {
    var (w1, started) := Restart(env, w);
    if !started then (w1, Some(AtRestart))
    else
      var (w2, active) := Active(env, w1);
      if active then LaunchLists(env, w2, candidate)
      else
        var (w3, restarted) := Restart(env, w2);
        if !restarted then (w3, Some(AtRetry))
        else
          var (w4, stable) := Active(env, w3);
          if !stable then (w4, Some(AtProbe)) else LaunchLists(env, w4, candidate)
  }

  function LaunchLists(env: Env, w: World, candidate: State): (World, Option<Stage>) {
    var (w1, ok) := PutLists(env, w, candidate.proxies);
    (w1, if ok then None else Some(AtLists))
  }

  // After the addresses are bound.
  function Install(env: Env, w: World, original: State, candidate: State, text: string, added: seq<string>): (World,
      Outcome)
    requires env.net.Lawful()
  {
    var (w1, oldConfig) := ReadConfigFile(env, w);
    var (w2, wrote) := PutConfig(env, w1, text);
    if !wrote then (w2, ConfigFailed)
    else
      var (w3, saved) := SaveState(env, w2, candidate);
      if !saved then
        var (w4, undo) := Rollback(env, w3, original, oldConfig, false, added);
        (w4, RolledBack(AtSave, undo))
      else
        var (w4, failed) := Launch(env, w3, candidate);
        match failed
        case None => (w4, Applied)
        case Some(stage) =>
          var (w5, undo) := Rollback(env, w4, original, oldConfig, true, added);
          (w5, RolledBack(stage, undo))
  }

  function ApplyCandidate(env: Env, w: World, original: State, candidate: State): (World, Outcome)
    requires env.net.Lawful()
  {
    if candidate.publicIPv4 == "" || candidate.iface == "" || candidate.prefix == "" then (w, Refused)
    else match (env.net.parsePrefix(candidate.prefix), env.render(candidate.proxies))
      case (Some(prefix), Some(text)) =>
        var (w1, current) := CurrentIPv6(env, w);
        if current.None? then (w1, Refused)
        else
          var (w2, added, end) := BindFrom(env, w1, prefix, current.value, candidate.proxies, 0, []);
          (match end
           case Outside(port) => (w2, OutsidePrefix(port))
           case AddFailed => (Unbind(env, w2, added, 0), BindFailed)
           case AllBound => Install(env, w2, original, candidate, text, added))
      case _ => (w, Refused)
  }
}
