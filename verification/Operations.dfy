// The operations of internal/app/service.go on the world, each in full: load, edit, transaction, clean-up.
module Operations {
  import opened Model
  import opened Netip
  import opened Config
  import opened Store
  import opened Lists
  import opened Health
  import opened Allocate
  import opened Apply
  import opened PrefixProbe
  import I = Import

  datatype Report =
    | NotLoaded                       // the state could not be read
    | NotAllocated(why: AllocError)
    | BadList(flaw: ListError)        // the pasted list was refused
    | BadAction                       // neither disable, enable nor delete
    | NotMatched                      // no submitted entry names a proxy
    | NotSaved                        // an update of the state was not stored
    | Marked                          // a check has stored its marks and is under way
    | Cancelled                       // a check was cancelled before its second update
    | Listed(ok: bool)                // a check has stored its results; whether the lists were written
    | Rotated                         // the access token was replaced
    | Unsupported                     // bootstrap found no usable network
    | NotImported(reason: I.ImportError)
    | Bootstrapped(ok: bool)          // whether the lists were written
    | Booted(ok: bool)                // the machine came up; whether the engine was prepared and started
    | Done(outcome: Outcome)

  function Create(env: Env, w: World, opts: Options, entropy: Entropy): (World, Report)
    requires env.net.Lawful()
  {
    var (w1, loaded) := LoadState(env, w);
    match loaded
    case Err(_) => (w1, NotLoaded)
    case Ok(current) =>
      match Allocated(env.net, current, opts, entropy)
      case Err(e) => (w1, NotAllocated(e))
      case Ok((candidate, _)) =>
        var (w2, outcome) := ApplyCandidate(env, w1, current, candidate);
        (w2, Done(outcome))
  }

  // After a deletion: the addresses no proxy on the list uses any more are unbound, failures ignored.
  function Release(env: Env, w: World, was: seq<Proxy>, remaining: set<string>, i: nat): World
    requires i <= |was|
    decreases |was| - i
  {
    if i == |was| then w
    else Release(env, if was[i].ipv6 in remaining then w else RemoveIPv6(env, w, was[i].ipv6), was, remaining, i + 1)
  }

  function Act(env: Env, w: World, action: string, text: string): (World, Report)
    requires env.net.Lawful()
  {
    match ParseList(env.net, text)
    case Err(flaw) => (w, BadList(flaw))
    case Ok(entries) => if KnownAction(action) then ActOn(env, w, action, entries) else (w, BadAction)
  }

  function ActOn(env: Env, w: World, action: string, entries: seq<Entry>): (World, Report)
    requires env.net.Lawful()
  {
    var (w1, loaded) := LoadState(env, w);
    match loaded
    case Err(_) => (w1, NotLoaded)
    case Ok(current) =>
      match Planned(current.proxies, action, entries).0
      case None => (w1, NotMatched)
      case Some(kept) =>
        var (w2, outcome) := ApplyCandidate(env, w1, current, current.(proxies := kept));
        (if outcome == Applied && action == "delete" then Release(env, w2, current.proxies, TextsOf(kept), 0) else w2,
         Done(outcome))
  }

  function Repair(env: Env, w: World): (World, Report)
    requires env.net.Lawful()
  {
    var (w1, loaded) := LoadState(env, w);
    match loaded
    case Err(_) => (w1, NotLoaded)
    case Ok(current) =>
      var (w2, outcome) := ApplyCandidate(env, w1, current, current);
      (w2, Done(outcome))
  }

  // Store.Update with an edit of the proxies that cannot fail.
  function UpdateProxies(env: Env, w: World, edit: seq<Proxy> -> seq<Proxy>): (World, Option<State>) {
    var (w1, loaded) := LoadState(env, w);
    match loaded
    case Err(_) => (w1, None)
    case Ok(s) =>
      var s' := s.(proxies := edit(s.proxies));
      var (w2, ok) := SaveState(env, w1, s');
      (w2, if ok then Some(s') else None)
  }

  // The first critical section of a health check.
  function StartMarks(env: Env, w: World): (World, Report) {
    var (w1, marked) := UpdateProxies(env, w, ps => Mark(ps));
    (w1, if marked.None? then NotSaved else Marked)
  }

  // The end of a health check: results are merged into the state as it is now, and the lists are written.
  function FileResults(env: Env, w: World, checks: map<int, Verdict>, now: nat -> nat): (World, Report) {
    var (w1, merged) := UpdateProxies(env, w, ps => Merge(ps, checks, now));
    match merged
    case None => (w1, NotSaved)
    case Some(s) =>
      var (w2, ok) := PutLists(env, w1, s.proxies);
      (w2, Listed(ok))
  }

  // A health check that no other operation interrupts.
  function Check(env: Env, w: World, checks: map<int, Verdict>, cancelled: bool, now: nat -> nat): (World, Report) {
    var (w1, r) := StartMarks(env, w);
    if r == NotSaved then (w1, NotSaved)
    else if cancelled then (w1, Cancelled)
    else FileResults(env, w1, checks, now)
  }

  function Rotate(env: Env, w: World, token: string): (World, Report) {
    var (w1, loaded) := LoadState(env, w);
    match loaded
    case Err(_) => (w1, NotSaved)
    case Ok(s) =>
      var (w2, ok) := SaveState(env, w1, s.(token := token));
      (w2, if ok then Rotated else NotSaved)
  }

  // The interface loses its addresses and the engine its process; then systemd starts the engine.
  function Reboot(env: Env, w: World): (World, Report)
    requires env.net.Lawful()
  {
    var (w1, ok) := Restart(env, w.(bound := {}, engine := None));
    (w1, Booted(ok))
  }

  // What host detection finds (internal/system/host.go); how it finds it is not modelled.
  datatype Detected = Detected(publicIPv4: string, iface: string, prefix: string)

  predicate Undetected(s: State) {
    s.publicIPv4 == "" || s.iface == "" || s.prefix == ""
  }

  function Placed(s: State, found: Option<Detected>): State {
    match found
    case None => s
    case Some(d) => if Undetected(s) then s.(publicIPv4 := d.publicIPv4, iface := d.iface, prefix := d.prefix) else s
  }

  // A network that is not known yet is detected, and its prefix probed.
  function Located(env: Env, w: World, s: State, found: Option<Detected>, routed: bool): (World, bool)
    requires env.net.Lawful()
  {
    if !Undetected(s) then (w, true)
    else if found.None? then (w, false)
    else ProbePrefix(env, w, Placed(s, found).prefix, routed)
  }

  // Bootstrap: detect the network unless it is known, import older proxies unless there are some, save, write the
  // lists. routed says whether the network answers the probe; list and configs are the old files.
  function Bootstrap(env: Env, w: World, found: Option<Detected>, routed: bool, list: I.FileRead,
      configs: seq<Option<string>>): (World, Report)
    requires env.net.Lawful()
  {
    var (w1, loaded) := LoadState(env, w);
    match loaded
    case Err(_) => (w1, NotLoaded)
    case Ok(s) =>
      var (w2, located) := Located(env, w1, s, found, routed);
      if !located then (w2, Unsupported)
      else match (if s.proxies == [] then I.Imports(env.net, Placed(s, found), list, configs) else Ok(Placed(s, found)))
        case Err(e) => (w2, NotImported(e))
        case Ok(s') =>
          var (w3, saved) := SaveState(env, w2, s');
          if !saved then (w3, NotSaved)
          else
            var (w4, ok) := PutLists(env, w3, s'.proxies);
            (w4, Bootstrapped(ok))
  }

  // The two critical sections of a check are events of their own, so that anything may happen between them; their
  // results are arbitrary.
  datatype Event =
    | DoCreate(opts: Options, entropy: Entropy)
    | DoAct(action: string, text: string)
    | DoRepair
    | DoMark
    | DoResults(checks: map<int, Verdict>, now: nat -> nat)
    | DoRotate(token: string)
    | DoReboot

  function Happens(env: Env, w: World, e: Event): (World, Report)
    requires env.net.Lawful()
  {
    match e
    case DoCreate(opts, entropy) => Create(env, w, opts, entropy)
    case DoAct(action, text) => Act(env, w, action, text)
    case DoRepair => Repair(env, w)
    case DoMark => StartMarks(env, w)
    case DoResults(checks, now) => FileResults(env, w, checks, now)
    case DoRotate(token) => Rotate(env, w, token)
    case DoReboot => Reboot(env, w)
  }

  // A run: the worlds after each event and what each event reported.
  function Runs(env: Env, w: World, events: seq<Event>): World
    requires env.net.Lawful()
  {
    if events == [] then w else Happens(env, Runs(env, w, events[..|events| - 1]), events[|events| - 1]).0
  }

  function ReportAt(env: Env, w: World, events: seq<Event>, k: nat): Report
    requires env.net.Lawful() && k < |events|
  {
    Happens(env, Runs(env, w, events[..k]), events[k]).1
  }

  // A whole check is its two sections one after the other, or the first alone.
  lemma CheckIsItsSections(env: Env, w: World, checks: map<int, Verdict>, cancelled: bool, now: nat -> nat)
    requires env.net.Lawful()
    ensures var first := [DoMark];
            var both := [DoMark, DoResults(checks, now)];
            Check(env, w, checks, cancelled, now).0
              == Runs(env, w, if cancelled || ReportAt(env, w, first, 0) == NotSaved then first else both)
  {
    var first, both := [DoMark], [DoMark, DoResults(checks, now)];
    assert first[..0] == [] && both[..1] == first;
    assert Runs(env, w, []) == w;
    assert Runs(env, w, first) == StartMarks(env, w).0;
  }
}
