// When Bootstrap of internal/app/service.go succeeds, why it does not, and what it stores.
module Startup {
  import opened Model
  import opened Text
  import opened Netip
  import opened Config
  import opened Store
  import opened Allocate
  import opened FirstFit
  import opened Apply
  import opened ApplyLaws
  import opened PrefixProbe
  import opened Operations
  import opened Faultless
  import I = Import

  predicate NetworkKnown(s: State) {
    s.publicIPv4 != "" && s.iface != "" && s.prefix != ""
  }

  predicate WouldTry(net: Codec, base: nat, cap: nat, bound: set<string>, o: nat) {
    o < cap && (o == 4096 || At(net, base, o) !in bound)
  }

  // Some address after the first of the prefix, among those that are tried, is not bound; or all of them are and the last
  // one is tried although it is.
  ghost predicate HasCandidate(net: Codec, prefixText: string, bound: set<string>)
    requires net.Lawful() && RoutedV6(net, prefixText)
  {
    var prefix := net.parsePrefix(prefixText).value;
    exists o: nat :: 1 <= o <= 4096 && WouldTry(net, Masked(prefix), Capacity(prefix), bound, o)
  }

  // The network is known already, or it is detected now, and an address of the detected prefix was tried and answered.
  ghost predicate NetworkFound(net: Codec, s: State, found: Option<Detected>, routed: bool, bound: set<string>)
    requires net.Lawful()
  {
    NetworkKnown(s) ||
    (found.Some? && routed && RoutedV6(net, found.value.prefix) && HasCandidate(net, found.value.prefix, bound))
  }

  // The state with the network that is known or was detected.
  function WithNetwork(s: State, found: Option<Detected>): State {
    if s.publicIPv4 != "" && s.iface != "" && s.prefix != "" then s
    else match found
      case None => s
      case Some(d) =>
        State(s.version, d.publicIPv4, d.iface, d.prefix, s.nextPort, s.nextOffset, s.token, s.proxies)
  }

  ghost predicate Blank(list: I.FileRead) {
    list.Contents? && TrimSpace(list.text) == ""
  }

  // Some configuration that can be read describes a service.
  ghost predicate SomeServices(configs: seq<Option<string>>) {
    exists c :: c in configs && c.Some? && |Parse3ProxyServices(c.value)| > 0
  }

  // There is no old list, or nothing in it, or it can be read and so can the services of its proxies.
  ghost predicate OldListFine(net: Codec, list: I.FileRead, configs: seq<Option<string>>) {
    || list.Absent? || Blank(list)
    || (list.Contents? && ParseList(net, list.text).Ok? && SomeServices(configs))
  }

  // ---- the import ----

  lemma {:induction false} ServicesFound(configs: seq<Option<string>>)
    ensures |I.FirstServices(configs)| > 0 <==> SomeServices(configs)
  {
    if configs != [] {
      ServicesFound(configs[1..]);
      assert forall c :: c in configs <==> c == configs[0] || c in configs[1..];
    }
  }

  // Why an import fails, and that it changes nothing when there is nothing to import.
  lemma ImportsExactly(net: Codec, s: State, list: I.FileRead, configs: seq<Option<string>>)
    ensures var r := I.Imports(net, s, list, configs);
            && (r.Ok? <==> OldListFine(net, list, configs))
            && (list.Absent? || Blank(list) ==> r == Ok(s))
            && (r == Err(I.CannotRead) <==> list.Failed?)
            && (r == Err(I.NoServices) <==>
                  list.Contents? && !Blank(list) && ParseList(net, list.text).Ok? && !SomeServices(configs))
            && forall why :: r == Err(I.BadList(why)) <==>
                               list.Contents? && !Blank(list) && ParseList(net, list.text) == Err(why)
  {
    hide ParseList, TrimSpace, I.TakeFrom, SomeServices;
    ServicesFound(configs);
  }

  // ---- the probe ----

  lemma {:induction false} CandidateExists(net: Codec, base: nat, cap: nat, current: set<string>, o: nat)
    requires 1 <= o <= ATTEMPTS
    ensures Candidate(net, base, cap, current, o).Some? <==>
              exists i: nat :: o <= i <= 4096 && WouldTry(net, base, cap, current, i)
    ensures var r := Candidate(net, base, cap, current, o);
            r.Some? ==> forall i: nat :: o <= i < r.value ==> At(net, base, i) in current
    decreases ATTEMPTS - o
  {
    if o < cap && o < ATTEMPTS && At(net, base, o) in current {
      CandidateExists(net, base, cap, current, o + 1);
    } else if o < cap {
      assert WouldTry(net, base, cap, current, o);
    }
  }

  lemma NothingFails(env: Env, t: nat)
    requires NoFaults(env)
    ensures !env.fails(t, ReadAddresses) && RemovalsWork(env) && AdditionsWork(env)
  {
  }

  lemma ProbesExactly(env: Env, w: World, prefixText: string, routed: bool)
    requires env.net.Lawful() && NoFaults(env)
    ensures ProbePrefix(env, w, prefixText, routed).1 <==>
              routed && RoutedV6(env.net, prefixText) && HasCandidate(env.net, prefixText, w.bound)
  {
    hide Candidate, WouldTry, Pow2, AlignDown, NoFaults, AddIPv6;
    if RoutedV6(env.net, prefixText) {
      var prefix := env.net.parsePrefix(prefixText).value;
      PrefixRoom(prefix);
      CandidateExists(env.net, Masked(prefix), Capacity(prefix), w.bound, 1);
      NothingFails(env, w.clock);
      var o := Candidate(env.net, Masked(prefix), Capacity(prefix), w.bound, 1);
      if o.Some? {
        TriedAndRemoved(env, CurrentIPv6(env, w).0, Masked(prefix) + o.value);
      }
    }
  }

  // ---- the whole of it ----

  lemma LocatesExactly(env: Env, w: World, s: State, found: Option<Detected>, routed: bool)
    requires env.net.Lawful() && NoFaults(env)
    ensures Located(env, w, s, found, routed).1 <==> NetworkFound(env.net, s, found, routed, w.bound)
    ensures Placed(s, found) == WithNetwork(s, found)
    ensures Located(env, w, s, found, routed).0.files == w.files
  {
    hide HasCandidate, ProbePrefix;
    if found.Some? {
      ProbesExactly(env, w, found.value.prefix, routed);
      ProbeKeepsFiles(env, w, found.value.prefix, routed);
    }
  }

  lemma ProbeKeepsFiles(env: Env, w: World, prefixText: string, routed: bool)
    requires env.net.Lawful()
    ensures ProbePrefix(env, w, prefixText, routed).0.files == w.files
  {
  }

  lemma StoresAndLists(env: Env, w: World, s: State)
    requires NoFaults(env)
    ensures var (w1, saved) := SaveState(env, w, s);
            var (w2, ok) := PutLists(env, w1, s.proxies);
            && saved && ok && Load(w2.files) == Ok(Fill(Stamp(s)))
            && w2.full == Some(env.list(s.proxies, false)) && w2.live == Some(env.list(s.proxies, true))
  {
    assert !env.fails(w.clock, WriteBackup) && !env.fails(w.clock, WriteState);
    var w1 := SaveState(env, w, s).0;
    assert !env.fails(w1.clock, WriteFull) && !env.fails(w1.clock + 1, WriteLive);
  }

  // When nothing fails: a state without proxies is bootstrapped exactly when the network is found and the old list, if
  // there is one, can be taken over. It then holds the network and, with nothing to take over, no proxies and the cursors
  // it had.
  lemma BootstrapsExactly(env: Env, w: World, s: State, found: Option<Detected>, routed: bool, list: I.FileRead,
      configs: seq<Option<string>>)
    requires env.net.Lawful() && NoFaults(env) && Load(w.files) == Ok(s) && s.proxies == []
    ensures var (w', r) := Bootstrap(env, w, found, routed, list, configs);
            && (r == Bootstrapped(true) <==>
                  NetworkFound(env.net, s, found, routed, w.bound) && OldListFine(env.net, list, configs))
            && (r == Unsupported <==> !NetworkFound(env.net, s, found, routed, w.bound))
            && (r == Bootstrapped(true) && (list.Absent? || Blank(list)) ==>
                  Load(w'.files) == Ok(WithNetwork(s, found).(version := 1)))
  {
    hide I.Imports, Located, NetworkFound, OldListFine, Blank, SaveState, PutLists, HasCandidate, NoFaults;
    LoadsFine(env, w, s);
    LocatesExactly(env, Tick(w), s, found, routed);
    var placed, w2 := Placed(s, found), Located(env, Tick(w), s, found, routed).0;
    ImportsExactly(env.net, placed, list, configs);
    if I.Imports(env.net, placed, list, configs).Ok? {
      StoresAndLists(env, w2, I.Imports(env.net, placed, list, configs).value);
    }
    LoadedIsFilled(w.files, s, found);
  }

  lemma LoadsFine(env: Env, w: World, s: State)
    requires NoFaults(env) && Load(w.files) == Ok(s)
    ensures LoadState(env, w) == (Tick(w), Ok(s))
  {
    assert !env.fails(w.clock, ReadState) && !env.fails(w.clock, ReadBackup);
  }

  lemma LoadedIsFilled(f: Files, s: State, found: Option<Detected>)
    requires Load(f) == Ok(s)
    ensures Fill(Stamp(WithNetwork(s, found))) == WithNetwork(s, found).(version := 1)
  {
  }

  // With proxies stored the old files are not looked at, and the proxies stay.
  lemma BootstrapKeepsProxies(env: Env, w: World, s: State, found: Option<Detected>, routed: bool, list: I.FileRead,
      configs: seq<Option<string>>)
    requires env.net.Lawful() && NoFaults(env) && Load(w.files) == Ok(s) && s.proxies != []
    ensures var (w', r) := Bootstrap(env, w, found, routed, list, configs);
            && (r == Bootstrapped(true) <==> NetworkFound(env.net, s, found, routed, w.bound))
            && (r == Bootstrapped(true) ==> Load(w'.files) == Ok(WithNetwork(s, found).(version := 1)))
            && (r == Bootstrapped(true) ==>
                  w'.full == Some(env.list(s.proxies, false)) && w'.live == Some(env.list(s.proxies, true)))
  {
    hide Located, NetworkFound, SaveState, PutLists, HasCandidate, NoFaults;
    LoadsFine(env, w, s);
    LocatesExactly(env, Tick(w), s, found, routed);
    StoresAndLists(env, Located(env, Tick(w), s, found, routed).0, Placed(s, found));
    LoadedIsFilled(w.files, s, found);
  }

  // A machine on which the program has never run: it starts with port 10000 and the first address after the prefix's own.
  lemma FreshMachine(env: Env, w: World, d: Detected, list: I.FileRead, configs: seq<Option<string>>)
    requires env.net.Lawful() && NoFaults(env) && w.files == Files(None, None) && (list.Absent? || Blank(list))
    requires RoutedV6(env.net, d.prefix) && HasCandidate(env.net, d.prefix, w.bound)
    ensures var (w', r) := Bootstrap(env, w, Some(d), true, list, configs);
            && r == Bootstrapped(true)
            && Load(w'.files) == Ok(State(1, d.publicIPv4, d.iface, d.prefix, 10000, 1, "", []))
  {
    hide Bootstrap, HasCandidate, Blank, NoFaults;
    assert Load(w.files) == Ok(State(1, "", "", "", 10000, 1, "", []));
    BootstrapsExactly(env, w, State(1, "", "", "", 10000, 1, "", []), Some(d), true, list, configs);
  }
}
