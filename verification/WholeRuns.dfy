// What holds after every run of operations, for every fault schedule.
module WholeRuns {
  import opened Model
  import opened Netip
  import opened Config
  import opened Store
  import opened Lists
  import opened Health
  import opened Allocate
  import opened AllocateLaws
  import opened Apply
  import opened ApplyLaws
  import opened Undoing
  import opened PrefixProbe
  import H = History
  import opened Operations
  import I = Import
  import L = Lifetime

  // A world whose state can be decoded, with the kernel's own names for its addresses.
  ghost predicate Durable(env: Env, w: World) {
    Decodable(w.files) && Load(w.files).Ok? && KernelTexts(env.net, w.bound)
  }

  function StoredState(w: World): State
    requires Load(w.files).Ok?
  {
    Load(w.files).value
  }

  // Every enabled proxy's address is bound.
  ghost predicate Safe(env: Env, w: World) {
    Load(w.files).Ok? && CanonTexts(env.net, StoredState(w).proxies) <= w.bound
  }

  // Nothing below depends on a status: printers that ignore statuses.
  ghost predicate StatusBlind(env: Env) {
    forall ps, qs :: SameBut(ps, qs) ==> env.render(ps) == env.render(qs) && env.list(ps, false) == env.list(qs, false)
  }

  ghost predicate CoherentWorld(env: Env, w: World) {
    Load(w.files).Ok? && Coherent(env, w, StoredState(w).proxies)
  }

  lemma LoadGives(env: Env, w: World)
    requires Load(w.files).Ok?
    ensures LoadState(env, w).1.Ok? ==> LoadState(env, w).1.value == StoredState(w)
    ensures LoadState(env, w).0 == w.(clock := w.clock + 1)
  {
    LoadsTheSame(w.files, !env.fails(w.clock, ReadState), !env.fails(w.clock, ReadBackup));
  }

  // ---- one transaction ----

  // The state a transaction leaves: the original, as it was or saved again, or the candidate.
  ghost predicate LeavesState(w': World, original: State, candidate: State, outcome: Outcome) {
    && Decodable(w'.files) && Load(w'.files).Ok?
    && match outcome
       case Applied => StoredState(w') == H.Stored(candidate)
       case RolledBack(_, undo) =>
         if undo.state then StoredState(w') == original || StoredState(w') == H.Stored(original)
         else StoredState(w') == H.Stored(candidate)
       case _ => StoredState(w') == original
  }

  ghost predicate SavedBack(outcome: Outcome) {
    outcome.RolledBack? ==> outcome.undo.state
  }

  ghost predicate AllUndone(outcome: Outcome) {
    outcome.RolledBack? ==> UndoWorked(outcome.undo)
  }

  // Coherence is kept for all texts. A rollback keeps an address safe unless the candidate names it by another text;
  // candidates with canonical texts do not.
  lemma TransactionKeeps(env: Env, w: World, original: State, candidate: State)
    requires env.net.Lawful() && Durable(env, w) && Load(w.files) == Ok(original)
    ensures var (w', outcome) := ApplyCandidate(env, w, original, candidate);
            && Durable(env, w') && LeavesState(w', original, candidate, outcome)
            && (outcome == Applied ==>
                  Safe(env, w') && CoherentWorld(env, w') && w'.engine == Some(Enabled(candidate.proxies)))
            && (Safe(env, w) && SavedBack(outcome)
                && (CanonicalSet(env.net, candidate.proxies) || NoAlias(env.net, w.bound, candidate.proxies))
                ==> Safe(env, w'))
            && (CoherentWorld(env, w) && AllUndone(outcome) ==> CoherentWorld(env, w'))
  {
    hide ApplyCandidate, NoAlias, CanonTexts;
    ApplyEffect(env, w, original, candidate);
    CanonicalNoAlias(env.net, w.bound, candidate.proxies);
    if NoAlias(env.net, w.bound, candidate.proxies) && ApplyCandidate(env, w, original, candidate).1.BindFailed? {
      FewerAliases(env.net, w.bound, candidate.proxies, FailsAt(env, w, candidate));
    }
  }

  lemma CanonicalNoAlias(net: Codec, bound: set<string>, ps: seq<Proxy>)
    ensures CanonicalSet(net, ps) ==> NoAlias(net, bound, ps)
  {
  }

  // ---- each operation ----

  // Condition on an event for safety: its rollback could store the original again, its boot succeeded.
  ghost predicate Recovered(r: Report) {
    match r
    case Done(outcome) => SavedBack(outcome)
    case Booted(ok) => ok
    case _ => true
  }

  ghost predicate FullyRecovered(r: Report) {
    r.Done? ==> AllUndone(r.outcome)
  }

  // What one operation does to a world, in terms of the committed changes. Only transactions need canonical texts, and
  // only for safety.
  ghost predicate Step(env: Env, w: World, w': World, r: Report, cs: seq<H.Change>)
    requires env.net.Lawful() && Load(w.files).Ok?
  {
    && Durable(env, w') && StoredState(w') == H.Run(env.net, StoredState(w), cs)
    && (Safe(env, w) && Recovered(r) && (r.Done? ==> CanonicalSet(env.net, StoredState(w).proxies)) ==> Safe(env, w'))
    && (StatusBlind(env) && CoherentWorld(env, w) && FullyRecovered(r) ==> CoherentWorld(env, w'))
  }

  lemma RunOne(net: Codec, s: State, c: H.Change)
    requires net.Lawful()
    ensures H.Run(net, s, [c]) == H.After(net, s, c) && H.Run(net, s, []) == s
  {
    assert [c][..0] == [];
  }

  // The change an operation commits when it succeeds.
  function ChangesOf(net: Codec, e: Event): seq<H.Change> {
    match e
    case DoCreate(opts, entropy) => [H.Created(opts, entropy)]
    case DoAct(action, text) => (match ParseList(net, text) case Ok(entries) => [H.Acted(action, entries)] case Err(_) => [])
    case DoRepair => [H.Resaved]
    case DoMark => [H.CheckStarted]
    case DoResults(checks, now) => [H.CheckMerged(checks, now)]
    case DoRotate(token) => [H.TokenRotated(token)]
    case DoReboot => []
  }

  // What an operation has committed, by what it reports: its own change if it succeeded or could not be undone, at
  // most a re-save if it was undone, and otherwise nothing.
  ghost predicate Commits(net: Codec, e: Event, r: Report, cs: seq<H.Change>) {
    match r
    case Done(Applied) => cs == ChangesOf(net, e)
    case Done(RolledBack(_, undo)) => if undo.state then cs == [] || cs == [H.Resaved] else cs == ChangesOf(net, e)
    case Marked => cs == ChangesOf(net, e)
    case Listed(_) => cs == ChangesOf(net, e)
    case Rotated => cs == ChangesOf(net, e)
    case _ => cs == []
  }

  // The changes a transaction commits when its success would commit c.
  function Committed(w: World, original: State, c: H.Change, outcome: Outcome): seq<H.Change>
    requires Load(w.files).Ok?
  {
    match outcome
    case Applied => [c]
    case RolledBack(_, undo) => if !undo.state then [c] else if StoredState(w) == original then [] else [H.Resaved]
    case _ => []
  }

  lemma TransactionSteps(env: Env, w: World, w0: World, original: State, candidate: State,
      c: H.Change) returns (cs: seq<H.Change>)
    requires env.net.Lawful() && Durable(env, w) && Load(w.files) == Ok(original) && w == w0.(clock := w.clock)
    requires CanonicalSet(env.net, original.proxies) ==> CanonicalSet(env.net, candidate.proxies)
    requires H.After(env.net, original, c) == H.Stored(candidate)
    ensures var (w', outcome) := ApplyCandidate(env, w, original, candidate);
            && Load(w'.files).Ok?
            && Step(env, w0, w', Done(outcome), cs) && cs == Committed(w', original, c, outcome)
  {
    TransactionKeeps(env, w, original, candidate);
    var (w', outcome) := ApplyCandidate(env, w, original, candidate);
    cs := Committed(w', original, c, outcome);
    RunOne(env.net, original, c);
    RunOne(env.net, original, H.Resaved);
  }

  lemma CreateSteps(env: Env, w: World, opts: Options, entropy: Entropy) returns (cs: seq<H.Change>)
    requires env.net.Lawful() && Durable(env, w)
    ensures var (w', r) := Create(env, w, opts, entropy);
            Step(env, w, w', r, cs) && Commits(env.net, DoCreate(opts, entropy), r, cs)
  {
    cs := [];
    LoadGives(env, w);
    var (w1, loaded) := LoadState(env, w);
    RunOne(env.net, StoredState(w), H.Resaved);
    if loaded.Ok? && Allocated(env.net, loaded.value, opts, entropy).Ok? {
      AllocatedFresh(env.net, loaded.value, opts, entropy);
      var candidate := Allocated(env.net, loaded.value, opts, entropy).value.0;
      cs := TransactionSteps(env, w1, w, loaded.value, candidate, H.Created(opts, entropy));
    }
  }

  lemma RepairSteps(env: Env, w: World) returns (cs: seq<H.Change>)
    requires env.net.Lawful() && Durable(env, w)
    ensures var (w', r) := Repair(env, w); Step(env, w, w', r, cs) && Commits(env.net, DoRepair, r, cs)
    ensures cs == [] || cs == [H.Resaved]
  {
    cs := [];
    LoadGives(env, w);
    var (w1, loaded) := LoadState(env, w);
    RunOne(env.net, StoredState(w), H.Resaved);
    if loaded.Ok? {
      cs := TransactionSteps(env, w1, w, loaded.value, loaded.value, H.Resaved);
    }
  }

  // ---- deletion ----

  lemma EditedKept(net: Codec, s: State, action: string, entries: seq<Entry>)
    requires net.Lawful() && Planned(s.proxies, action, entries).0.Some?
    ensures H.After(net, s, H.Acted(action, entries)) == H.Stored(s.(proxies := Planned(s.proxies, action, entries).0.value))
    ensures CanonicalSet(net, s.proxies) ==> CanonicalSet(net, Planned(s.proxies, action, entries).0.value)
  {
    H.ChangeKeeps(net, s, H.Acted(action, entries));
  }

  // With canonical texts only addresses of no remaining proxy are unbound.
  lemma ReleaseEffect(env: Env, w: World, was: seq<Proxy>, kept: seq<Proxy>)
    requires KernelTexts(env.net, w.bound)
    ensures var w' := Release(env, w, was, TextsOf(kept), 0);
            && w' == w.(bound := w'.bound, clock := w'.clock) && KernelTexts(env.net, w'.bound) && w'.bound <= w.bound
            && (CanonicalSet(env.net, was) && CanonicalSet(env.net, kept) ==> w.bound * CanonTexts(env.net, kept) <= w'.bound)
  {
    ReleaseExact(env, w, was, TextsOf(kept), 0);
    assert was[0..] == was;
    if CanonicalSet(env.net, was) && CanonicalSet(env.net, kept) {
      forall t | t in w.bound * CanonTexts(env.net, kept)
        ensures t !in Released(env.net, was, TextsOf(kept), 0)
      {
        var q :| q in kept && q.enabled && env.net.Canon(q.ipv6) == t;
        assert q.ipv6 in TextsOf(kept);
      }
    }
  }

  lemma ReleaseKeeps(env: Env, w: World, was: seq<Proxy>, kept: seq<Proxy>)
    requires Durable(env, w) && StoredState(w).proxies == kept
    ensures var w' := Release(env, w, was, TextsOf(kept), 0);
            && Durable(env, w') && w'.files == w.files && w'.config == w.config && w'.full == w.full && w'.engine == w.engine
            && (Safe(env, w) && CanonicalSet(env.net, was) && CanonicalSet(env.net, kept) ==> Safe(env, w'))
            && (CoherentWorld(env, w) ==> CoherentWorld(env, w'))
  {
    hide CanonTexts, KernelTexts, CanonicalSet;
    ReleaseEffect(env, w, was, kept);
  }

  lemma ActSteps(env: Env, w: World, action: string, text: string) returns (cs: seq<H.Change>)
    requires env.net.Lawful() && Durable(env, w)
    ensures var (w', r) := Act(env, w, action, text);
            Step(env, w, w', r, cs) && Commits(env.net, DoAct(action, text), r, cs)
  {
    cs := [];
    RunOne(env.net, StoredState(w), H.Resaved);
    var parsed := ParseList(env.net, text);
    if parsed.Ok? && KnownAction(action) {
      cs := ActOnSteps(env, w, action, parsed.value);
    }
  }

  lemma ActOnSteps(env: Env, w: World, action: string, entries: seq<Entry>) returns (cs: seq<H.Change>)
    requires env.net.Lawful() && Durable(env, w)
    ensures var (w', r) := ActOn(env, w, action, entries);
            && Step(env, w, w', r, cs)
            && match r
               case Done(outcome) => Load(w'.files).Ok? && cs == Committed(w', StoredState(w), H.Acted(action, entries), outcome)
               case _ => cs == []
  {
    cs := [];
    LoadGives(env, w);
    var (w1, loaded) := LoadState(env, w);
    RunOne(env.net, StoredState(w), H.Resaved);
    if loaded.Ok? && Planned(loaded.value.proxies, action, entries).0.Some? {
      var s := loaded.value;
      var candidate := s.(proxies := Planned(s.proxies, action, entries).0.value);
      EditedKept(env.net, s, action, entries);
      cs := TransactionSteps(env, w1, w, s, candidate, H.Acted(action, entries));
      var (w2, outcome) := ApplyCandidate(env, w1, s, candidate);
      TransactionKeeps(env, w1, s, candidate);
      if outcome == Applied {
        ReleaseKeeps(env, w2, s.proxies, candidate.proxies);
      }
    }
  }

  // ---- checks and boots ----

  lemma SameEnabled(net: Codec, ps: seq<Proxy>, qs: seq<Proxy>)
    requires SameBut(ps, qs)
    ensures CanonTexts(net, qs) <= CanonTexts(net, ps)
  {
    forall t | t in CanonTexts(net, qs)
      ensures t in CanonTexts(net, ps)
    {
      var i :| 0 <= i < |qs| && qs[i].enabled && net.Canon(qs[i].ipv6) == t;
      assert ps[i] in ps && Id(qs[i]) == Id(ps[i]);
    }
  }

  // An update that changes only statuses, one way or the other.
  lemma UpdateSteps(env: Env, w: World, edit: seq<Proxy> -> seq<Proxy>, c: H.Change) returns (cs: seq<H.Change>)
    requires env.net.Lawful() && Durable(env, w)
    requires var s := StoredState(w);
             SameBut(s.proxies, edit(s.proxies)) && H.After(env.net, s, c) == H.Stored(s.(proxies := edit(s.proxies)))
    ensures var (w', updated) := UpdateProxies(env, w, edit);
            && Step(env, w, w', NotSaved, cs)
            && w' == w.(files := w'.files, clock := w'.clock)
            && (updated.Some? ==> updated.value.proxies == StoredState(w').proxies)
            && cs == if updated.Some? then [c] else []
  {
    cs := [];
    LoadGives(env, w);
    RunOne(env.net, StoredState(w), c);
    var (w1, loaded) := LoadState(env, w);
    if loaded.Ok? {
      var s' := loaded.value.(proxies := edit(loaded.value.proxies));
      SaveEffect(env, w1, s');
      SameEnabled(env.net, loaded.value.proxies, s'.proxies);
      if SaveState(env, w1, s').1 {
        cs := [c];
      }
    }
  }

  lemma {:induction false} RunAppend(net: Codec, s: State, a: seq<H.Change>, b: seq<H.Change>)
    requires net.Lawful()
    ensures H.Run(net, s, a + b) == H.Run(net, H.Run(net, s, a), b)
  {
    if b == [] {
      assert a + b == a;
    } else {
      assert (a + b)[..|a + b| - 1] == a + b[..|b| - 1];
      RunAppend(net, s, a, b[..|b| - 1]);
    }
  }

  lemma ListsStep(env: Env, w: World)
    requires env.net.Lawful() && Durable(env, w)
    ensures var (w', ok) := PutLists(env, w, StoredState(w).proxies); Step(env, w, w', Listed(ok), [])
  {
    PutListsEffect(env, w, StoredState(w).proxies);
  }

  lemma StepTwice(env: Env, w: World, w1: World, w2: World, r1: Report, r2: Report, a: seq<H.Change>, b: seq<H.Change>)
    requires env.net.Lawful() && Load(w.files).Ok? && Load(w1.files).Ok?
    requires Step(env, w, w1, r1, a) && Step(env, w1, w2, r2, b) && Recovered(r1) && FullyRecovered(r1)
    requires !r1.Done? && !r2.Done?
    ensures Step(env, w, w2, r2, a + b)
  {
    RunAppend(env.net, StoredState(w), a, b);
  }

  // The second half of a check: the merge and, when it was stored, the lists.
  lemma MergeSteps(env: Env, w: World, checks: map<int, Verdict>, now: nat -> nat) returns (cs: seq<H.Change>)
    requires env.net.Lawful() && Durable(env, w)
    ensures var (w', r) := FileResults(env, w, checks, now);
            Step(env, w, w', r, cs) && Commits(env.net, DoResults(checks, now), r, cs)
  {
    hide UpdateProxies, PutLists, Coherent, Merge, H.Run;
    ChecksKeepIdentity(StoredState(w).proxies, checks, now);
    cs := UpdateSteps(env, w, ps => Merge(ps, checks, now), H.CheckMerged(checks, now));
    var (w1, merged) := UpdateProxies(env, w, ps => Merge(ps, checks, now));
    if merged.Some? {
      ListsStep(env, w1);
      var (w2, ok) := PutLists(env, w1, merged.value.proxies);
      StepTwice(env, w, w1, w2, NotSaved, Listed(ok), cs, []);
      assert cs + [] == cs;
    }
  }

  lemma MarkSteps(env: Env, w: World) returns (cs: seq<H.Change>)
    requires env.net.Lawful() && Durable(env, w)
    ensures var (w', r) := StartMarks(env, w); Step(env, w, w', r, cs) && Commits(env.net, DoMark, r, cs)
  {
    hide UpdateProxies, Coherent, H.Run, CanonTexts, KernelTexts;
    ChecksKeepIdentity(StoredState(w).proxies, map[], (i: nat) => 0);
    cs := UpdateSteps(env, w, ps => Mark(ps), H.CheckStarted);
    var (w1, marked) := UpdateProxies(env, w, ps => Mark(ps));
    assert StartMarks(env, w) == (w1, if marked.None? then NotSaved else Marked);
  }

  lemma RotateSteps(env: Env, w: World, token: string) returns (cs: seq<H.Change>)
    requires env.net.Lawful() && Durable(env, w)
    ensures var (w', r) := Rotate(env, w, token); Step(env, w, w', r, cs) && Commits(env.net, DoRotate(token), r, cs)
  {
    cs := [];
    LoadGives(env, w);
    RunOne(env.net, StoredState(w), H.TokenRotated(token));
    var (w1, loaded) := LoadState(env, w);
    if loaded.Ok? {
      var s' := loaded.value.(token := token);
      SaveEffect(env, w1, s');
      if SaveState(env, w1, s').1 {
        cs := [H.TokenRotated(token)];
      }
    }
  }

  lemma RebootSteps(env: Env, w: World)
    requires env.net.Lawful() && Durable(env, w)
    ensures var (w', r) := Reboot(env, w);
            && Step(env, w, w', r, [])
            && (r == Booted(true) ==> Safe(env, w') && CoherentWorld(env, w'))
  {
    RestartEffect(env, w.(bound := {}, engine := None), StoredState(w));
    RunOne(env.net, StoredState(w), H.Resaved);
  }

  // ---- runs ----

  lemma EventSteps(env: Env, w: World, e: Event) returns (cs: seq<H.Change>)
    requires env.net.Lawful() && Durable(env, w)
    ensures var (w', r) := Happens(env, w, e);
            Step(env, w, w', r, cs) && Commits(env.net, e, r, cs)
  {
    match e {
      case DoCreate(opts, entropy) => cs := CreateSteps(env, w, opts, entropy);
      case DoAct(action, text) => cs := ActSteps(env, w, action, text);
      case DoRepair => cs := RepairSteps(env, w);
      case DoMark => cs := MarkSteps(env, w);
      case DoResults(checks, now) => cs := MergeSteps(env, w, checks, now);
      case DoRotate(token) => cs := RotateSteps(env, w, token);
      case DoReboot => RebootSteps(env, w); cs := [];
    }
  }

  // The changes of a run, event by event, in one row.
  function Flat(css: seq<seq<H.Change>>): seq<H.Change> {
    if css == [] then [] else Flat(css[..|css| - 1]) + css[|css| - 1]
  }

  // Each event of the run has committed what its report says.
  ghost predicate AllCommit(env: Env, w: World, events: seq<Event>, css: seq<seq<H.Change>>)
    requires env.net.Lawful()
  {
    |css| == |events| && forall k: nat :: k < |events| ==> Commits(env.net, events[k], ReportAt(env, w, events, k), css[k])
  }

  lemma ReportsOfPrefix(env: Env, w: World, events: seq<Event>, n: nat)
    requires env.net.Lawful() && n <= |events|
    ensures forall k: nat :: k < n ==> ReportAt(env, w, events[..n], k) == ReportAt(env, w, events, k)
  {
    forall k: nat | k < n
      ensures ReportAt(env, w, events[..n], k) == ReportAt(env, w, events, k)
    {
      assert events[..n][..k] == events[..k];
    }
  }

  ghost predicate AllRecovered(env: Env, w: World, events: seq<Event>)
    requires env.net.Lawful()
  {
    forall k: nat :: k < |events| ==> Recovered(ReportAt(env, w, events, k))
  }

  ghost predicate AllFullyRecovered(env: Env, w: World, events: seq<Event>)
    requires env.net.Lawful()
  {
    forall k: nat :: k < |events| ==> FullyRecovered(ReportAt(env, w, events, k))
  }

  lemma RecoveredSoFar(env: Env, w: World, events: seq<Event>)
    requires env.net.Lawful() && events != []
    ensures var n := |events| - 1;
            var last := Happens(env, Runs(env, w, events[..n]), events[n]).1;
            && last == ReportAt(env, w, events, n)
            && (AllRecovered(env, w, events) ==> AllRecovered(env, w, events[..n]) && Recovered(last))
            && (AllFullyRecovered(env, w, events) ==> AllFullyRecovered(env, w, events[..n]) && FullyRecovered(last))
  {
    hide Happens, Recovered, FullyRecovered, Runs;
    ReportsOfPrefix(env, w, events, |events| - 1);
  }

  // Every run of creations, list actions, repairs, token rotations, reboots and the sections of health checks, in any
  // order, under every fault schedule and from any decodable state: the stored state is the one that results from the
  // changes of the events that succeeded, a re-save here and there, and nothing else, so everything History and Lifetime
  // prove holds of it; if every rollback could store its original and write back its files, configuration and full list
  // are those of the stored state; if every rollback could store its original, every boot succeeded and the first texts
  // were canonical, every enabled address is bound.
  lemma {:induction false} EveryRun(env: Env, w: World, events: seq<Event>) returns (css: seq<seq<H.Change>>)
    requires env.net.Lawful() && Durable(env, w)
    ensures AllCommit(env, w, events, css)
    ensures var w' := Runs(env, w, events);
            && Durable(env, w') && StoredState(w') == H.Run(env.net, StoredState(w), Flat(css))
            && (Safe(env, w) && CanonicalSet(env.net, StoredState(w).proxies) && AllRecovered(env, w, events)
                ==> Safe(env, w'))
            && (StatusBlind(env) && CoherentWorld(env, w) && AllFullyRecovered(env, w, events) ==> CoherentWorld(env, w'))
  {
    hide Coherent, CanonTexts, KernelTexts, CanonicalSet, DistinctTexts, UniquePorts, H.BelowCursor, H.StatusesFit;
    hide H.Run, Happens, Decodable, StatusBlind, Commits, Recovered, FullyRecovered, Safe, CoherentWorld;
    hide AllRecovered, AllFullyRecovered;
    css := [];
    RunOne(env.net, StoredState(w), H.Resaved);
    if events != [] {
      var n := |events| - 1;
      var before := events[..n];
      var earlier := EveryRun(env, w, before);
      var cs := EventSteps(env, Runs(env, w, before), events[n]);
      H.EveryRunKeeps(env.net, StoredState(w), Flat(earlier));
      ReportsOfPrefix(env, w, events, n);
      RecoveredSoFar(env, w, events);
      RunAppend(env.net, StoredState(w), Flat(earlier), cs);
      css := earlier + [cs];
      assert css[..n] == earlier;
    }
  }

  // Over every run a port that one stored proxy has stays with it: nothing that happens gives it to another one.
  lemma PortsStayOverRuns(env: Env, w: World, events: seq<Event>, p: Proxy, q: Proxy)
    requires env.net.Lawful() && Durable(env, w) && Load(Runs(env, w, events).files).Ok?
    requires H.PortsKept(StoredState(w)) || H.OwnsPort(Id(p), StoredState(w))
    requires p in StoredState(w).proxies && q in StoredState(Runs(env, w, events)).proxies && q.port == p.port
    ensures Id(q) == Id(p)
  {
    var css := EveryRun(env, w, events);
    H.PortNeverReused(env.net, StoredState(w), Flat(css), p, q);
  }

  lemma {:induction false} FromSomeEvent(css: seq<seq<H.Change>>, c: H.Change) returns (k: nat)
    requires c in Flat(css)
    ensures k < |css| && c in css[k]
  {
    var n := |css| - 1;
    if c in css[n] {
      k := n;
    } else {
      k := FromSomeEvent(css[..n], c);
    }
  }

  // Over every run, whatever fails, a stored proxy is live or failed only because it was so from the start or because the
  // results of a check, stored by some event of the run, say so of its port.
  lemma LiveOnlyByResults(env: Env, w: World, events: seq<Event>, q: Proxy)
    requires env.net.Lawful() && Durable(env, w) && Load(Runs(env, w, events).files).Ok?
    requires q in StoredState(Runs(env, w, events)).proxies && q.enabled && q.status in {Live, Failed}
    ensures H.HadStatus(StoredState(w).proxies, q)
            || exists k: nat :: k < |events| && events[k].DoResults? && ReportAt(env, w, events, k).Listed?
                                && H.FromCheck(H.CheckMerged(events[k].checks, events[k].now), q)
  {
    hide Runs, H.Run, Happens, H.HadStatus, Commits;
    var css := EveryRun(env, w, events);
    H.LiveOnlyByCheck(env.net, StoredState(w), Flat(css), q);
    if !H.HadStatus(StoredState(w).proxies, q) {
      var c :| c in Flat(css) && H.FromCheck(c, q);
      var k := FromSomeEvent(css, c);
      MergedByResults(env, Runs(env, w, events[..k]), events[k], css[k], c);
    }
  }

  lemma MergedByResults(env: Env, w: World, e: Event, cs: seq<H.Change>, c: H.Change)
    requires env.net.Lawful() && Commits(env.net, e, Happens(env, w, e).1, cs) && c in cs && c.CheckMerged?
    ensures e.DoResults? && Happens(env, w, e).1.Listed? && c == H.CheckMerged(e.checks, e.now)
  {
    hide Create, Act, Repair, StartMarks, Rotate, Reboot, UpdateProxies, PutLists, ParseList;
  }

  // Over every run an address behind the cursor that one stored proxy has stays with it.
  lemma AddressesStayOverRuns(env: Env, w: World, events: seq<Event>, p: Proxy, q: Proxy)
    requires env.net.Lawful() && Durable(env, w) && Load(Runs(env, w, events).files).Ok?
    requires RoutedPrefix(env.net, StoredState(w)) && L.FarFromWrap(StoredState(w))
    requires L.OwnsAddress(env.net, p, StoredState(w))
    requires p in StoredState(w).proxies && q in StoredState(Runs(env, w, events)).proxies
    requires env.net.Canon(q.ipv6) == env.net.Canon(p.ipv6)
    ensures Id(q) == Id(p)
  {
    var css := EveryRun(env, w, events);
    LoadedCursor(w);
    L.AddressNeverReused(env.net, StoredState(w), Flat(css), p, q);
  }

  lemma LoadedCursor(w: World)
    requires Load(w.files).Ok?
    ensures StoredState(w).nextOffset > 0
  {
  }

  // Over every run, failed and undone operations included, no more proxies are created than there were ports left, and
  // no more are stored at the end than at the start and created since.
  lemma SuppliesLastOverRuns(env: Env, w: World, events: seq<Event>) returns (css: seq<seq<H.Change>>)
    requires env.net.Lawful() && Durable(env, w)
    ensures AllCommit(env, w, events, css) && Load(Runs(env, w, events).files).Ok?
    ensures var s, s' := StoredState(w), StoredState(Runs(env, w, events));
            var n := L.AllMade(env.net, s, Flat(css));
            && n <= L.PortsLeft(s) && s.nextPort + n <= s'.nextPort && |s'.proxies| <= |s.proxies| + n
  {
    css := EveryRun(env, w, events);
    L.PortsLast(env.net, StoredState(w), Flat(css));
  }

  predicate IsDeletion(e: Event) {
    e.DoAct? && e.action == "delete"
  }

  // Any operation whose transaction succeeds leaves a good world, whatever the world was like before: the files those
  // of the stored state, the engine serving exactly its enabled proxies, and the enabled addresses bound; the last, for
  // a deletion, if texts are canonical (Undoing.SurvivorKeepsAddress says what it does to others).
  lemma SuccessHeals(env: Env, w: World, e: Event)
    requires env.net.Lawful() && Durable(env, w) && Happens(env, w, e).1 == Done(Applied)
    ensures var w' := Happens(env, w, e).0;
            && Durable(env, w') && CoherentWorld(env, w') && w'.engine == Some(Enabled(StoredState(w').proxies))
            && ((IsDeletion(e) ==> CanonicalSet(env.net, StoredState(w).proxies)) ==> Safe(env, w'))
  {
    hide ApplyCandidate, Planned, Allocated, ParseList, Release, Coherent, CanonTexts, KernelTexts, CanonicalSet;
    LoadGives(env, w);
    var (w1, loaded) := LoadState(env, w);
    var s := loaded.value;
    match e {
      case DoCreate(opts, entropy) =>
        TransactionKeeps(env, w1, s, Allocated(env.net, s, opts, entropy).value.0);
      case DoAct(action, text) =>
        var entries := ParseList(env.net, text).value;
        EditedKept(env.net, s, action, entries);
        var candidate := s.(proxies := Planned(s.proxies, action, entries).0.value);
        TransactionKeeps(env, w1, s, candidate);
        ReleaseKeeps(env, ApplyCandidate(env, w1, s, candidate).0, s.proxies, candidate.proxies);
      case DoRepair => TransactionKeeps(env, w1, s, s);
      case _ =>
    }
  }

  // Where runs begin. A successful bootstrap over a state without proxies leaves a state from which every run goes on,
  // with fitting statuses and a cursor above every port; each of the other parts of what runs keep holds exactly when
  // the old files have it. A successful boot then makes the world a good one.
  lemma BootstrapStarts(env: Env, w: World, found: Option<Detected>, routed: bool, list: I.FileRead,
      configs: seq<Option<string>>)
    requires env.net.Lawful() && Durable(env, w) && StoredState(w).proxies == []
    requires Bootstrap(env, w, found, routed, list, configs).1.Bootstrapped?
    ensures var w' := Bootstrap(env, w, found, routed, list, configs).0;
            && Durable(env, w') && H.BelowCursor(StoredState(w')) && H.StatusesFit(StoredState(w').proxies)
            && (UniquePorts(StoredState(w').proxies) <==> I.OldPortsDistinct(env.net, list, configs))
            && (DistinctTexts(StoredState(w').proxies) <==> I.OldTextsDistinct(env.net, list, configs))
            && (CanonicalSet(env.net, StoredState(w').proxies) <==> I.OldTextsCanonical(env.net, list, configs))
            && (H.Kept(env.net, StoredState(w')) <==> I.CleanFiles(env.net, list, configs))
            && var (booted, r) := Reboot(env, w');
               r == Booted(true) ==> Durable(env, booted) && Safe(env, booted) && CoherentWorld(env, booted)
  {
    hide ProbePrefix, I.Imports, I.OldPortsDistinct, I.OldTextsDistinct, I.OldTextsCanonical, Reboot, H.Run, H.StatusesFit;
    hide CanonicalSet, DistinctTexts, UniquePorts, KernelTexts;
    LoadGives(env, w);
    var (w1, loaded) := LoadState(env, w);
    var s := Placed(loaded.value, found);
    I.BootstrapKept(env.net, s, list, configs);
    var s' := I.Imports(env.net, s, list, configs).value;
    if Undetected(loaded.value) && found.Some? {
      ProbeEffect(env, w1, s.prefix, routed);
    }
    var w2 := Located(env, w1, loaded.value, found, routed).0;
    SaveEffect(env, w2, s');
    var w' := Bootstrap(env, w, found, routed, list, configs).0;
    PutListsEffect(env, SaveState(env, w2, s').0, s'.proxies);
    RebootSteps(env, w');
  }
}
