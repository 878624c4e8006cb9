// What the operations of internal/app/service.go answer, and what they have done when nothing fails, field by field.
module Answers {
  import opened Model
  import opened Netip
  import opened Config
  import opened Store
  import opened Lists
  import opened Health
  import opened Allocate
  import opened AllocateLaws
  import opened Apply
  import opened ApplyLaws
  import opened Operations
  import opened Printers
  import opened Faultless
  import opened Startup
  import opened Undoing
  import H = History

  // What the operation that starts in this world reads as the stored state.
  function Read(env: Env, w: World): Result<State, LoadError> {
    LoadFrom(w.files, !env.fails(w.clock, ReadState), !env.fails(w.clock, ReadBackup))
  }

  // ---- creating ----

  // A creation that cannot load or allocate changes nothing and says so; any other is the transaction from the stored state
  // to the allocated one.
  lemma CreateAnswers(env: Env, w: World, opts: Options, entropy: Entropy)
    requires env.net.Lawful()
    ensures var (w', r) := Create(env, w, opts, entropy);
            match Read(env, w)
            case Err(_) => r == NotLoaded && w' == Tick(w)
            case Ok(s) =>
              match Allocated(env.net, s, opts, entropy)
              case Err(e) => r == NotAllocated(e) && w' == Tick(w)
              case Ok((candidate, _)) => Transacts(env, w, s, candidate, w', r)
  {
    hide ApplyCandidate, Allocated;
  }

  // The event is the transaction between these two states and nothing else.
  ghost predicate Transacts(env: Env, w: World, original: State, candidate: State, w': World, r: Report)
    requires env.net.Lawful()
  {
    var (end, outcome) := ApplyCandidate(env, Tick(w), original, candidate);
    r == Done(outcome) && w' == end
  }

  lemma RepairAnswers(env: Env, w: World)
    requires env.net.Lawful()
    ensures var (w', r) := Repair(env, w);
            match Read(env, w)
            case Err(_) => r == NotLoaded && w' == Tick(w)
            case Ok(s) => Transacts(env, w, s, s, w', r)
  {
    hide ApplyCandidate;
  }

  // ---- list actions ----

  // What each of the three actions makes of the stored proxies.
  ghost predicate EditedBy(ps: seq<Proxy>, action: string, entries: seq<Entry>, qs: seq<Proxy>) {
    if action == "delete" then
      exists at ::
        && Picks(ps, at, qs) && (forall j, k :: 0 <= j < k < |at| ==> at[j] < at[k])
        && (forall i :: i in at <==> 0 <= i < |ps| && !Meant(ps, entries, i))
    else
      && |qs| == |ps|
      && forall i :: 0 <= i < |ps| ==>
           qs[i] == if !Meant(ps, entries, i) then ps[i]
                    else if action == "enable" then ps[i].(enabled := true, status := Pending, lastError := "")
                    else ps[i].(enabled := false, status := Disabled, lastError := "")
  }

  lemma PlannedEdit(ps: seq<Proxy>, action: string, entries: seq<Entry>)
    requires action == "disable" || action == "enable" || action == "delete"
    ensures var kept := Planned(ps, action, entries).0;
            && (kept == None <==> forall i :: !Meant(ps, entries, i))
            && (kept.Some? ==> EditedBy(ps, action, entries, kept.value))
  {
    hide Planned, Meant, Picks;
    assert "enable"[0] != "disable"[0] && "delete"[1] != "disable"[1];
    if action == "disable" {
      DisablesExactly(ps, entries);
    } else if action == "enable" {
      EnablesExactly(ps, entries);
    } else {
      var at := DeletesExactly(ps, entries);
    }
  }

  // After its transaction an applied deletion only unbinds addresses: of proxies whose text no remaining proxy has.
  ghost predicate Releases(env: Env, w: World, s: State, qs: seq<Proxy>, w': World)
    requires env.net.Lawful()
  {
    var (end, outcome) := ApplyCandidate(env, Tick(w), s, s.(proxies := qs));
    var gone := Released(env.net, s.proxies, TextsOf(qs), 0);
    && outcome == Applied
    && (KernelTexts(env.net, end.bound) ==>
          && w' == end.(bound := w'.bound, clock := w'.clock) && end.bound - gone <= w'.bound <= end.bound
          && (RemovalsWorkFrom(env, end.clock) ==> w'.bound == end.bound - gone))
  }

  // An action is answered by the first of these that applies: the list is refused, the action is not one of the three, the
  // state cannot be loaded, no entry means a stored proxy, or the outcome of the transaction to the edited proxies. All but
  // the last change nothing.
  lemma ActAnswers(env: Env, w: World, action: string, text: string) returns (qs: seq<Proxy>)
    requires env.net.Lawful()
    ensures var (w', r) := Act(env, w, action, text);
            match ParseList(env.net, text)
            case Err(flaw) => r == BadList(flaw) && w' == w
            case Ok(entries) =>
              if action != "disable" && action != "enable" && action != "delete" then r == BadAction && w' == w
              else match Read(env, w)
                case Err(_) => r == NotLoaded && w' == Tick(w)
                case Ok(s) =>
                  if forall i :: !Meant(s.proxies, entries, i) then r == NotMatched && w' == Tick(w)
                  else
                    && EditedBy(s.proxies, action, entries, qs)
                    && if action == "delete" && r == Done(Applied) then Releases(env, w, s, qs, w')
                       else Transacts(env, w, s, s.(proxies := qs), w', r)
  {
    hide ApplyCandidate, ParseList, Release, Planned, Meant, EditedBy, KernelTexts, Released, RemovalsWorkFrom, LoadFrom;
    qs := [];
    if ParseList(env.net, text).Ok? && KnownAction(action) && Read(env, w).Ok? {
      var entries, s := ParseList(env.net, text).value, Read(env, w).value;
      PlannedEdit(s.proxies, action, entries);
      var kept := Planned(s.proxies, action, entries).0;
      if kept.Some? {
        qs := kept.value;
        var end := ApplyCandidate(env, Tick(w), s, s.(proxies := qs)).0;
        if KernelTexts(env.net, end.bound) {
          ReleaseExact(env, end, s.proxies, TextsOf(qs), 0);
        }
      }
    }
  }

  // ---- checking ----

  // An update of the stored proxies, under any schedule: it gives up without a trace when the state cannot be loaded, and
  // otherwise stores the edited state exactly when both renames of its save work.
  lemma UpdateExactly(env: Env, w: World, edit: seq<Proxy> -> seq<Proxy>)
    ensures var (w', updated) := UpdateProxies(env, w, edit);
            match Read(env, w)
            case Err(_) => updated == None && w' == Tick(w)
            case Ok(s) =>
              var s' := s.(proxies := edit(s.proxies));
              && w' == w.(files := w'.files, clock := w.clock + 2)
              && if env.fails(w.clock + 1, WriteBackup) || env.fails(w.clock + 1, WriteState)
                 then updated == None && w'.files.main == w.files.main
                 else updated == Some(s') && w'.files.main == Some(Encoded(s'.(version := 1)))
  {
  }

  lemma UpdateWorks(env: Env, w: World, s: State, edit: seq<Proxy> -> seq<Proxy>)
    requires NoFaults(env) && Load(w.files) == Ok(s)
    ensures var (w', updated) := UpdateProxies(env, w, edit);
            && updated == Some(s.(proxies := edit(s.proxies)))
            && w' == w.(files := w'.files, clock := w'.clock) && Load(w'.files) == Ok(s.(version := 1, proxies := edit(s.proxies)))
  {
    assert !env.fails(w.clock, ReadState) && !env.fails(w.clock, ReadBackup);
    assert !env.fails(w.clock + 1, WriteBackup) && !env.fails(w.clock + 1, WriteState);
  }

  // Proxy i after its check: live without an error, or failed with it, at the time of the merge; disabled if it is off.
  ghost predicate Checked(ps: seq<Proxy>, probe: Probe, i: nat, now: nat, q: Proxy)
    requires i < |ps|
  {
    if !ps[i].enabled then q == ps[i].(status := Disabled)
    else exists v :: H.CountingResult(ps, probe, i, v) && H.Shows(ps[i], v, now, q)
  }

  lemma MarkedCounts(ps: seq<Proxy>, probe: Probe, i: nat, v: Verdict)
    requires i < |ps| && H.CountingResult(Mark(ps), probe, i, v)
    ensures H.CountingResult(ps, probe, i, v)
  {
    assert (set j: nat | j < |ps| && ps[j].enabled && probe(j, 0).Some?)
        == set j: nat | j < |Mark(ps)| && Mark(ps)[j].enabled && probe(j, 0).Some?;
  }

  lemma MergedMarks(ps: seq<Proxy>, probe: Probe, checks: map<int, Verdict>, now: nat -> nat, i: nat)
    requires i < |ps| && ChecksOf(Mark(ps), probe, checks)
    ensures Checked(ps, probe, i, now(i), Merge(Mark(ps), checks, now)[i])
  {
    var ms := Mark(ps);
    if ps[i].enabled {
      assert ms[i].enabled;
      var v := FinalVerdict(ms, probe, i);
      H.FinalCounts(ms, probe, i);
      MarkedCounts(ps, probe, i, v);
      assert H.Shows(ps[i], v, now(i), Merge(ms, checks, now)[i]);
    }
  }

  // A check that nothing interrupts and in which nothing fails: in the end every enabled proxy is stored with its own
  // result, nothing else has changed, and both lists are printed from that.
  lemma ChecksStored(env: Env, w: World, s: State, probe: Probe, order: seq<nat>, now: nat -> nat)
    requires NoFaults(env) && Load(w.files) == Ok(s) && UniquePorts(s.proxies)
    requires Delivery(Mark(s.proxies), order) && Health.Within(Mark(s.proxies), order)
    ensures var (w', r) := Check(env, w, Checks(Mark(s.proxies), probe, order), false, now);
            && r == Listed(true) && Load(w'.files).Ok?
            && var qs := Load(w'.files).value.proxies;
               && |qs| == |s.proxies| && (forall i: nat :: i < |qs| ==> Checked(s.proxies, probe, i, now(i), qs[i]))
               && Load(w'.files).value == s.(version := 1, proxies := qs)
               && w' == w.(files := w'.files, full := w'.full, live := w'.live, clock := w'.clock)
               && w'.full == Some(env.list(qs, false)) && w'.live == Some(env.list(qs, true))
  {
    hide UpdateProxies, Mark, Merge, Checks, PutLists, ChecksOf, Checked, UniquePorts;
    var checks := Checks(Mark(s.proxies), probe, order);
    UpdateWorks(env, w, s, ps => Mark(ps));
    var w1 := UpdateProxies(env, w, ps => Mark(ps)).0;
    assert StartMarks(env, w) == (w1, Marked);
    var s1 := s.(version := 1, proxies := Mark(s.proxies));
    UpdateWorks(env, w1, s1, ps => Merge(ps, checks, now));
    var w2 := UpdateProxies(env, w1, ps => Merge(ps, checks, now)).0;
    var qs := Merge(Mark(s.proxies), checks, now);
    ListsPrinted(env, w2, qs);
    MarkKeepsPorts(s.proxies);
    ChecksExact(Mark(s.proxies), probe, order);
    MarkLength(s.proxies);
    forall i: nat | i < |qs|
      ensures Checked(s.proxies, probe, i, now(i), qs[i])
    {
      MergedMarks(s.proxies, probe, checks, now, i);
    }
  }

  lemma MarkLength(ps: seq<Proxy>)
    ensures |Mark(ps)| == |ps|
  {
  }

  lemma MarkKeepsPorts(ps: seq<Proxy>)
    requires UniquePorts(ps)
    ensures UniquePorts(Mark(ps))
  {
    assert forall i :: 0 <= i < |ps| ==> Mark(ps)[i].port == ps[i].port;
  }

  lemma ListsPrinted(env: Env, w: World, ps: seq<Proxy>)
    requires NoFaults(env)
    ensures var (w', ok) := PutLists(env, w, ps);
            && ok && w' == w.(full := w'.full, live := w'.live, clock := w'.clock)
            && w'.full == Some(env.list(ps, false)) && w'.live == Some(env.list(ps, true))
  {
    assert !env.fails(w.clock, WriteFull) && !env.fails(w.clock + 1, WriteLive);
  }

  // ---- the token ----

  lemma RotationStored(env: Env, w: World, s: State, token: string)
    requires NoFaults(env) && Load(w.files) == Ok(s)
    ensures var (w', r) := Rotate(env, w, token);
            && r == Rotated && w' == w.(files := w'.files, clock := w'.clock)
            && Load(w'.files) == Ok(s.(version := 1, token := token))
  {
    LoadsFine(env, w, s);
    assert !env.fails(w.clock + 1, WriteBackup) && !env.fails(w.clock + 1, WriteState);
  }

  // ---- transactions in full ----

  // When nothing fails, or one probe at most finds the engine unstable, a transaction to an acceptable candidate leaves it
  // stored, printed, bound and served, whatever was there before.
  lemma AppliedInFull(env: Env, w: World, original: State, candidate: State)
    requires Faithful(env) && Tolerable(env) && Acceptable(env.net, candidate)
    requires Decodable(w.files) && Load(w.files) == Ok(original) && KernelTexts(env.net, w.bound)
    ensures var (w', outcome) := ApplyCandidate(env, w, original, candidate);
            && outcome == Applied
            && Load(w'.files) == Ok(H.Stored(candidate))
            && w'.bound == w.bound + CanonTexts(env.net, candidate.proxies)
            && w'.config.Some? && w'.config == env.render(candidate.proxies)
            && w'.full == Some(env.list(candidate.proxies, false)) && w'.live == Some(env.list(candidate.proxies, true))
            && w'.engine == Some(Enabled(candidate.proxies))
  {
    hide ApplyCandidate, Acceptable, Faithful, Tolerable, KernelTexts, CanonTexts;
    FaithfulIsLawful(env);
    AppliedExactly(env, w, original, candidate);
    ApplyEffect(env, w, original, candidate);
  }
}
