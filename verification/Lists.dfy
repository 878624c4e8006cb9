// The list actions of internal/app/service.go: disable, enable or delete the proxies named by a pasted list,
// and the filtered views of the dashboard.
module Lists {
  import opened Model
  import opened Text
  import opened Netip
  import opened Config
  import opened Order

  predicate Names(e: Entry, p: Proxy) {
    p.host == e.host && p.port == e.port && p.username == e.username && p.password == e.password
  }

  // Index of the first proxy from i on that an entry names, or -1.
  function FirstMatch(ps: seq<Proxy>, e: Entry, i: nat): (r: int)
    requires i <= |ps|
    ensures r == -1 || i <= r < |ps|
    ensures r == -1 <==> forall k :: i <= k < |ps| ==> !Names(e, ps[k])
    ensures r >= 0 ==> Names(e, ps[r]) && forall k :: i <= k < r ==> !Names(e, ps[k])
    decreases |ps| - i
  {
    if i == |ps| then -1 else if Names(e, ps[i]) then i else FirstMatch(ps, e, i + 1)
  }

  function EntryText(e: Entry): string {
    e.host + ":" + Itoa(e.port) + ":" + e.username + ":" + e.password
  }

  datatype Matches = Matches(indexes: set<int>, notFound: seq<string>)

  function MatchFrom(ps: seq<Proxy>, entries: seq<Entry>, k: nat, m: Matches): Matches
    requires k <= |entries|
    decreases |entries| - k
  {
    if k == |entries| then m
    else
      var found := FirstMatch(ps, entries[k], 0);
      MatchFrom(ps, entries, k + 1,
                if found < 0 then m.(notFound := m.notFound + [EntryText(entries[k])])
                else m.(indexes := m.indexes + {found}))
  }

  function MatchAll(ps: seq<Proxy>, entries: seq<Entry>): Matches {
    MatchFrom(ps, entries, 0, Matches({}, []))
  }

  function Keep(ps: seq<Proxy>, remove: set<int>, i: nat): seq<Proxy>
    requires i <= |ps|
    decreases |ps| - i
  {
    if i == |ps| then [] else (if i in remove then [] else [ps[i]]) + Keep(ps, remove, i + 1)
  }

  function Switched(p: Proxy, on: bool): Proxy {
    p.(enabled := on, status := if on then Pending else Disabled, lastError := "")
  }

  function Switch(ps: seq<Proxy>, chosen: set<int>, on: bool): (r: seq<Proxy>)
    ensures |r| == |ps|
    ensures forall i :: 0 <= i < |ps| ==> r[i] == if i in chosen then Switched(ps[i], on) else ps[i]
  {
    seq(|ps|, i requires 0 <= i < |ps| => if i in chosen then Switched(ps[i], on) else ps[i])
  }

  predicate KnownAction(action: string) {
    action == "disable" || action == "enable" || action == "delete"
  }

  function Edited(ps: seq<Proxy>, action: string, chosen: set<int>): seq<Proxy> {
    if action == "delete" then Keep(ps, chosen, 0) else Switch(ps, chosen, action == "enable")
  }

  datatype ActionResult = ActionResult(submitted: nat, matched: nat, notFound: seq<string>, action: string)

  // The candidate list, or None when no entry names a proxy; the report either way.
  function Planned(ps: seq<Proxy>, action: string, entries: seq<Entry>): (Option<seq<Proxy>>, ActionResult) {
    var m := MatchAll(ps, entries);
    (if m.indexes == {} then None else Some(Edited(ps, action, m.indexes)),
     ActionResult(|entries|, |m.indexes|, m.notFound, action))
  }

  method Plan(ps: seq<Proxy>, action: string, entries: seq<Entry>) returns (kept: Option<seq<Proxy>>,
      result: ActionResult)
    ensures (kept, result) == Planned(ps, action, entries)
  {
    var matched := 0;
    var indexes: set<int> := {};
    var notFound: seq<string> := [];
    for k := 0 to |entries|
      invariant MatchAll(ps, entries) == MatchFrom(ps, entries, k, Matches(indexes, notFound))
      invariant matched == |indexes| && forall i :: i in indexes ==> 0 <= i < |ps|
    {
      var found := -1;
      for i := 0 to |ps|
        invariant found == -1 && FirstMatch(ps, entries[k], 0) == FirstMatch(ps, entries[k], i)
      {
        if Names(entries[k], ps[i]) {
          found := i;
          break;
        }
      }
      if found < 0 {
        notFound := notFound + [EntryText(entries[k])];
        continue;
      }
      if found !in indexes {
        matched := matched + 1;
      }
      indexes := indexes + {found};
    }
    result := ActionResult(|entries|, matched, notFound, action);
    if matched == 0 {
      return None, result;
    }
    assert indexes != {};
    if action == "delete" {
      var rest := KeepLoop(ps, indexes);
      return Some(rest), result;
    }
    var switched := SwitchLoop(ps, indexes, action == "enable");
    return Some(switched), result;
  }

  method KeepLoop(ps: seq<Proxy>, remove: set<int>) returns (kept: seq<Proxy>)
    ensures kept == Keep(ps, remove, 0)
  {
    kept := [];
    for i := 0 to |ps|
      invariant kept + Keep(ps, remove, i) == Keep(ps, remove, 0)
    {
      if i !in remove {
        kept := kept + [ps[i]];
      }
    }
  }

  // Some member: the order in which Go walks a map is not fixed.
  method AnyOf<T>(s: set<T>) returns (i: T)
    requires s != {}
    ensures i in s
  {
    i :| i in s;
  }

  // The map of matched indexes is walked in any order.
  method SwitchLoop(ps: seq<Proxy>, chosen: set<int>, on: bool) returns (r: seq<Proxy>)
    requires forall i :: i in chosen ==> 0 <= i < |ps|
    ensures r == Switch(ps, chosen, on)
  {
    r := ps;
    var rest := chosen;
    while rest != {}
      invariant rest <= chosen && r == Switch(ps, chosen - rest, on)
      decreases |rest|
    {
      var i := AnyOf(rest);
      r := r[i := Switched(r[i], on)];
      SwitchOne(ps, chosen, rest, i, on);
      rest := rest - {i};
    }
    assert chosen - rest == chosen;
  }

  lemma SwitchOne(ps: seq<Proxy>, chosen: set<int>, rest: set<int>, i: int, on: bool)
    requires rest <= chosen && i in rest && 0 <= i < |ps|
    ensures var r := Switch(ps, chosen - rest, on); r[i := Switched(r[i], on)] == Switch(ps, chosen - (rest - {i}), on)
  {
  }

  // ---- what the report says ----

  function FoundCount(ps: seq<Proxy>, entries: seq<Entry>, k: nat): nat
    requires k <= |entries|
    decreases |entries| - k
  {
    if k == |entries| then 0
    else (if FirstMatch(ps, entries[k], 0) >= 0 then 1 else 0) + FoundCount(ps, entries, k + 1)
  }

  // The proxies that entries from k on find.
  function ChosenBy(ps: seq<Proxy>, entries: seq<Entry>, k: nat): set<int> {
    set j | k <= j < |entries| && FirstMatch(ps, entries[j], 0) >= 0 :: FirstMatch(ps, entries[j], 0)
  }

  lemma ChosenStep(ps: seq<Proxy>, entries: seq<Entry>, k: nat)
    requires k < |entries|
    ensures var found := FirstMatch(ps, entries[k], 0);
            ChosenBy(ps, entries, k) == (if found < 0 then {} else {found}) + ChosenBy(ps, entries, k + 1)
  {
  }

  lemma {:induction false} MatchFromExact(ps: seq<Proxy>, entries: seq<Entry>, k: nat, m: Matches)
    requires k <= |entries|
    ensures var r := MatchFrom(ps, entries, k, m);
            && |r.notFound| + FoundCount(ps, entries, k) == |m.notFound| + |entries| - k
            && r.indexes == m.indexes + ChosenBy(ps, entries, k)
    decreases |entries| - k
  {
    if k < |entries| {
      var found := FirstMatch(ps, entries[k], 0);
      var m' := if found < 0 then m.(notFound := m.notFound + [EntryText(entries[k])])
                else m.(indexes := m.indexes + {found});
      MatchFromExact(ps, entries, k + 1, m');
      ChosenStep(ps, entries, k);
    }
  }

  // Every submitted entry is either found or reported; with distinct ports the chosen proxies are exactly the
  // ones some entry names.
  lemma ReportAddsUp(ps: seq<Proxy>, entries: seq<Entry>)
    ensures var m := MatchAll(ps, entries);
            && |entries| == |m.notFound| + FoundCount(ps, entries, 0)
            && (UniquePorts(ps) ==>
                  forall i :: i in m.indexes <==> 0 <= i < |ps| && exists e :: e in entries && Names(e, ps[i]))
  {
    MatchFromExact(ps, entries, 0, Matches({}, []));
    var m := MatchAll(ps, entries);
    if UniquePorts(ps) {
      forall i
        ensures i in m.indexes <==> 0 <= i < |ps| && exists e :: e in entries && Names(e, ps[i])
      {
        if 0 <= i < |ps| && exists e :: e in entries && Names(e, ps[i]) {
          var e :| e in entries && Names(e, ps[i]);
          var j :| 0 <= j < |entries| && entries[j] == e;
          assert FirstMatch(ps, entries[j], 0) == i;
        }
      }
    }
  }

  // ---- which proxies an action reaches, and what it makes of them ----

  // Proxy i is the first that some entry means: same host, port, user name and password.
  ghost predicate Meant(ps: seq<Proxy>, entries: seq<Entry>, i: int) {
    0 <= i < |ps| && exists e :: e in entries && FirstMeant(ps, e, i)
  }

  ghost predicate Means(e: Entry, p: Proxy) {
    e == Entry(p.host, p.port, p.username, p.password)
  }

  ghost predicate FirstMeant(ps: seq<Proxy>, e: Entry, i: int) {
    0 <= i < |ps| && Means(e, ps[i]) && forall j :: 0 <= j < i ==> !Means(e, ps[j])
  }

  lemma ChosenAreMeant(ps: seq<Proxy>, entries: seq<Entry>)
    ensures forall i :: i in MatchAll(ps, entries).indexes <==> Meant(ps, entries, i)
  {
    MatchFromExact(ps, entries, 0, Matches({}, []));
    var chosen := MatchAll(ps, entries).indexes;
    forall i | i in chosen
      ensures Meant(ps, entries, i)
    {
      var j :| 0 <= j < |entries| && FirstMatch(ps, entries[j], 0) == i && i >= 0;
      assert FirstMeant(ps, entries[j], i);
    }
    forall i | Meant(ps, entries, i)
      ensures i in chosen
    {
      var e :| e in entries && FirstMeant(ps, e, i);
      var j :| 0 <= j < |entries| && entries[j] == e;
      assert Names(e, ps[i]);
      assert FirstMatch(ps, entries[j], 0) == i;
    }
  }

  // An action finds nothing exactly when no entry means a stored proxy. Enabling makes of each proxy that is meant the
  // same one, switched on, pending and without an error, and leaves all others alone.
  lemma EnablesExactly(ps: seq<Proxy>, entries: seq<Entry>)
    ensures var kept := Planned(ps, "enable", entries).0;
            && (kept == None <==> forall i :: !Meant(ps, entries, i))
            && (kept.Some? ==> |kept.value| == |ps| && forall i :: 0 <= i < |ps| ==>
                  kept.value[i] == if Meant(ps, entries, i) then ps[i].(enabled := true, status := Pending, lastError := "")
                                   else ps[i])
  {
    ChosenAreMeant(ps, entries);
    NoneChosen(MatchAll(ps, entries).indexes);
  }

  // Disabling: the same with the proxy switched off and shown as disabled.
  lemma DisablesExactly(ps: seq<Proxy>, entries: seq<Entry>)
    ensures var kept := Planned(ps, "disable", entries).0;
            && (kept == None <==> forall i :: !Meant(ps, entries, i))
            && (kept.Some? ==> |kept.value| == |ps| && forall i :: 0 <= i < |ps| ==>
                  kept.value[i] == if Meant(ps, entries, i) then ps[i].(enabled := false, status := Disabled, lastError := "")
                                   else ps[i])
  {
    ChosenAreMeant(ps, entries);
    NoneChosen(MatchAll(ps, entries).indexes);
    assert "disable"[0] != "enable"[0] && "disable"[1] != "delete"[1];
  }

  lemma NoneChosen(chosen: set<int>)
    ensures chosen == {} <==> forall i :: i !in chosen
  {
    if forall i :: i !in chosen {
      assert chosen == {};
    }
  }

  // Deletion leaves exactly the proxies that are not meant, unchanged and in their order.
  lemma DeletesExactly(ps: seq<Proxy>, entries: seq<Entry>) returns (at: seq<int>)
    ensures var kept := Planned(ps, "delete", entries).0;
            && (kept == None <==> forall i :: !Meant(ps, entries, i))
            && (kept.Some? ==> Picks(ps, at, kept.value))
    ensures (forall j, k :: 0 <= j < k < |at| ==> at[j] < at[k])
    ensures forall i :: i in at <==> 0 <= i < |ps| && !Meant(ps, entries, i)
  {
    ChosenAreMeant(ps, entries);
    var chosen := MatchAll(ps, entries).indexes;
    NoneChosen(chosen);
    at := KeptIndexes(|ps|, chosen, 0);
    KeptIndexesExact(|ps|, chosen, 0);
    KeepExact(ps, chosen, 0);
  }

  // The text of every entry that means no stored proxy, in order.
  ghost function Complaints(ps: seq<Proxy>, entries: seq<Entry>): seq<string> {
    if entries == [] then []
    else
      var e := entries[0];
      (if exists p :: p in ps && Means(e, p) then [] else [e.host + ":" + Itoa(e.port) + ":" + e.username + ":" + e.password])
      + Complaints(ps, entries[1..])
  }

  lemma FoundIsMeant(ps: seq<Proxy>, e: Entry)
    ensures FirstMatch(ps, e, 0) >= 0 <==> exists p :: p in ps && Means(e, p)
  {
    var found := FirstMatch(ps, e, 0);
    if found >= 0 {
      assert Means(e, ps[found]);
    }
    if p :| p in ps && Means(e, p) {
      var i :| 0 <= i < |ps| && ps[i] == p;
      assert Names(e, ps[i]);
    }
  }

  lemma {:induction false} ComplainsFrom(ps: seq<Proxy>, entries: seq<Entry>, k: nat, m: Matches)
    requires k <= |entries|
    ensures MatchFrom(ps, entries, k, m).notFound == m.notFound + Complaints(ps, entries[k..])
    decreases |entries| - k
  {
    hide FirstMatch, Means;
    if k < |entries| {
      var e, found := entries[k], FirstMatch(ps, entries[k], 0);
      FoundIsMeant(ps, e);
      assert entries[k..][0] == e && entries[k..][1..] == entries[k + 1..];
      var m' := if found < 0 then m.(notFound := m.notFound + [EntryText(e)]) else m.(indexes := m.indexes + {found});
      ComplainsFrom(ps, entries, k + 1, m');
      var rest := Complaints(ps, entries[k + 1..]);
      assert m.notFound + [EntryText(e)] + rest == m.notFound + ([EntryText(e)] + rest);
      assert [] + rest == rest;
    }
  }

  // The report: how many entries were submitted, how many different proxies they mean, and the text of every entry that
  // means none, in order.
  lemma ReportsExactly(ps: seq<Proxy>, action: string, entries: seq<Entry>)
    ensures var r := Planned(ps, action, entries).1;
            && r.submitted == |entries| && r.action == action && r.notFound == Complaints(ps, entries)
            && exists chosen: set<int> :: |chosen| == r.matched && forall i :: i in chosen <==> Meant(ps, entries, i)
  {
    ComplainsFrom(ps, entries, 0, Matches({}, []));
    assert entries[0..] == entries && [] + Complaints(ps, entries) == Complaints(ps, entries);
    ChosenAreMeant(ps, entries);
  }

  // ---- what deletion keeps ----

  // The indexes of the kept proxies.
  function KeptIndexes(n: nat, remove: set<int>, i: nat): seq<int>
    requires i <= n
    decreases n - i
  {
    if i == n then [] else (if i in remove then [] else [i]) + KeptIndexes(n, remove, i + 1)
  }

  lemma {:induction false} KeptIndexesExact(n: nat, remove: set<int>, i: nat)
    requires i <= n
    ensures var at := KeptIndexes(n, remove, i);
            && (forall k :: 0 <= k < |at| ==> i <= at[k] < n)
            && (forall j, k :: 0 <= j < k < |at| ==> at[j] < at[k])
            && (forall x :: x in at <==> i <= x < n && x !in remove)
    decreases n - i
  {
    if i < n {
      KeptIndexesExact(n, remove, i + 1);
    }
  }

  ghost predicate Picks(ps: seq<Proxy>, at: seq<int>, kept: seq<Proxy>) {
    |kept| == |at| && forall k :: 0 <= k < |at| ==> 0 <= at[k] < |ps| && kept[k] == ps[at[k]]
  }

  lemma PicksCons(ps: seq<Proxy>, i: nat, at: seq<int>, kept: seq<Proxy>)
    requires i < |ps| && Picks(ps, at, kept)
    ensures Picks(ps, [i] + at, [ps[i]] + kept)
  {
    assert forall k :: 0 < k <= |at| ==> ([i] + at)[k] == at[k - 1] && ([ps[i]] + kept)[k] == kept[k - 1];
  }

  // Deletion keeps exactly the unmatched proxies, in their order (see KeptIndexesExact).
  lemma {:induction false} KeepExact(ps: seq<Proxy>, remove: set<int>, i: nat)
    requires i <= |ps|
    ensures Picks(ps, KeptIndexes(|ps|, remove, i), Keep(ps, remove, i))
    decreases |ps| - i
  {
    if i < |ps| {
      KeepExact(ps, remove, i + 1);
      var kept, at := Keep(ps, remove, i + 1), KeptIndexes(|ps|, remove, i + 1);
      PicksCons(ps, i, at, kept);
    }
  }

  // An edit never makes a proxy up: each one left stands for one of before, at an increasing place.
  lemma EditedFrom(ps: seq<Proxy>, action: string, chosen: set<int>) returns (at: seq<int>)
    ensures var r := Edited(ps, action, chosen);
            && |at| == |r|
            && (forall j, k :: 0 <= j < k < |at| ==> at[j] < at[k])
            && (forall k :: 0 <= k < |r| ==>
                  (0 <= at[k] < |ps| && (r[k] == ps[at[k]] || r[k] == Switched(ps[at[k]], action == "enable"))))
  {
    if action == "delete" {
      at := KeptIndexes(|ps|, chosen, 0);
      KeptIndexesExact(|ps|, chosen, 0);
      KeepExact(ps, chosen, 0);
    } else {
      at := seq(|ps|, i => i);
    }
  }

  // ---- the dashboard views ----

  // What each list of the dashboard shows, in port order.
  lemma ViewsExactly(ps: seq<Proxy>, p: Proxy)
    ensures p in Filter(ps, ViewOf("all")) <==> p in ps
    ensures p in Filter(ps, ViewOf("")) <==> p in ps
    ensures p in Filter(ps, ViewOf("live")) <==> p in ps && p.enabled && p.status == Live
    ensures p in Filter(ps, ViewOf("disabled")) <==> p in ps && !p.enabled
    ensures p in Filter(ps, ViewOf("failed")) <==> p in ps && p.enabled && p.status == Failed
  {
    assert "live"[0] != "disabled"[0] && "failed"[0] != "disabled"[0] && |"live"| != |"failed"|;
    assert "all"[0] != "live"[0] && "all"[0] != "disabled"[0] && "all"[0] != "failed"[0];
  }

  lemma OtherViewsAreEmpty(ps: seq<Proxy>, filter: string)
    requires filter !in {"all", "", "live", "disabled", "failed"}
    ensures Filter(ps, ViewOf(filter)) == []
  {
    if Filter(ps, ViewOf(filter)) != [] {
      assert Filter(ps, ViewOf(filter))[0] in Filter(ps, ViewOf(filter));
    }
  }

  datatype View = All | LiveOnly | DisabledOnly | FailedOnly | Nothing

  function ViewOf(filter: string): View {
    if filter == "live" then LiveOnly
    else if filter == "disabled" then DisabledOnly
    else if filter == "failed" then FailedOnly
    else if filter == "all" || filter == "" then All else Nothing
  }

  predicate Included(p: Proxy, view: View) {
    match view
    case All => true
    case LiveOnly => p.enabled && p.status == Live
    case DisabledOnly => !p.enabled
    case FailedOnly => p.enabled && p.status == Failed
    case Nothing => false
  }

  function Filter(ps: seq<Proxy>, view: View): (r: seq<Proxy>)
    ensures forall p :: p in r <==> p in ps && Included(p, view)
  {
    if ps == [] then []
    else
      var n := |ps| - 1;
      assert ps == ps[..n] + [ps[n]];
      Filter(ps[..n], view) + (if Included(ps[n], view) then [ps[n]] else [])
  }

  method FilteredList(s: State, filter: string) returns (r: seq<Proxy>)
    ensures r == SortByPort(Filter(s.proxies, ViewOf(filter)))
  {
    var view := ViewOf(filter);
    var result: seq<Proxy> := [];
    for i := 0 to |s.proxies|
      invariant result == Filter(s.proxies[..i], view)
    {
      assert s.proxies[..i + 1][..i] == s.proxies[..i];
      if Included(s.proxies[i], view) {
        result := result + [s.proxies[i]];
      }
    }
    assert s.proxies[..|s.proxies|] == s.proxies;
    r := SortByPort(result);
  }

  datatype Summary = Summary(total: nat, live: nat, disabled: nat, failed: nat, checking: nat)

  // One proxy's share of the summary.
  function Counted(s: Summary, p: Proxy): Summary {
    if !p.enabled || p.status == Disabled then s.(disabled := s.disabled + 1)
    else if p.status == Live then s.(live := s.live + 1)
    else if p.status == Checking || p.status == Pending then s.(checking := s.checking + 1)
    else s.(failed := s.failed + 1)
  }

  function Summarized(ps: seq<Proxy>): Summary {
    if ps == [] then Summary(0, 0, 0, 0, 0)
    else
      var s := Counted(Summarized(ps[..|ps| - 1]), ps[|ps| - 1]);
      s.(total := s.total + 1)
  }

  method Summarize(ps: seq<Proxy>) returns (out: Summary)
    ensures out == Summarized(ps)
  {
    out := Summary(|ps|, 0, 0, 0, 0);
    for i := 0 to |ps|
      invariant out == Summarized(ps[..i]).(total := |ps|) && Summarized(ps[..i]).total == i
    {
      assert ps[..i + 1][..i] == ps[..i];
      out := Counted(out, ps[i]);
    }
    assert ps[..|ps|] == ps;
  }

  // The statuses that every reachable state keeps.
  predicate StatusFits(p: Proxy) {
    if p.enabled then p.status in {Pending, Checking, Live, Failed} else p.status == Disabled
  }

  lemma FilterSnoc(ps: seq<Proxy>, p: Proxy, view: View)
    ensures Filter(ps + [p], view) == Filter(ps, view) + (if Included(p, view) then [p] else [])
  {
    assert (ps + [p])[..|ps|] == ps;
  }

  lemma SummarizedSnoc(ps: seq<Proxy>, p: Proxy)
    ensures var s := Counted(Summarized(ps), p); Summarized(ps + [p]) == s.(total := s.total + 1)
  {
    assert (ps + [p])[..|ps|] == ps;
  }

  // With fitting statuses the four counts partition the total, and the cards agree with the lists they open.
  lemma {:induction false} SummaryAgrees(ps: seq<Proxy>)
    requires forall p :: p in ps ==> StatusFits(p)
    ensures var s := Summarized(ps);
            && s.total == |ps| == s.live + s.disabled + s.failed + s.checking
            && s.live == |Filter(ps, LiveOnly)|
            && s.disabled == |Filter(ps, DisabledOnly)|
            && s.failed == |Filter(ps, FailedOnly)|
  {
    if ps != [] {
      var n := |ps| - 1;
      var before, p := ps[..n], ps[n];
      assert ps == before + [p];
      SummaryAgrees(before);
      assert StatusFits(p);
      SummarizedSnoc(before, p);
      FilterSnoc(before, p, LiveOnly);
      FilterSnoc(before, p, DisabledOnly);
      FilterSnoc(before, p, FailedOnly);
    }
  }
}
