// What a health check does to the stored proxies: CheckAll's two critical sections in internal/app/service.go,
// and the pass and the retry tail between them.
module Health {
  import opened Model
  import opened Config
  import opened Lists

  // A check's result: nothing wrong, or an error text.
  type Verdict = Option<string>

  function Marked(p: Proxy): Proxy {
    if p.enabled then p.(status := Checking, lastError := "") else p
  }

  function Mark(ps: seq<Proxy>): (r: seq<Proxy>)
    ensures |r| == |ps|
  {
    seq(|ps|, i requires 0 <= i < |ps| => Marked(ps[i]))
  }

  function Judged(p: Proxy, checks: map<int, Verdict>, now: nat): Proxy {
    if !p.enabled then p.(status := Disabled)
    else if p.port !in checks then p
    else match checks[p.port]
      case None => p.(lastChecked := now, status := Live, lastError := "")
      case Some(error) => p.(lastChecked := now, status := Failed, lastError := error)
  }

  function Merge(ps: seq<Proxy>, checks: map<int, Verdict>, now: nat -> nat): (r: seq<Proxy>)
    ensures |r| == |ps|
  {
    seq(|ps|, i requires 0 <= i < |ps| => Judged(ps[i], checks, now(i)))
  }

  method MarkLoop(ps: seq<Proxy>) returns (r: seq<Proxy>)
    ensures r == Mark(ps)
  {
    r := ps;
    for i := 0 to |ps|
      invariant |r| == |ps|
      invariant forall k :: 0 <= k < |ps| ==> r[k] == if k < i then Marked(ps[k]) else ps[k]
    {
      if r[i].enabled {
        r := r[i := r[i].(status := Checking)];
        r := r[i := r[i].(lastError := "")];
      }
    }
  }

  method MergeLoop(ps: seq<Proxy>, checks: map<int, Verdict>, now: nat -> nat) returns (r: seq<Proxy>)
    ensures r == Merge(ps, checks, now)
  {
    r := ps;
    for i := 0 to |ps|
      invariant |r| == |ps|
      invariant forall k :: 0 <= k < |ps| ==> r[k] == if k < i then Judged(ps[k], checks, now(k)) else ps[k]
    {
      var p := r[i];
      if !p.enabled {
        r := r[i := p.(status := Disabled)];
        continue;
      }
      if p.port !in checks {
        continue;
      }
      p := p.(lastChecked := now(i));
      match checks[p.port] {
        case None => p := p.(status := Live, lastError := "");
        case Some(error) => p := p.(status := Failed, lastError := error);
      }
      r := r[i := p];
    }
  }

  // ---- the pass and the retry tail ----

  const RETRY_LIMIT := 1000

  // probe(i, k) is what the k-th check of proxy i of the snapshot returns.
  type Probe = (nat, nat) -> Verdict

  function FailedFirst(ps: seq<Proxy>, probe: Probe): set<nat> {
    set i: nat | i < |ps| && ps[i].enabled && probe(i, 0).Some?
  }

  predicate Retries(ps: seq<Proxy>, probe: Probe) {
    0 < |FailedFirst(ps, probe)| <= RETRY_LIMIT
  }

  // The result that counts for proxy i: the first, or the second when a small failure tail is retried.
  function FinalVerdict(ps: seq<Proxy>, probe: Probe, i: nat): Verdict
    requires i < |ps|
  {
    if i in FailedFirst(ps, probe) && Retries(ps, probe) then probe(i, 1) else probe(i, 0)
  }

  // The results by port: for each enabled proxy of the snapshot its final verdict, and nothing else.
  ghost predicate ChecksOf(ps: seq<Proxy>, probe: Probe, checks: map<int, Verdict>) {
    && (forall n :: n in checks <==> n in PortsOf(Enabled(ps)))
    && (forall i: nat :: i < |ps| && ps[i].enabled ==> ps[i].port in checks && checks[ps[i].port] == FinalVerdict(ps, probe, i))
  }

  // The order in which the pool delivers the first results: every enabled index once (see Pool.PoolDelivers).
  ghost predicate Delivery(ps: seq<Proxy>, order: seq<nat>) {
    && (forall i: nat :: i in order <==> i < |ps| && ps[i].enabled)
    && (forall j, k :: 0 <= j < k < |order| ==> order[j] != order[k])
  }

  ghost predicate Within(ps: seq<Proxy>, order: seq<nat>) {
    forall k :: 0 <= k < |order| ==> order[k] < |ps|
  }

  lemma DeliveryWithin(ps: seq<Proxy>, order: seq<nat>)
    requires Delivery(ps, order)
    ensures Within(ps, order)
  {
    assert forall k :: 0 <= k < |order| ==> order[k] in order;
  }

  // The results filed by port as they arrive. With repeated ports a later result replaces an earlier one.
  datatype Filed = Filed(index: nat, verdict: Verdict)

  ghost function Filing(ps: seq<Proxy>, probe: Probe, order: seq<nat>): map<int, Filed>
    requires Within(ps, order)
  {
    if order == [] then map[]
    else
      var i := order[|order| - 1];
      Filing(ps, probe, order[..|order| - 1])[ps[i].port := Filed(i, probe(i, 0))]
  }

  // The indexes whose filed result is a failure.
  function FailedFiled(filed: map<int, Filed>): set<nat> {
    set n | n in filed && filed[n].verdict.Some? :: filed[n].index
  }

  // The ones to retry below n checked once more, in index order.
  function Retried(ps: seq<Proxy>, probe: Probe, retry: set<nat>, filed: map<int, Filed>, n: nat): map<int, Filed>
    requires n <= |ps|
  {
    if n == 0 then filed
    else
      var before := Retried(ps, probe, retry, filed, n - 1);
      if n - 1 in retry then before[ps[n - 1].port := Filed(n - 1, probe(n - 1, 1))] else before
  }

  function Verdicts(filed: map<int, Filed>): map<int, Verdict> {
    map n | n in filed :: filed[n].verdict
  }

  ghost function Checks(ps: seq<Proxy>, probe: Probe, order: seq<nat>): map<int, Verdict>
    requires Within(ps, order)
  {
    var filed := Filing(ps, probe, order);
    var retry := FailedFiled(filed);
    Verdicts(if 0 < |retry| <= RETRY_LIMIT then Retried(ps, probe, retry, filed, |ps|) else filed)
  }

  // Every result is filed under the port of its proxy.
  ghost predicate WellFiled(ps: seq<Proxy>, filed: map<int, Filed>) {
    forall n :: n in filed ==> filed[n].index < |ps| && ps[filed[n].index].port == n
  }

  // The failed results, collected from the map in whatever order it is walked.
  method CollectRetries(ps: seq<Proxy>, filed: map<int, Filed>) returns (retry: set<nat>, count: nat)
    requires WellFiled(ps, filed)
    ensures retry == FailedFiled(filed) && count == |retry|
  {
    retry, count := {}, 0;
    var rest := filed.Keys;
    while rest != {}
      invariant rest <= filed.Keys && count == |retry|
      invariant retry == set n | n in filed.Keys - rest && filed[n].verdict.Some? :: filed[n].index
      decreases |rest|
    {
      var n := AnyOf(rest);
      if filed[n].verdict.Some? {
        assert filed[n].index !in retry;
        retry := retry + {filed[n].index};
        count := count + 1;
      }
      rest := rest - {n};
    }
  }

  // Between the critical sections: the results as the workers deliver them, filed by port.
  method FirstPass(ps: seq<Proxy>, probe: Probe, order: seq<nat>) returns (filed: map<int, Filed>)
    requires Within(ps, order)
    ensures filed == Filing(ps, probe, order) && WellFiled(ps, filed)
  {
    filed := map[];
    for k := 0 to |order|
      invariant filed == Filing(ps, probe, order[..k]) && WellFiled(ps, filed)
    {
      assert order[..k + 1] == order[..k] + [order[k]];
      filed := filed[ps[order[k]].port := Filed(order[k], probe(order[k], 0))];
    }
    assert order[..|order|] == order;
  }

  // Then, unless the check was cancelled, a small tail of failures once more.
  method RetryTail(ps: seq<Proxy>, probe: Probe, ghost order: seq<nat>, first: map<int, Filed>)
    returns (checks: map<int, Verdict>)
    requires Within(ps, order) && first == Filing(ps, probe, order) && WellFiled(ps, first)
    ensures checks == Checks(ps, probe, order)
  {
    var filed := first;
    var retry, count := CollectRetries(ps, filed);
    if 0 < count <= RETRY_LIMIT {
      for i := 0 to |ps|
        invariant filed == Retried(ps, probe, retry, first, i)
      {
        if i in retry {
          filed := filed[ps[i].port := Filed(i, probe(i, 1))];
        }
      }
    }
    checks := Verdicts(filed);
  }

  ghost predicate FiledAt(ps: seq<Proxy>, filed: map<int, Filed>, i: nat, v: Verdict) {
    i < |ps| && ps[i].port in filed && filed[ps[i].port] == Filed(i, v)
  }

  lemma {:induction false} FilingExact(ps: seq<Proxy>, probe: Probe, order: seq<nat>)
    requires UniquePorts(ps) && Within(ps, order)
    ensures forall i: nat :: i in order ==> FiledAt(ps, Filing(ps, probe, order), i, probe(i, 0))
    ensures Filing(ps, probe, order).Keys == set i | i in order :: ps[i].port
  {
    if order != [] {
      var n := |order| - 1;
      FilingExact(ps, probe, order[..n]);
      assert order == order[..n] + [order[n]];
      forall i: nat | i in order
        ensures FiledAt(ps, Filing(ps, probe, order), i, probe(i, 0))
      {
        if i in order[..n] {
          assert FiledAt(ps, Filing(ps, probe, order[..n]), i, probe(i, 0));
        }
      }
    }
  }

  // With unique ports the failures that are filed are all the failures of the first pass.
  lemma RetriesExact(ps: seq<Proxy>, probe: Probe, order: seq<nat>)
    requires UniquePorts(ps) && Delivery(ps, order) && Within(ps, order)
    ensures FailedFiled(Filing(ps, probe, order)) == FailedFirst(ps, probe)
  {
    FilingExact(ps, probe, order);
    var filed := Filing(ps, probe, order);
    forall i | i in FailedFirst(ps, probe)
      ensures i in FailedFiled(filed)
    {
      assert FiledAt(ps, filed, i, probe(i, 0));
    }
    forall i | i in FailedFiled(filed)
      ensures i in FailedFirst(ps, probe)
    {
      var n :| n in filed && filed[n].verdict.Some? && filed[n].index == i;
      var j :| j in order && ps[j].port == n;
      assert FiledAt(ps, filed, j, probe(j, 0));
    }
  }

  lemma {:induction false} RetriedExact(ps: seq<Proxy>, probe: Probe, retry: set<nat>, filed: map<int, Filed>, n: nat,
      i: nat, v: Verdict)
    requires UniquePorts(ps) && n <= |ps| && FiledAt(ps, filed, i, v)
    requires forall k :: k in retry ==> k < |ps| && ps[k].port in filed
    ensures FiledAt(ps, Retried(ps, probe, retry, filed, n), i, if i < n && i in retry then probe(i, 1) else v)
    ensures Retried(ps, probe, retry, filed, n).Keys == filed.Keys
  {
    if n > 0 {
      RetriedExact(ps, probe, retry, filed, n - 1, i, v);
    }
  }

  // What is filed after the retries, if there are any.
  ghost function FinallyFiled(ps: seq<Proxy>, probe: Probe, order: seq<nat>): map<int, Filed>
    requires Within(ps, order)
  {
    var filed := Filing(ps, probe, order);
    if Retries(ps, probe) then Retried(ps, probe, FailedFirst(ps, probe), filed, |ps|) else filed
  }

  lemma FinalExact(ps: seq<Proxy>, probe: Probe, order: seq<nat>, i: nat)
    requires UniquePorts(ps) && Delivery(ps, order) && Within(ps, order) && i < |ps| && ps[i].enabled
    ensures FiledAt(ps, FinallyFiled(ps, probe, order), i, FinalVerdict(ps, probe, i))
  {
    hide FailedFirst, UniquePorts;
    FilingExact(ps, probe, order);
    var filed, retry := Filing(ps, probe, order), FailedFirst(ps, probe);
    FailedFirstEnabled(ps, probe, order);
    assert forall k :: k in retry ==> FiledAt(ps, filed, k, probe(k, 0));
    RetriedExact(ps, probe, retry, filed, |ps|, i, probe(i, 0));
  }

  lemma FailedFirstEnabled(ps: seq<Proxy>, probe: Probe, order: seq<nat>)
    requires Delivery(ps, order)
    ensures forall k :: k in FailedFirst(ps, probe) ==> k in order
  {
  }

  // Whatever the delivery order: with unique ports each enabled proxy of the snapshot has exactly one result,
  // its own, checked once, or twice when between 1 and 1000 failed and it was one of them.
  lemma ChecksExact(ps: seq<Proxy>, probe: Probe, order: seq<nat>)
    requires UniquePorts(ps) && Delivery(ps, order) && Within(ps, order)
    ensures ChecksOf(ps, probe, Checks(ps, probe, order))
  {
    hide Checks, FailedFirst, UniquePorts, FinalVerdict, FinallyFiled, Enabled, PortsOf, Retries, Delivery;
    ChecksAreFinal(ps, probe, order);
    FinalKeys(ps, probe, order);
    forall i: nat | i < |ps| && ps[i].enabled
      ensures FiledAt(ps, FinallyFiled(ps, probe, order), i, FinalVerdict(ps, probe, i))
    {
      FinalExact(ps, probe, order, i);
    }
  }

  lemma ChecksAreFinal(ps: seq<Proxy>, probe: Probe, order: seq<nat>)
    requires UniquePorts(ps) && Delivery(ps, order) && Within(ps, order)
    ensures Checks(ps, probe, order) == Verdicts(FinallyFiled(ps, probe, order))
  {
    hide FailedFirst, FailedFiled, Verdicts;
    RetriesExact(ps, probe, order);
  }

  lemma FinalKeys(ps: seq<Proxy>, probe: Probe, order: seq<nat>)
    requires UniquePorts(ps) && Delivery(ps, order) && Within(ps, order)
    ensures FinallyFiled(ps, probe, order).Keys == PortsOf(Enabled(ps))
  {
    hide FailedFirst;
    FilingExact(ps, probe, order);
    EnabledPorts(ps, order);
    RetriedKeys(ps, probe, order, |ps|);
  }

  lemma RetriedKeys(ps: seq<Proxy>, probe: Probe, order: seq<nat>, n: nat)
    requires UniquePorts(ps) && Delivery(ps, order) && Within(ps, order) && n <= |ps|
    ensures Retried(ps, probe, FailedFirst(ps, probe), Filing(ps, probe, order), n).Keys == set i | i in order :: ps[i].port
  {
    FilingExact(ps, probe, order);
    if n > 0 {
      RetriedKeys(ps, probe, order, n - 1);
    }
  }

  lemma EnabledPorts(ps: seq<Proxy>, order: seq<nat>)
    requires Delivery(ps, order)
    ensures PortsOf(Enabled(ps)) == set i | i in order :: ps[i].port
  {
    forall n | n in PortsOf(Enabled(ps))
      ensures n in set i | i in order :: ps[i].port
    {
      var p :| p in Enabled(ps) && p.port == n;
      var i: nat :| i < |ps| && ps[i] == p;
      assert i in order;
    }
    assert forall i :: i in order ==> ps[i] in Enabled(ps);
  }

  // ---- what a check may change ----

  // A check never touches who a proxy is or whether it is on, keeps every status where it belongs, and marks
  // only enabled proxies live or failed.
  lemma ChecksKeepIdentity(ps: seq<Proxy>, checks: map<int, Verdict>, now: nat -> nat)
    ensures SameBut(ps, Mark(ps)) && SameBut(ps, Merge(ps, checks, now))
    ensures (forall p :: p in ps ==> StatusFits(p)) ==>
              (forall p :: p in Mark(ps) ==> StatusFits(p)) && (forall p :: p in Merge(ps, checks, now) ==> StatusFits(p))
    ensures forall i :: 0 <= i < |ps| && Merge(ps, checks, now)[i].status in {Live, Failed} ==>
              ps[i].enabled && (ps[i].port in checks || Merge(ps, checks, now)[i] == ps[i])
  {
    var m, g := Mark(ps), Merge(ps, checks, now);
    assert forall i :: 0 <= i < |ps| ==> m[i] == Marked(ps[i]) && g[i] == Judged(ps[i], checks, now(i)) && ps[i] in ps;
  }
}
