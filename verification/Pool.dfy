// The worker pool of CheckAll in internal/app/service.go: a producer, any number of workers and a collector that meet
// on unbuffered channels, in every interleaving.
module Pool {
  import opened Model
  import opened Health

  // A worker waits for a job, runs a check, or holds a result until the collector takes it.
  datatype Worker = Waiting | Running(i: nat) | Holding(i: nat) | Exited

  datatype Pipeline = Pipeline(
    todo: seq<nat>,             // what the producer has still to send
    jobsClosed: bool,
    workers: seq<Worker>,
    delivered: seq<nat>,        // what the collector has received
    resultsClosed: bool,
    begun: seq<nat>)            // the checks started so far

  // One step of one party; a rendezvous on an unbuffered channel is one step of both.
  datatype Action =
    | Send(k: nat)              // the producer hands its next index to worker k
    | CloseJobs
    | Return(k: nat)            // worker k's check returns
    | Deliver(k: nat)           // worker k hands its result to the collector
    | Exit(k: nat)              // worker k finds jobs closed
    | CloseResults              // the producer has waited for all workers

  predicate CanStep(s: Pipeline, a: Action) {
    match a
    case Send(k) => s.todo != [] && k < |s.workers| && s.workers[k] == Waiting
    case CloseJobs => s.todo == [] && !s.jobsClosed
    case Return(k) => k < |s.workers| && s.workers[k].Running?
    case Deliver(k) => !s.resultsClosed && k < |s.workers| && s.workers[k].Holding?
    case Exit(k) => s.jobsClosed && k < |s.workers| && s.workers[k] == Waiting
    case CloseResults => s.jobsClosed && !s.resultsClosed && forall k :: 0 <= k < |s.workers| ==> s.workers[k] == Exited
  }

  function Next(s: Pipeline, a: Action): Pipeline
    requires CanStep(s, a)
  {
    match a
    case Send(k) => s.(todo := s.todo[1..], workers := s.workers[k := Running(s.todo[0])], begun := s.begun + [s.todo[0]])
    case CloseJobs => s.(jobsClosed := true)
    case Return(k) => s.(workers := s.workers[k := Holding(s.workers[k].i)])
    case Deliver(k) => s.(workers := s.workers[k := Waiting], delivered := s.delivered + [s.workers[k].i])
    case Exit(k) => s.(workers := s.workers[k := Exited])
    case CloseResults => s.(resultsClosed := true)
  }

  ghost predicate Reaches(s: Pipeline, actions: seq<Action>, t: Pipeline)
    decreases |actions|
  {
    if actions == [] then s == t
    else CanStep(s, actions[0]) && Reaches(Next(s, actions[0]), actions[1..], t)
  }

  // The indexes of the enabled proxies, in the order the producer sends them.
  function EnabledIndexes(ps: seq<Proxy>, n: nat): (r: seq<nat>)
    requires n <= |ps|
    ensures forall i: nat :: i in r <==> i < n && ps[i].enabled
    ensures forall j, k :: 0 <= j < k < |r| ==> r[j] < r[k]
  {
    if n == 0 then []
    else
      var before := EnabledIndexes(ps, n - 1);
      assert forall k :: 0 <= k < |before| ==> before[k] in before;
      if ps[n - 1].enabled then before + [n - 1] else before
  }

  // A concurrency below one is raised to one.
  function Begin(ps: seq<Proxy>, concurrency: int): Pipeline {
    Pipeline(EnabledIndexes(ps, |ps|), false, seq(if concurrency < 1 then 1 else concurrency, _ => Waiting), [], false, [])
  }

  // ---- nothing is lost or repeated ----

  // How many times a worker, and all workers together, have index x in hand.
  function Hand(w: Worker, x: nat): nat {
    if (w.Running? || w.Holding?) && w.i == x then 1 else 0
  }

  function InFlight(ws: seq<Worker>, x: nat): nat {
    if ws == [] then 0 else Hand(ws[0], x) + InFlight(ws[1..], x)
  }

  lemma {:induction false} InFlightUpdate(ws: seq<Worker>, k: nat, w: Worker, x: nat)
    requires k < |ws|
    ensures InFlight(ws[k := w], x) + Hand(ws[k], x) == InFlight(ws, x) + Hand(w, x)
  {
    var ws' := ws[k := w];
    if k == 0 {
      assert ws'[1..] == ws[1..];
    } else {
      assert ws'[1..] == ws[1..][k - 1 := w];
      InFlightUpdate(ws[1..], k - 1, w, x);
    }
  }

  function Times(s: seq<nat>, x: nat): nat {
    multiset(s)[x]
  }

  lemma TimesCons(s: seq<nat>, x: nat)
    requires s != []
    ensures Times(s, x) == Times(s[1..], x) + if s[0] == x then 1 else 0
  {
    assert s == [s[0]] + s[1..];
  }

  lemma TimesSnoc(s: seq<nat>, y: nat, x: nat)
    ensures Times(s + [y], x) == Times(s, x) + if y == x then 1 else 0
  {
  }

  // Each index is unsent, in flight or delivered, as often as it was enabled; and its check has begun exactly when
  // it is no longer unsent.
  ghost predicate Accounted(s: Pipeline, all: seq<nat>, x: nat) {
    && Times(s.todo, x) + InFlight(s.workers, x) + Times(s.delivered, x) == Times(all, x)
    && Times(s.todo, x) + Times(s.begun, x) == Times(all, x)
  }

  ghost predicate Partition(s: Pipeline, all: seq<nat>) {
    forall x: nat :: Accounted(s, all, x)
  }

  // Channels are closed in order: jobs when everything is sent, results when every worker has left.
  ghost predicate Orderly(s: Pipeline) {
    && |s.workers| > 0
    && (s.jobsClosed ==> s.todo == [])
    && (!s.jobsClosed ==> forall k :: 0 <= k < |s.workers| ==> s.workers[k] != Exited)
    && (s.resultsClosed ==> s.jobsClosed && forall k :: 0 <= k < |s.workers| ==> s.workers[k] == Exited)
  }

  lemma {:induction false} NoneInFlight(ws: seq<Worker>, x: nat)
    requires forall k :: 0 <= k < |ws| ==> ws[k] in {Waiting, Exited}
    ensures InFlight(ws, x) == 0
  {
    if ws != [] {
      NoneInFlight(ws[1..], x);
    }
  }

  lemma StepAccounts(s: Pipeline, a: Action, all: seq<nat>, x: nat)
    requires Accounted(s, all, x) && CanStep(s, a)
    ensures Accounted(Next(s, a), all, x)
  {
    match a
    case Send(k) =>
      InFlightUpdate(s.workers, k, Running(s.todo[0]), x);
      TimesCons(s.todo, x);
      TimesSnoc(s.begun, s.todo[0], x);
    case Return(k) => InFlightUpdate(s.workers, k, Holding(s.workers[k].i), x);
    case Deliver(k) =>
      InFlightUpdate(s.workers, k, Waiting, x);
      TimesSnoc(s.delivered, s.workers[k].i, x);
    case Exit(k) => InFlightUpdate(s.workers, k, Exited, x);
    case _ =>
  }

  lemma StepPartitions(s: Pipeline, a: Action, all: seq<nat>)
    requires Partition(s, all) && CanStep(s, a)
    ensures Partition(Next(s, a), all)
  {
    forall x: nat
      ensures Accounted(Next(s, a), all, x)
    {
      StepAccounts(s, a, all, x);
    }
  }

  lemma StepOrderly(s: Pipeline, a: Action)
    requires Orderly(s) && CanStep(s, a)
    ensures Orderly(Next(s, a))
  {
  }

  // ---- progress ----

  function Rank(w: Worker): nat {
    match w
    case Exited => 0
    case Waiting => 1
    case Holding(_) => 2
    case Running(_) => 3
  }

  function Ranks(ws: seq<Worker>): nat {
    if ws == [] then 0 else Rank(ws[0]) + Ranks(ws[1..])
  }

  lemma {:induction false} RanksUpdate(ws: seq<Worker>, k: nat, w: Worker)
    requires k < |ws|
    ensures Ranks(ws[k := w]) + Rank(ws[k]) == Ranks(ws) + Rank(w)
  {
    var ws' := ws[k := w];
    if k == 0 {
      assert ws'[1..] == ws[1..];
    } else {
      assert ws'[1..] == ws[1..][k - 1 := w];
      RanksUpdate(ws[1..], k - 1, w);
    }
  }

  // How many steps can still be taken at most.
  function Measure(s: Pipeline): nat {
    3 * |s.todo| + Ranks(s.workers) + (if s.jobsClosed then 0 else 1) + (if s.resultsClosed then 0 else 1)
  }

  lemma StepDecreases(s: Pipeline, a: Action)
    requires CanStep(s, a)
    ensures Measure(Next(s, a)) < Measure(s)
  {
    match a
    case Send(k) => RanksUpdate(s.workers, k, Running(s.todo[0]));
    case Return(k) => RanksUpdate(s.workers, k, Holding(s.workers[k].i));
    case Deliver(k) => RanksUpdate(s.workers, k, Waiting);
    case Exit(k) => RanksUpdate(s.workers, k, Exited);
    case _ =>
  }

  // No deadlock: until the collector's loop can end, somebody can move.
  lemma NoDeadlock(s: Pipeline) returns (a: Action)
    requires Orderly(s) && !s.resultsClosed
    ensures CanStep(s, a)
  {
    if k: nat :| k < |s.workers| && s.workers[k].Running? {
      a := Return(k);
    } else if k: nat :| k < |s.workers| && s.workers[k].Holding? {
      a := Deliver(k);
    } else if k: nat :| k < |s.workers| && s.workers[k] == Waiting {
      a := if s.jobsClosed then Exit(k) else if s.todo == [] then CloseJobs else Send(k);
    } else {
      assert forall k :: 0 <= k < |s.workers| ==> s.workers[k] == Exited;
      assert s.workers[0] == Exited;
      a := CloseResults;
    }
  }

  // ---- whole runs ----

  lemma BeginValid(ps: seq<Proxy>, concurrency: int)
    ensures var s := Begin(ps, concurrency); Partition(s, EnabledIndexes(ps, |ps|)) && Orderly(s)
  {
    var s := Begin(ps, concurrency);
    forall x: nat
      ensures Accounted(s, EnabledIndexes(ps, |ps|), x)
    {
      NoneInFlight(s.workers, x);
    }
  }

  lemma {:induction false} RunKeeps(s: Pipeline, actions: seq<Action>, t: Pipeline, all: seq<nat>)
    requires Partition(s, all) && Orderly(s) && Reaches(s, actions, t)
    ensures Partition(t, all) && Orderly(t) && |actions| + Measure(t) <= Measure(s)
    decreases |actions|
  {
    if actions != [] {
      StepPartitions(s, actions[0], all);
      StepOrderly(s, actions[0]);
      StepDecreases(s, actions[0]);
      RunKeeps(Next(s, actions[0]), actions[1..], t, all);
    }
  }

  // From anywhere, the pool can be run to its end; with RunKeeps, every way of running it gets there.
  lemma {:induction false} RunsOut(s: Pipeline) returns (actions: seq<Action>, t: Pipeline)
    requires Orderly(s)
    ensures Reaches(s, actions, t) && t.resultsClosed
    decreases Measure(s)
  {
    if s.resultsClosed {
      actions, t := [], s;
    } else {
      var a := NoDeadlock(s);
      StepOrderly(s, a);
      StepDecreases(s, a);
      var rest, end := RunsOut(Next(s, a));
      actions, t := [a] + rest, end;
      assert actions[1..] == rest;
    }
  }

  lemma TwiceIsTwo(a: seq<nat>, j: int, k: int)
    requires 0 <= j < k < |a| && a[j] == a[k]
    ensures Times(a, a[k]) >= 2
  {
    assert a == a[..k] + [a[k]] + a[k + 1..];
    assert a[..k][j] in multiset(a[..k]);
  }

  lemma SameOnce(a: seq<nat>, b: seq<nat>)
    requires (forall x: nat :: Times(a, x) == Times(b, x)) && forall j, k :: 0 <= j < k < |b| ==> b[j] < b[k]
    ensures (forall i :: i in a <==> i in b) && forall j, k :: 0 <= j < k < |a| ==> a[j] != a[k]
  {
    forall i: nat
      ensures i in a <==> i in b
    {
      assert i in a <==> Times(a, i) > 0;
      assert i in b <==> Times(b, i) > 0;
    }
    forall j, k | 0 <= j < k < |a|
      ensures a[j] != a[k]
    {
      if a[j] == a[k] {
        TwiceIsTwo(a, j, k);
        OnceEach(b, a[k]);
      }
    }
  }

  lemma OnceEach(b: seq<nat>, x: nat)
    requires forall j, k :: 0 <= j < k < |b| ==> b[j] < b[k]
    ensures Times(b, x) <= 1
  {
    if x in b {
      var i :| 0 <= i < |b| && b[i] == x;
      assert b == b[..i] + [x] + b[i + 1..];
      assert x !in b[..i] && x !in b[i + 1..];
    }
  }

  // Every run of the pool, with any number of workers and any interleaving, takes a bounded number of steps; as long
  // as the results are not closed another step is possible; and once they are, every enabled proxy of the snapshot
  // has been checked exactly once and its result delivered exactly once, in some order.
  lemma PoolDelivers(ps: seq<Proxy>, concurrency: int, actions: seq<Action>, t: Pipeline)
    requires Reaches(Begin(ps, concurrency), actions, t)
    ensures |actions| <= Measure(Begin(ps, concurrency))
    ensures !t.resultsClosed ==> exists a :: CanStep(t, a)
    ensures t.resultsClosed ==> Delivery(ps, t.delivered) && Delivery(ps, t.begun)
  {
    var all := EnabledIndexes(ps, |ps|);
    BeginValid(ps, concurrency);
    RunKeeps(Begin(ps, concurrency), actions, t, all);
    if t.resultsClosed {
      forall x: nat
        ensures Times(t.delivered, x) == Times(all, x) == Times(t.begun, x)
      {
        NoneInFlight(t.workers, x);
        assert Accounted(t, all, x);
      }
      SameOnce(t.delivered, all);
      SameOnce(t.begun, all);
    } else {
      var a := NoDeadlock(t);
    }
  }

  // So the results that reach the second critical section are exactly the snapshot's: with unique ports each enabled
  // proxy has its own, whatever the interleaving was.
  lemma PoolFilesExactly(ps: seq<Proxy>, concurrency: int, actions: seq<Action>, t: Pipeline, probe: Probe)
    requires UniquePorts(ps) && Reaches(Begin(ps, concurrency), actions, t) && t.resultsClosed
    ensures Within(ps, t.delivered) && ChecksOf(ps, probe, Checks(ps, probe, t.delivered))
  {
    PoolDelivers(ps, concurrency, actions, t);
    DeliveryWithin(ps, t.delivered);
    ChecksExact(ps, probe, t.delivered);
  }

  // ---- how many checks run at once ----

  // The workers that are running a check.
  function Busy(ws: seq<Worker>): nat {
    if ws == [] then 0 else (if ws[0].Running? then 1 else 0) + Busy(ws[1..])
  }

  lemma {:induction false} BusyBound(ws: seq<Worker>)
    ensures Busy(ws) <= |ws|
  {
    if ws != [] {
      BusyBound(ws[1..]);
    }
  }

  lemma {:induction false} WorkersStay(s: Pipeline, actions: seq<Action>, t: Pipeline)
    requires Reaches(s, actions, t)
    ensures |t.workers| == |s.workers|
    decreases |actions|
  {
    if actions != [] {
      WorkersStay(Next(s, actions[0]), actions[1..], t);
    }
  }

  // Never more checks run at once than asked for, or one if fewer than one were.
  lemma NeverMoreAtOnce(ps: seq<Proxy>, concurrency: int, actions: seq<Action>, t: Pipeline)
    requires Reaches(Begin(ps, concurrency), actions, t)
    ensures Busy(t.workers) <= if concurrency < 1 then 1 else concurrency
  {
    WorkersStay(Begin(ps, concurrency), actions, t);
    BusyBound(t.workers);
  }

  // The first k workers are running checks and the others wait.
  ghost predicate FilledTo(ps: seq<Proxy>, n: nat, s: Pipeline, k: nat) {
    && k <= n == |s.workers| && |s.todo| + k == |EnabledIndexes(ps, |ps|)| && !s.jobsClosed
    && forall i :: 0 <= i < n ==> if i < k then s.workers[i].Running? else s.workers[i] == Waiting
  }

  lemma {:induction false} BusyFrom(ws: seq<Worker>, k: nat)
    requires k <= |ws| && forall i :: 0 <= i < k ==> ws[i].Running?
    ensures Busy(ws) >= k
  {
    if k > 0 {
      BusyFrom(ws[1..], k - 1);
    }
  }

  lemma {:induction false} FillsUp(ps: seq<Proxy>, n: nat, s: Pipeline, k: nat, goal: nat)
      returns (actions: seq<Action>, t: Pipeline)
    requires FilledTo(ps, n, s, k) && k <= goal <= n && goal <= |EnabledIndexes(ps, |ps|)|
    ensures Reaches(s, actions, t) && FilledTo(ps, n, t, goal)
    decreases goal - k
  {
    if k == goal {
      actions, t := [], s;
    } else {
      var a := Send(k);
      var rest, end := FillsUp(ps, n, Next(s, a), k + 1, goal);
      actions, t := [a] + rest, end;
      assert actions[1..] == rest;
    }
  }

  // And as many do run at once in some interleaving, if so many proxies are enabled.
  lemma AsManyAtOnce(ps: seq<Proxy>, concurrency: int) returns (actions: seq<Action>, t: Pipeline)
    ensures Reaches(Begin(ps, concurrency), actions, t)
    ensures var most := if concurrency < 1 then 1 else concurrency;
            var enabled := |EnabledIndexes(ps, |ps|)|;
            Busy(t.workers) >= if enabled < most then enabled else most
  {
    var n := if concurrency < 1 then 1 else concurrency;
    var enabled := |EnabledIndexes(ps, |ps|)|;
    var goal := if enabled < n then enabled else n;
    actions, t := FillsUp(ps, n, Begin(ps, concurrency), 0, goal);
    BusyFrom(t.workers, goal);
  }
}
