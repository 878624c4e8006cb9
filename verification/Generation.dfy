// StartCheck, stopCheck and the end of a background check in internal/app/service.go: a generation counter and one
// cancel function decide which background check is the current one. Every interleaving of their steps is covered.
module Generation {
  import opened Model

  // Where the goroutine of one generation is: before its first update, between that and the cancellation test,
  // between the test and its second update, or past all updates and about to finish.
  datatype Phase = Starting | Measuring | Passed | Leaving

  datatype Control = Control(
    checkID: nat,
    checking: bool,
    cancel: Option<nat>,          // the generation that the stored cancel function would cancel
    cancelled: set<nat>,          // generations whose context is cancelled
    running: map<nat, Phase>,     // generations whose goroutine has not finished
    wrote: set<nat>)              // generations that stored results

  const IDLE := Control(0, false, None, {}, map[], {})

  // ---- the three critical sections of checkMu ----

  function Cancelled(c: Control): set<nat> {
    c.cancelled + (if c.cancel.Some? then {c.cancel.value} else {})
  }

  function Started(c: Control): Control {
    var id := c.checkID + 1;
    c.(cancelled := Cancelled(c), cancel := Some(id), checkID := id, checking := true, running := c.running[id := Starting])
  }

  function Stopped(c: Control): Control {
    c.(checkID := c.checkID + 1, cancelled := Cancelled(c), cancel := None, checking := false)
  }

  function Finished(c: Control, id: nat): Control {
    var left := c.(running := c.running - {id});
    if c.checkID == id then left.(checking := false, cancel := None) else left
  }

  class Checks {
    var checkID: nat
    var checking: bool
    var cancel: Option<nat>
    var cancelled: set<nat>
    ghost var running: map<nat, Phase>
    ghost var wrote: set<nat>

    ghost function Contents(): Control
      reads this
    {
      Control(checkID, checking, cancel, cancelled, running, wrote)
    }

    constructor ()
      ensures Contents() == IDLE
    {
      checkID, checking, cancel, cancelled := 0, false, None, {};
      running, wrote := map[], {};
    }

    // Up to the launch of the goroutine, which starts as generation id.
    method StartCheck() returns (id: nat)
      modifies this
      ensures Contents() == Started(old(Contents())) && id == checkID
    {
      if cancel.Some? {
        cancelled := cancelled + {cancel.value};
      }
      checkID := checkID + 1;
      id := checkID;
      cancel := Some(id);
      checking := true;
      running := running[id := Starting];
    }

    method StopCheck()
      modifies this
      ensures Contents() == Stopped(old(Contents()))
    {
      checkID := checkID + 1;
      if cancel.Some? {
        cancelled := cancelled + {cancel.value};
        cancel := None;
      }
      checking := false;
    }

    // The end of the goroutine of generation id.
    method FinishCheck(id: nat)
      modifies this
      ensures Contents() == Finished(old(Contents()), id)
    {
      if checkID == id {
        checking := false;
        cancel := None;
      }
      running := running - {id};
    }
  }

  // ---- all interleavings ----

  datatype Action =
    | Start
    | Stop
    | Mark(id: nat, stored: bool)     // the first update, which may fail
    | Test(id: nat)                   // ctx.Err() after the pass
    | Write(id: nat, stored: bool)    // the second update, which may fail
    | Finish(id: nat)

  predicate CanStep(c: Control, a: Action) {
    match a
    case Start => true
    case Stop => true
    case Mark(id, _) => id in c.running && c.running[id] == Starting
    case Test(id) => id in c.running && c.running[id] == Measuring
    case Write(id, _) => id in c.running && c.running[id] == Passed
    case Finish(id) => id in c.running && c.running[id] == Leaving
  }

  function Next(c: Control, a: Action): Control
    requires CanStep(c, a)
  {
    match a
    case Start => Started(c)
    case Stop => Stopped(c)
    case Mark(id, stored) => c.(running := c.running[id := if stored then Measuring else Leaving])
    case Test(id) => c.(running := c.running[id := if id in c.cancelled then Leaving else Passed])
    case Write(id, stored) => c.(running := c.running[id := Leaving], wrote := if stored then c.wrote + {id} else c.wrote)
    case Finish(id) => Finished(c, id)
  }

  ghost predicate Reaches(c: Control, actions: seq<Action>, d: Control)
    decreases |actions|
  {
    if actions == [] then c == d
    else CanStep(c, actions[0]) && Reaches(Next(c, actions[0]), actions[1..], d)
  }

  // ---- what holds whenever checkMu is free ----

  // checking, a stored cancel function and an unfinished current generation are one and the same thing, and every
  // other unfinished generation is already cancelled.
  ghost predicate Consistent(c: Control) {
    && (c.checking <==> c.cancel.Some?)
    && (c.cancel.Some? <==> c.checkID in c.running)
    && (c.cancel.Some? ==> c.cancel.value == c.checkID)
    && (forall g :: g in c.running && g != c.checkID ==> g in c.cancelled)
  }

  // The counter is ahead of everything it has numbered, and the current generation is never cancelled.
  ghost predicate Numbered(c: Control) {
    && (forall g :: g in c.running || g in c.cancelled || g in c.wrote ==> g <= c.checkID)
    && (c.cancel.Some? ==> c.cancel.value !in c.cancelled)
  }

  lemma StepKeeps(c: Control, a: Action)
    requires Consistent(c) && Numbered(c) && CanStep(c, a)
    ensures Consistent(Next(c, a)) && Numbered(Next(c, a)) && Next(c, a).checkID >= c.checkID
  {
    match a
    case Start => assert c.checkID + 1 !in c.running;
    case Stop => assert c.checkID + 1 !in c.running;
    case _ =>
  }

  // In every reachable interleaving.
  lemma {:induction false} AlwaysConsistent(c: Control, actions: seq<Action>, d: Control)
    requires Consistent(c) && Numbered(c) && Reaches(c, actions, d)
    ensures Consistent(d) && Numbered(d) && d.checkID >= c.checkID
    decreases |actions|
  {
    if actions != [] {
      StepKeeps(c, actions[0]);
      AlwaysConsistent(Next(c, actions[0]), actions[1..], d);
    }
  }

  lemma FromIdle(actions: seq<Action>, d: Control)
    requires Reaches(IDLE, actions, d)
    ensures Consistent(d) && Numbered(d)
  {
    AlwaysConsistent(IDLE, actions, d);
  }

  // ---- cancelled before its test, a check never stores results ----

  ghost predicate Silenced(c: Control, g: nat) {
    g in c.cancelled && g !in c.wrote && g <= c.checkID && (g in c.running ==> c.running[g] != Passed)
  }

  lemma {:induction false} SilencedForever(c: Control, g: nat, actions: seq<Action>, d: Control)
    requires Silenced(c, g) && Reaches(c, actions, d)
    ensures Silenced(d, g)
    decreases |actions|
  {
    if actions != [] {
      SilencedForever(Next(c, actions[0]), g, actions[1..], d);
    }
  }

  // A generation has stored nothing while it has not passed its test.
  ghost predicate Early(c: Control) {
    forall g :: g in c.running && c.running[g] != Leaving ==> g !in c.wrote
  }

  lemma {:induction false} AlwaysEarly(c: Control, actions: seq<Action>, d: Control)
    requires Consistent(c) && Numbered(c) && Early(c) && Reaches(c, actions, d)
    ensures Early(d)
    decreases |actions|
  {
    if actions != [] {
      StepKeeps(c, actions[0]);
      AlwaysEarly(Next(c, actions[0]), actions[1..], d);
    }
  }

  // From the start, however the steps interleave: once a generation is cancelled with its test still ahead, it
  // never stores results.
  lemma CancelledNeverWrites(before: seq<Action>, c: Control, g: nat, after: seq<Action>, d: Control)
    requires Reaches(IDLE, before, c) && Reaches(c, after, d)
    requires g in c.cancelled && g in c.running && c.running[g] in {Starting, Measuring}
    ensures g !in d.wrote
  {
    AlwaysConsistent(IDLE, before, c);
    AlwaysEarly(IDLE, before, c);
    SilencedForever(c, g, after, d);
  }

  // stopCheck, which every mutation calls first, silences every check that has not passed its test yet.
  lemma StopSilences(before: seq<Action>, c: Control, g: nat, after: seq<Action>, d: Control)
    requires Reaches(IDLE, before, c) && Reaches(Next(c, Stop), after, d)
    requires g in c.running && c.running[g] in {Starting, Measuring}
    ensures g !in d.wrote
  {
    AlwaysConsistent(IDLE, before, c);
    AlwaysEarly(IDLE, before, c);
    SilencedForever(Next(c, Stop), g, after, d);
  }

  // Some way of going on ends with the results of g stored.
  ghost predicate CanStore(c: Control, g: nat) {
    exists after, d :: Reaches(c, after, d) && g in d.wrote
  }

  // A check past its test is one step away from storing its results.
  lemma PassedCanStore(c: Control, g: nat)
    requires g in c.running && c.running[g] == Passed
    ensures CanStore(c, g)
  {
    var after := [Write(g, true)];
    assert after[1..] == [];
    assert Reaches(c, after, Next(c, Write(g, true)));
  }

  // What stopCheck achieves, exactly: of the checks that have stored nothing yet, those that can still store results
  // after it are the ones that have passed their test.
  lemma StopLetsWriteExactly(before: seq<Action>, c: Control, g: nat)
    requires Reaches(IDLE, before, c) && g in c.running && g !in c.wrote
    ensures CanStore(Next(c, Stop), g) <==> c.running[g] == Passed
  {
    AlwaysConsistent(IDLE, before, c);
    if c.running[g] == Passed {
      PassedCanStore(Next(c, Stop), g);
    } else {
      forall after, d | Reaches(Next(c, Stop), after, d)
        ensures g !in d.wrote
      {
        SilencedForever(Next(c, Stop), g, after, d);
      }
    }
  }

  // An input: the first check is stopped between its test and its second update, and stores its results all the same.
  lemma PassedStillWrites()
    ensures exists d :: Reaches(IDLE, [Start, Mark(1, true), Test(1), Stop, Write(1, true)], d)
                        && 1 in d.cancelled && 1 in d.wrote
  {
    var c1 := Next(IDLE, Start);
    var c2 := Next(c1, Mark(1, true));
    var c3 := Next(c2, Test(1));
    var c4 := Next(c3, Stop);
    var c5 := Next(c4, Write(1, true));
    var w := Write(1, true);
    assert Reaches(c4, [w], c5) by { assert [w][1..] == []; }
    assert Reaches(c3, [Stop, w], c5) by { assert [Stop, w][1..] == [w]; }
    assert Reaches(c2, [Test(1), Stop, w], c5) by { assert [Test(1), Stop, w][1..] == [Stop, w]; }
    var m := Mark(1, true);
    assert Reaches(c1, [m, Test(1), Stop, w], c5) by { assert [m, Test(1), Stop, w][1..] == [Test(1), Stop, w]; }
    assert [Start, m, Test(1), Stop, w][1..] == [m, Test(1), Stop, w];
  }

  // ---- checks that could not store their marks, and the end of all checks ----

  // A generation that has left without storing anything.
  ghost predicate GoneSilent(c: Control, g: nat) {
    g !in c.wrote && g <= c.checkID && (g in c.running ==> c.running[g] == Leaving)
  }

  lemma {:induction false} SilentForever(c: Control, g: nat, actions: seq<Action>, d: Control)
    requires GoneSilent(c, g) && Reaches(c, actions, d)
    ensures g !in d.wrote
    decreases |actions|
  {
    if actions != [] {
      SilentForever(Next(c, actions[0]), g, actions[1..], d);
    }
  }

  // A check whose first update failed never stores results.
  lemma UnmarkedNeverWrites(before: seq<Action>, c: Control, g: nat, after: seq<Action>, d: Control)
    requires Reaches(IDLE, before, c) && CanStep(c, Mark(g, false)) && Reaches(Next(c, Mark(g, false)), after, d)
    ensures g !in d.wrote
  {
    AlwaysConsistent(IDLE, before, c);
    AlwaysEarly(IDLE, before, c);
    SilentForever(Next(c, Mark(g, false)), g, after, d);
  }

  // What a check stores it stores by a second update that worked, and keeps stored.
  lemma {:induction false} StoredByUpdate(c: Control, actions: seq<Action>, d: Control, g: nat)
    requires Reaches(c, actions, d)
    ensures g in d.wrote <==> g in c.wrote || Write(g, true) in actions
    decreases |actions|
  {
    if actions != [] {
      StoredByUpdate(Next(c, actions[0]), actions[1..], d, g);
      assert actions == [actions[0]] + actions[1..];
    }
  }

  // The next step of a check that has not finished.
  function StepOf(c: Control, g: nat): Action
    requires g in c.running
  {
    match c.running[g]
    case Starting => Mark(g, true)
    case Measuring => Test(g)
    case Passed => Write(g, true)
    case Leaving => Finish(g)
  }

  function StepsLeft(p: Phase): nat {
    match p
    case Starting => 4
    case Measuring => 3
    case Passed => 2
    case Leaving => 1
  }

  // Every check can be run to its end. If it was the current one, none is current then; in any case it stored its results
  // exactly when it was not cancelled before its test, and earlier results stay.
  lemma {:induction false} RunsToItsEnd(c: Control, g: nat) returns (actions: seq<Action>, d: Control)
    requires Consistent(c) && Numbered(c) && Early(c) && g in c.running
    ensures Reaches(c, actions, d) && d.running == c.running - {g} && d.cancelled == c.cancelled && d.checkID == c.checkID
    ensures g == c.checkID ==> !d.checking && d.cancel == None
    ensures d.wrote == c.wrote + (if c.running[g] == Passed || (c.running[g] != Leaving && g !in c.cancelled) then {g} else {})
    decreases StepsLeft(c.running[g])
  {
    var a := StepOf(c, g);
    var next := Next(c, a);
    StepKeeps(c, a);
    if c.running[g] == Leaving {
      actions, d := [a], next;
      assert actions[1..] == [];
    } else {
      AlwaysEarly(c, [a], next) by { assert [a][1..] == []; }
      var rest, end := RunsToItsEnd(next, g);
      actions, d := [a] + rest, end;
      assert actions[1..] == rest;
      assert d.running == c.running - {g};
    }
  }
}
