/** Runs of the armor passes in which a failed block is attempted again too early, or held back for too long. */
module ArmorExamples {
  import opened Common
  import opened Decimal
  import opened DeclinedList
  import opened Runs
  import opened ArmorRetry

  // ---------------------------------------------------------------------------
  // Passes as runs of steps
  // ---------------------------------------------------------------------------

  const BUS := "1-1"
  const KEY := "1-1 1d50:60fc"
  const FAILURE := Entry(KEY, 1000)

  /** The passes of the examples: everybody finds one device, which is a target for one scan and cannot be blocked. */
  const ONLOOKER := Pass({BUS}, [], {}, {})
  const BLOCKER := Pass({BUS}, [Target(BUS, KEY)], {}, {BUS})

  const UNPLUGGED := Pass({}, [], {}, {})

  predicate NoClear(steps: seq<Step>) {
    forall k :: 0 <= k < |steps| ==> !steps[k].action.Clear?
  }

  predicate NoAttempt(steps: seq<Step>) {
    forall k :: 0 <= k < |steps| ==> !steps[k].action.Attempt?
  }

  /** Every scan finds the device of the examples connected. */
  predicate Plugged(steps: seq<Step>) {
    forall k :: 0 <= k < |steps| && steps[k].action.Begin? ==> BUS in steps[k].action.pass.connected
  }

  lemma NoClearInBoth(a: seq<Step>, b: seq<Step>)
    requires NoClear(a) && NoClear(b) && Plugged(a) && Plugged(b)
    ensures NoClear(a + b) && Plugged(a + b)
  {
  }

  function PassSteps(p: nat, pass: Pass, t1: nat, t2: nat): seq<Step> {
    [Step(p, Begin(pass)), Step(p, Read(t1, false)), Step(p, WriteBack(true)), Step(p, TryLock(true, false)),
     Step(p, Read(t2, false)), Step(p, WriteBack(true))]
  }

  lemma PassIsQuiet(p: nat, pass: Pass, t1: nat, t2: nat)
    ensures var steps := PassSteps(p, pass, t1, t2);
      NoClear(steps) && NoAttempt(steps) && (BUS in pass.connected ==> Plugged(steps))
  {
  }

  /** A pass up to its attempts, with nobody in between. */
  lemma PassReads(s: State, p: nat, other: nat, pass: Pass, t1: nat, t2: nat) returns (steps: seq<Step>)
    requires s.PhaseOf(p).Idle? && s.lock == None && s.time <= t1 <= t2 < U64_LIMIT && p != other
    requires pass.Valid() && pass.targets != []
    ensures Legal(CanStep, NextState, s, steps) && steps == PassSteps(p, pass, t1, t2)
    ensures var f := Final(NextState, s, steps);
      var held := Pruned(Pruned(s.list, pass.connected, t1), pass.connected, t2);
      && f.list == held && f.time == t2 && f.lock == Some(p)
      && f.PhaseOf(p).Blocking? && f.PhaseOf(p).pass == pass && f.PhaseOf(p).n == 0
      && f.PhaseOf(p).reading.now == t2 && f.PhaseOf(p).reading.kept == held
      && f.PhaseOf(other) == s.PhaseOf(other)
  {
    hide Legal, Final, StatesOf, Pruned, Pass.Valid, PassSteps;
    var first := PassPrunes(s, p, other, pass, t1);
    var t := Final(NextState, s, first);
    var second: seq<Step> := [];
    NoSteps(CanStep, NextState, t);
    Then(CanStep, NextState, t, second, Step(p, Read(t2, false)));
    second := second + [Step(p, Read(t2, false))];
    Then(CanStep, NextState, t, second, Step(p, WriteBack(true)));
    second := second + [Step(p, WriteBack(true))];
    Concatenated(CanStep, NextState, s, first, second);
    steps := first + second;
    PassStepsAre(p, pass, t1, t2, first, second);
  }

  lemma PassStepsAre(p: nat, pass: Pass, t1: nat, t2: nat, first: seq<Step>, second: seq<Step>)
    requires first
          == [Step(p, Begin(pass)), Step(p, Read(t1, false)), Step(p, WriteBack(true)), Step(p, TryLock(true, false))]
    requires second == [Step(p, Read(t2, false)), Step(p, WriteBack(true))]
    ensures first + second == PassSteps(p, pass, t1, t2)
  {
  }

  lemma PassPrunes(s: State, p: nat, other: nat, pass: Pass, t1: nat) returns (steps: seq<Step>)
    requires s.PhaseOf(p).Idle? && s.lock == None && s.time <= t1 < U64_LIMIT && p != other
    requires pass.Valid() && pass.targets != []
    ensures Legal(CanStep, NextState, s, steps)
    ensures steps
         == [Step(p, Begin(pass)), Step(p, Read(t1, false)), Step(p, WriteBack(true)), Step(p, TryLock(true, false))]
    ensures var f := Final(NextState, s, steps);
      && f.list == Pruned(s.list, pass.connected, t1) && f.time == t1 && f.lock == Some(p)
      && f.PhaseOf(p) == Locked(pass) && f.PhaseOf(other) == s.PhaseOf(other)
  {
    hide Legal, Final, StatesOf, Pruned, Pass.Valid;
    NoSteps(CanStep, NextState, s);
    steps := [];
    Then(CanStep, NextState, s, steps, Step(p, Begin(pass)));
    steps := steps + [Step(p, Begin(pass))];
    Then(CanStep, NextState, s, steps, Step(p, Read(t1, false)));
    steps := steps + [Step(p, Read(t1, false))];
    Then(CanStep, NextState, s, steps, Step(p, WriteBack(true)));
    steps := steps + [Step(p, WriteBack(true))];
    Then(CanStep, NextState, s, steps, Step(p, TryLock(true, false)));
    steps := steps + [Step(p, TryLock(true, false))];
  }

  /** Scan 2 is about to attempt its target, with this list and this time. */
  predicate AtTarget(s: State, kept: seq<Entry>, now: nat) {
    var phase := s.PhaseOf(2);
    && phase.Blocking? && phase.pass == BLOCKER && phase.n == 0 && phase.reading.now == now
    && phase.reading.kept == kept && s.lock == Some(2)
  }

  lemma BlockerPass()
    ensures BusOf(KEY) == BUS && BLOCKER.Valid() && ONLOOKER.Valid()
    ensures forall now: nat :: BlockUpTo([], BLOCKER, now, 1).entries == [Entry(KEY, now)]
  {
    assert KEY[0] != ' ' && KEY[1] != ' ' && KEY[2] != ' ' && KEY[3] == ' ';
    assert IndexFrom(KEY, ' ', 0) == 3;
    assert KEY[..3] == BUS;
    forall now: nat
      ensures BlockUpTo([], BLOCKER, now, 1).entries == [Entry(KEY, now)]
    {
      assert BlockUpTo([], BLOCKER, now, 0) == Progress([], []);
      assert [] + [Entry(KEY, now)] == [Entry(KEY, now)];
    }
  }

  /** From the attempt on: it fails at `end`, is recorded and the lock is given up. */
  lemma FailureIsSaved(s: State, other: nat, end: nat) returns (steps: seq<Step>)
    requires other != 2 && AtTarget(s, [], 1000) && s.time <= end
    ensures steps == [Step(2, Attempt(end)), Step(2, SaveFailures(true)), Step(2, Release)]
    ensures Legal(CanStep, NextState, s, steps)
    ensures StatesOf(NextState, s, steps)[1].time == end
    ensures var f := Final(NextState, s, steps);
      && f.list == [FAILURE] && f.time == end && f.lock == None
      && f.PhaseOf(2).Idle? && f.PhaseOf(other) == s.PhaseOf(other)
  {
    FailureSteps(s, other, end);
    hide Legal, Final, StatesOf, CanStep, NextState, AtTarget;
    NoSteps(CanStep, NextState, s);
    steps := [];
    Then(CanStep, NextState, s, steps, Step(2, Attempt(end)));
    steps := steps + [Step(2, Attempt(end))];
    Then(CanStep, NextState, s, steps, Step(2, SaveFailures(true)));
    steps := steps + [Step(2, SaveFailures(true))];
    Then(CanStep, NextState, s, steps, Step(2, Release));
    steps := steps + [Step(2, Release)];
    SecondState(s, steps);
  }

  lemma FailureSteps(s: State, other: nat, end: nat)
    requires other != 2 && AtTarget(s, [], 1000) && s.time <= end
    ensures CanStep(s, Step(2, Attempt(end)))
    ensures var s1 := NextState(s, Step(2, Attempt(end)));
      && s1.time == end && CanStep(s1, Step(2, SaveFailures(true)))
      && var s2 := NextState(s1, Step(2, SaveFailures(true)));
      && CanStep(s2, Step(2, Release))
      && var f := NextState(s2, Step(2, Release));
      && f.list == [FAILURE] && f.time == end && f.lock == None
      && f.PhaseOf(2).Idle? && f.PhaseOf(other) == s.PhaseOf(other)
  {
    BlockerPass();
    hide BlockUpTo, BusOf;
  }

  lemma SecondState(s: State, steps: seq<Step>)
    requires steps != []
    ensures StatesOf(NextState, s, steps)[1] == NextState(s, steps[0])
  {
    hide CanStep, NextState;
  }

  /** Scan 1 starts and reads the list; a line that cannot be read makes it write it back later. */
  lemma OnlookerReads(s: State, pass: Pass, now: nat) returns (steps: seq<Step>)
    requires s.PhaseOf(1).Idle? && s.time <= now < U64_LIMIT && pass.Valid()
    ensures Legal(CanStep, NextState, s, steps) && steps == [Step(1, Begin(pass)), Step(1, Read(now, true))]
    ensures var f := Final(NextState, s, steps);
      && f.list == s.list && f.time == now && f.lock == s.lock
      && f.PhaseOf(2) == s.PhaseOf(2) && f.PhaseOf(3) == s.PhaseOf(3)
      && f.PhaseOf(1) == Pruning(pass, Reading(now, Pruned(s.list, pass.connected, now), true))
    ensures NoClear(steps) && (BUS in pass.connected ==> Plugged(steps))
  {
    hide Legal, Final, StatesOf, Pruned, Pass.Valid;
    NoSteps(CanStep, NextState, s);
    steps := [];
    Then(CanStep, NextState, s, steps, Step(1, Begin(pass)));
    steps := steps + [Step(1, Begin(pass))];
    Then(CanStep, NextState, s, steps, Step(1, Read(now, true)));
    steps := steps + [Step(1, Read(now, true))];
  }

  lemma OnlookerWrites(s: State)
    requires s.PhaseOf(1).Pruning? && s.PhaseOf(1).reading.dirty
    ensures CanStep(s, Step(1, WriteBack(true)))
    ensures var f := NextState(s, Step(1, WriteBack(true)));
      && f.list == s.PhaseOf(1).reading.kept && f.time == s.time && f.lock == s.lock && f.PhaseOf(2) == s.PhaseOf(2)
      && f.PhaseOf(1).Deciding?
  {
  }

  /** Up to the first attempt: the onlooker has read an empty list, the blocker is about to fail. */
  lemma DroppedFailureBefore() returns (s: State, before: seq<Step>)
    ensures Init(s) && Legal(CanStep, NextState, s, before) && NoClear(before) && Plugged(before)
    ensures var f := Final(NextState, s, before);
      AtTarget(f, [], 1000) && f.time == 1000 && f.PhaseOf(1) == Pruning(ONLOOKER, Reading(1000, [], true))
  {
    BlockerPass();
    assert Pruned([], {BUS}, 1000) == [];
    hide Legal, Final, StatesOf, CanStep, NextState, Pruned, Pass.Valid, NoClear, Plugged, PassSteps;
    s := State([], 0, None, map[]);
    var first := OnlookerReads(s, ONLOOKER, 1000);
    var second := PassReads(Final(NextState, s, first), 2, 1, BLOCKER, 1000, 1000);
    Concatenated(CanStep, NextState, s, first, second);
    PassIsQuiet(2, BLOCKER, 1000, 1000);
    NoClearInBoth(first, second);
    before := first + second;
  }

  lemma SavedIsQuiet(steps: seq<Step>)
    requires steps == [Step(2, Attempt(1000)), Step(2, SaveFailures(true)), Step(2, Release)]
                      + [Step(1, WriteBack(true))]
    ensures NoClear(steps) && Plugged(steps)
  {
  }

  /** From there on: the failure is recorded, the onlooker writes what it read before, and the blocker reads again. */
  lemma DroppedFailureBehind(s: State) returns (steps: seq<Step>)
    requires AtTarget(s, [], 1000) && s.time == 1000
    requires s.PhaseOf(1) == Pruning(ONLOOKER, Reading(1000, [], true))
    ensures Legal(CanStep, NextState, s, steps) && |steps| > 2
    ensures steps[0] == Step(2, Attempt(1000)) && steps[1] == Step(2, SaveFailures(true))
    ensures NoClear(steps) && Plugged(steps)
    ensures AtTarget(Final(NextState, s, steps), [], 1001) && Final(NextState, s, steps).time == 1001
  {
    BlockerPass();
    assert Pruned([], {BUS}, 1001) == [];
    hide Legal, Final, StatesOf, CanStep, NextState, Pruned, Pass.Valid, NoClear, Plugged, BusOf, InWindow;
    hide PassSteps;
    var first := FailureIsSaved(s, 1, 1000);
    SavedIsQuiet(first + [Step(1, WriteBack(true))]);
    var u := Final(NextState, s, first);
    OnlookerWrites(u);
    Then(CanStep, NextState, s, first, Step(1, WriteBack(true)));
    var second := first + [Step(1, WriteBack(true))];
    var third := PassReads(Final(NextState, s, second), 2, 1, BLOCKER, 1001, 1001);
    Concatenated(CanStep, NextState, s, second, third);
    PassIsQuiet(2, BLOCKER, 1001, 1001);
    NoClearInBoth(second, third);
    steps := second + third;
  }

  lemma BlockerFails(states: seq<State>, steps: seq<Step>, k: nat, now: nat)
    requires k < |steps| && k < |states| && steps[k].actor == 2 && steps[k].action.Attempt?
    requires AtTarget(states[k], [], now)
    ensures FailsAt(states, steps, k, Entry(KEY, now))
  {
    BlockerPass();
    hide BusOf;
  }

  lemma AttemptIsPossible(s: State, kept: seq<Entry>, now: nat)
    requires AtTarget(s, kept, now)
    ensures CanStep(s, Step(2, Attempt(s.time)))
  {
  }

  /** A run of two parts and a last attempt. */
  lemma JoinRun(s: State, before: seq<Step>, behind: seq<Step>, kept: seq<Entry>, now: nat)
    returns (states: seq<State>, steps: seq<Step>)
    requires Init(s) && Legal(CanStep, NextState, s, before)
    requires Legal(CanStep, NextState, Final(NextState, s, before), behind)
    requires AtTarget(Final(NextState, Final(NextState, s, before), behind), kept, now)
    ensures var f := Final(NextState, Final(NextState, s, before), behind);
      && IsRun(states, steps) && steps == before + behind + [Step(2, Attempt(f.time))]
      && states[|before|] == Final(NextState, s, before) && states[|before + behind|] == f
  {
    hide Legal, Final, StatesOf, CanStep, NextState, AtTarget, Init, Follows;
    var f := Final(NextState, s, before);
    var last := Step(2, Attempt(Final(NextState, f, behind).time));
    Concatenated(CanStep, NextState, s, before, behind);
    AttemptIsPossible(Final(NextState, f, behind), kept, now);
    Then(CanStep, NextState, f, behind, last);
    Then(CanStep, NextState, s, before + behind, last);
    Concatenated(CanStep, NextState, s, before, behind + [last]);
    Associates(before, behind, [last]);
    steps := before + behind + [last];
    LegalFollows(CanStep, NextState, s, steps);
    states := StatesOf(NextState, s, steps);
  }

  lemma AttemptOnly(end: nat)
    ensures NoClear([Step(2, Attempt(end))]) && Plugged([Step(2, Attempt(end))])
  {
  }

  /** A scan that has read the list before a failure was recorded and writes it back afterwards drops the failure: the
      block is attempted again one second later, although every scan finds the device connected. */
  lemma StalePruneDropsAFailure() returns (states: seq<State>, steps: seq<Step>, b: nat, i: nat, j: nat)
    ensures IsRun(states, steps) && b < i < j < |steps| && NoClear(steps) && Plugged(steps)
    ensures FailsAt(states, steps, b, FAILURE) && RecordsFailuresOf(steps, b, i) && states[b + 1].time == FAILURE.time
    ensures FailsAt(states, steps, j, Entry(KEY, FAILURE.time + 1))
  {
    hide Legal, Final, StatesOf, CanStep, NextState, Init, NoClear, Plugged, FailsAt, AtTarget, RecordsFailuresOf;
    var s, before := DroppedFailureBefore();
    var behind := DroppedFailureBehind(Final(NextState, s, before));
    states, steps := JoinRun(s, before, behind, [], 1001);
    b, i, j := |before|, |before| + 1, |before + behind|;
    Pieces(before, behind, steps);
    NoClearInBoth(before, behind);
    NoClearInBoth(before + behind, [steps[j]]);
    AttemptOnly(1001);
    hide IsRun;
    TwoFailures(states, steps, b, j, 1000, 1001);
  }

  lemma Pieces(before: seq<Step>, behind: seq<Step>, steps: seq<Step>)
    requires |steps| == |before + behind| + 1 && steps[..|before + behind|] == before + behind && |behind| > 2
    ensures steps == before + behind + [steps[|before + behind|]]
    ensures steps[|before|] == behind[0] && steps[|before| + 1] == behind[1]
  {
  }

  /** The attempts in front of both states fail; the first one ends at `end` and its failure is recorded next. */
  lemma TwoFailures(states: seq<State>, steps: seq<Step>, b: nat, j: nat, end: nat, now: nat)
    requires IsRun(states, steps) && b + 1 < j < |steps|
    requires steps[b] == Step(2, Attempt(end)) && steps[b + 1] == Step(2, SaveFailures(true))
    requires steps[j].actor == 2 && steps[j].action.Attempt?
    requires AtTarget(states[b], [], 1000) && AtTarget(states[j], [], now)
    ensures FailsAt(states, steps, b, FAILURE) && states[b + 1].time == end && RecordsFailuresOf(steps, b, b + 1)
    ensures FailsAt(states, steps, j, Entry(KEY, now))
  {
    StepAt(states, steps, b);
    hide IsRun, FailsAt, AtTarget, Enabled;
    BlockerFails(states, steps, b, 1000);
    BlockerFails(states, steps, j, now);
  }

  // ---------------------------------------------------------------------------
  // A prompt that waits for longer than the hold
  // ---------------------------------------------------------------------------

  /** Nobody but scan 2 takes a step. */
  predicate Alone(steps: seq<Step>) {
    forall k :: 0 <= k < |steps| ==> steps[k].actor == 2
  }

  lemma AloneInBoth(a: seq<Step>, b: seq<Step>)
    requires Alone(a) && Alone(b)
    ensures Alone(a + b)
  {
  }

  lemma PassIsAlone(pass: Pass, t1: nat, t2: nat)
    ensures Alone(PassSteps(2, pass, t1, t2))
  {
  }

  lemma SlowPromptBefore() returns (s: State, before: seq<Step>)
    ensures Init(s) && Legal(CanStep, NextState, s, before) && before == PassSteps(2, BLOCKER, 1000, 1000)
    ensures AtTarget(Final(NextState, s, before), [], 1000) && Final(NextState, s, before).time == 1000
  {
    BlockerPass();
    assert Pruned([], {BUS}, 1000) == [];
    hide Legal, Final, StatesOf, CanStep, NextState, Pruned, Pass.Valid, PassSteps;
    s := State([], 0, None, map[]);
    before := PassReads(s, 2, 1, BLOCKER, 1000, 1000);
  }

  lemma SlowPromptBehind(s: State) returns (steps: seq<Step>)
    requires AtTarget(s, [], 1000) && s.time == 1000
    ensures Legal(CanStep, NextState, s, steps)
    ensures steps == [Step(2, Attempt(1120)), Step(2, SaveFailures(true)), Step(2, Release)]
                     + PassSteps(2, BLOCKER, 1121, 1121)
    ensures AtTarget(Final(NextState, s, steps), [], 1121) && Final(NextState, s, steps).time == 1121
  {
    BlockerPass();
    FailureIsOver(1121);
    hide Legal, Final, StatesOf, CanStep, NextState, Pruned, Pass.Valid, PassSteps;
    var first := FailureIsSaved(s, 1, 1120);
    var second := PassReads(Final(NextState, s, first), 2, 1, BLOCKER, 1121, 1121);
    Concatenated(CanStep, NextState, s, first, second);
    steps := first + second;
  }

  lemma FailureIsOver(now: nat)
    requires now >= 1060
    ensures Pruned(Pruned([FAILURE], {BUS}, now), {BUS}, now) == []
  {
    assert !InWindow(FAILURE, {BUS}, now);
    assert [FAILURE][..0] == [];
  }

  /** An attempt may wait at its prompt for 120 seconds, but its failure carries the time from before. With nobody else
      at work, a block that fails after 120 seconds is attempted again by the next scan one second later. */
  lemma SlowPromptIsRepeated() returns (states: seq<State>, steps: seq<Step>, b: nat, i: nat, j: nat)
    ensures IsRun(states, steps) && b < i < j < |steps| && NoClear(steps) && Plugged(steps) && Alone(steps)
    ensures FailsAt(states, steps, b, FAILURE) && RecordsFailuresOf(steps, b, i)
    ensures states[b].time == FAILURE.time && states[b + 1].time == FAILURE.time + 120
    ensures FailsAt(states, steps, j, Entry(KEY, states[b + 1].time + 1))
  {
    hide Legal, Final, StatesOf, CanStep, NextState, Init, NoClear, Plugged, Alone, FailsAt, AtTarget, PassSteps;
    hide RecordsFailuresOf;
    var s, before := SlowPromptBefore();
    var behind := SlowPromptBehind(Final(NextState, s, before));
    states, steps := JoinRun(s, before, behind, [], 1121);
    b, i, j := |before|, |before| + 1, |before + behind|;
    Pieces(before, behind, steps);
    SlowPromptIsQuiet(before, behind, steps);
    hide IsRun;
    TwoFailures(states, steps, b, j, 1120, 1121);
  }

  lemma SlowPromptIsQuiet(before: seq<Step>, behind: seq<Step>, steps: seq<Step>)
    requires before == PassSteps(2, BLOCKER, 1000, 1000)
    requires behind == [Step(2, Attempt(1120)), Step(2, SaveFailures(true)), Step(2, Release)]
                       + PassSteps(2, BLOCKER, 1121, 1121)
    requires steps == before + behind + [Step(2, Attempt(1121))]
    ensures NoClear(steps) && Plugged(steps) && Alone(steps)
  {
    var saved := [Step(2, Attempt(1120)), Step(2, SaveFailures(true)), Step(2, Release)];
    var last := [Step(2, Attempt(1121))];
    assert NoClear(saved) && Plugged(saved) && Alone(saved);
    assert NoClear(last) && Plugged(last) && Alone(last);
    hide PassSteps, NoClear, Plugged, Alone;
    PassIsQuiet(2, BLOCKER, 1000, 1000);
    PassIsQuiet(2, BLOCKER, 1121, 1121);
    PassIsAlone(BLOCKER, 1000, 1000);
    PassIsAlone(BLOCKER, 1121, 1121);
    NoClearInBoth(saved, PassSteps(2, BLOCKER, 1121, 1121));
    NoClearInBoth(before, behind);
    NoClearInBoth(before + behind, last);
    AloneInBoth(saved, PassSteps(2, BLOCKER, 1121, 1121));
    AloneInBoth(before, behind);
    AloneInBoth(before + behind, last);
  }

  // ---------------------------------------------------------------------------
  // A device that stays held back
  // ---------------------------------------------------------------------------

  lemma NothingPlugged(now: nat)
    ensures Pruned([FAILURE], UNPLUGGED.connected, now) == [] && UNPLUGGED.Valid()
  {
    hide BusOf;
  }

  /** The onlooker has read the list with the entry, and scan 3 starts and finds the device gone. */
  lemma RevivalBefore() returns (s: State, before: seq<Step>)
    ensures Init(s) && Legal(CanStep, NextState, s, before)
    ensures before == [Step(1, Begin(ONLOOKER)), Step(1, Read(1001, true)), Step(3, Begin(UNPLUGGED))]
    ensures var f := Final(NextState, s, before);
      && f.list == [FAILURE] && f.time == 1001 && f.lock == None && f.PhaseOf(2).Idle?
      && f.PhaseOf(3) == Started(UNPLUGGED) && f.PhaseOf(1) == Pruning(ONLOOKER, Reading(1001, [FAILURE], true))
  {
    hide Legal, Final, StatesOf, Pruned, Pass.Valid, CanStep, NextState, NoClear, Plugged, BusOf, InWindow;
    BlockerPass();
    FailureIsKept(1001);
    NothingPlugged(1001);
    s := State([FAILURE], 1000, None, map[]);
    var first := OnlookerReads(s, ONLOOKER, 1001);
    UnpluggedBegins(Final(NextState, s, first));
    Then(CanStep, NextState, s, first, Step(3, Begin(UNPLUGGED)));
    before := first + [Step(3, Begin(UNPLUGGED))];
  }

  lemma UnpluggedBegins(s: State)
    requires s.PhaseOf(3).Idle?
    ensures CanStep(s, Step(3, Begin(UNPLUGGED)))
    ensures var f := NextState(s, Step(3, Begin(UNPLUGGED)));
      && f.list == s.list && f.time == s.time && f.lock == s.lock && f.PhaseOf(3) == Started(UNPLUGGED)
      && f.PhaseOf(1) == s.PhaseOf(1) && f.PhaseOf(2) == s.PhaseOf(2)
  {
  }

  lemma FailureIsKept(now: nat)
    requires 1000 <= now < 1060
    ensures Pruned([FAILURE], {BUS}, now) == [FAILURE]
  {
    BlockerPass();
    assert InWindow(FAILURE, {BUS}, now);
    assert [FAILURE][..0] == [];
    assert Pruned([], {BUS}, now) == [];
  }

  /** Scan 3 prunes the entry, the onlooker writes it back, and the blocker finds it. */
  lemma RevivalBehind(s: State) returns (steps: seq<Step>)
    requires s.list == [FAILURE] && s.time == 1001 && s.lock == None && s.PhaseOf(2).Idle?
    requires s.PhaseOf(3) == Started(UNPLUGGED) && s.PhaseOf(1) == Pruning(ONLOOKER, Reading(1001, [FAILURE], true))
    ensures Legal(CanStep, NextState, s, steps) && |steps| > 2 && NoAttempt(steps)
    ensures steps[0] == Step(3, Read(1002, false)) && steps[1] == Step(3, WriteBack(true))
    ensures AtTarget(Final(NextState, s, steps), [FAILURE], 1003)
  {
    hide Legal, Final, StatesOf, CanStep, NextState, Pruned, Pass.Valid, BusOf, InWindow, NoClear, Plugged, PassSteps;
    BlockerPass();
    FailureIsKept(1003);
    var first := UnpluggedPrune(s);
    OnlookerWrites(Final(NextState, s, first));
    Then(CanStep, NextState, s, first, Step(1, WriteBack(true)));
    var second := first + [Step(1, WriteBack(true))];
    assert NoAttempt(second);
    hide NoAttempt;
    var third := PassReads(Final(NextState, s, second), 2, 1, BLOCKER, 1003, 1003);
    Concatenated(CanStep, NextState, s, second, third);
    PassIsQuiet(2, BLOCKER, 1003, 1003);
    NoAttemptInBoth(second, third);
    steps := second + third;
  }

  lemma NoAttemptInBoth(a: seq<Step>, b: seq<Step>)
    requires NoAttempt(a) && NoAttempt(b)
    ensures NoAttempt(a + b)
  {
  }

  lemma UnpluggedPrune(s: State) returns (steps: seq<Step>)
    requires s.list == [FAILURE] && s.time == 1001 && s.PhaseOf(3) == Started(UNPLUGGED)
    ensures steps == [Step(3, Read(1002, false)), Step(3, WriteBack(true))]
    ensures Legal(CanStep, NextState, s, steps)
    ensures var f := Final(NextState, s, steps);
      f.time == 1002 && f.lock == s.lock && f.PhaseOf(1) == s.PhaseOf(1) && f.PhaseOf(2) == s.PhaseOf(2)
  {
    NothingPlugged(1002);
    hide Legal, Final, StatesOf, Pruned, Pass.Valid, BusOf, InWindow;
    NoSteps(CanStep, NextState, s);
    steps := [];
    Then(CanStep, NextState, s, steps, Step(3, Read(1002, false)));
    steps := steps + [Step(3, Read(1002, false))];
    Then(CanStep, NextState, s, steps, Step(3, WriteBack(true)));
    steps := steps + [Step(3, WriteBack(true))];
  }

  lemma HeldBack(states: seq<State>, steps: seq<Step>, k: nat, now: nat)
    requires k < |steps| && k < |states| && steps[k].actor == 2 && steps[k].action.Attempt?
    requires AtTarget(states[k], [FAILURE], now)
    ensures ConsidersAt(states, steps, k, KEY) && !AttemptsAt(states, steps, k, KEY)
    ensures states[k].PhaseOf(2).pass == BLOCKER
  {
    assert FAILURE in states[k].PhaseOf(2).Entries();
  }

  /** The mirror image: a scan that has read the list before a prune found the device unplugged and writes it back
      afterwards revives the entry, so the replugged device is held back although nobody failed to block it since. */
  lemma StalePruneRevivesAHold() returns (states: seq<State>, steps: seq<Step>, r: nat, g: nat, j: nat)
    ensures IsRun(states, steps) && r < g < j < |steps|
    ensures steps[r].action.Read? && FindsUnplugged(states[r].PhaseOf(steps[r].actor), BUS)
    ensures g == r + 1 && steps[g] == Step(steps[r].actor, WriteBack(true))
    ensures forall k :: r < k < j ==> !steps[k].action.Attempt?
    ensures LastRead(steps, j, steps[j].actor).Some? && g < LastRead(steps, j, steps[j].actor).value
    ensures ConsidersAt(states, steps, j, KEY) && !AttemptsAt(states, steps, j, KEY)
    ensures steps[j].actor == 2 && states[j].PhaseOf(2).pass == BLOCKER
  {
    hide Legal, Final, StatesOf, CanStep, NextState, Init, AtTarget, AttemptsAt, ConsidersAt;
    var s, before := RevivalBefore();
    var behind := RevivalBehind(Final(NextState, s, before));
    states, steps := JoinRun(s, before, behind, [FAILURE], 1003);
    r, g, j := |before|, |before| + 1, |before + behind|;
    Pieces(before, behind, steps);
    hide IsRun;
    assert forall k :: r < k < j ==> steps[k] == behind[k - r];
    assert forall k :: 0 <= k < r ==> steps[k] == before[k] && before[k].actor != 2;
    HeldBack(states, steps, j, 1003);
    ReadsBehind(states, steps, j, g);
  }

  lemma ReadsBehind(states: seq<State>, steps: seq<Step>, j: nat, g: nat)
    requires IsRun(states, steps) && g < j < |steps| && AtTarget(states[j], [FAILURE], 1003)
    requires forall k :: 0 <= k <= g ==> steps[k].actor != 2
    ensures LastRead(steps, j, 2).Some? && g < LastRead(steps, j, 2).value
  {
    hide IsRun;
    KnowsWhatItRead(states, steps, j, 2);
  }
}
