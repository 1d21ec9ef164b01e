/**
  The armor pass and its list of failed blocks (src/engine/badusb.rs, lines 206-260 and 491-545), interleaved.

  A scan first prunes the list without the lock. If it then gets the lock, it prunes it again, tries to de-authorize
  its targets and records the failures; "Trust Devices" clears the list under the lock. Every prune is a reading and a
  later write, so a run is any interleaving of those steps. Writes may fail. The clock does not step back.

  An attempt may wait at a prompt for longer than a failure is held back, so each attempt is a step that takes time.
  All failures of a pass carry the clock reading from before its attempts.
 */
module ArmorRetry {
  import opened Common
  import opened Decimal
  import opened DeclinedList
  import opened Runs

  // ---------------------------------------------------------------------------
  // The attempts of a pass
  // ---------------------------------------------------------------------------

  datatype Target = Target(bus: string, key: string)

  /** What a scan finds: the connected bus ids, its targets, and of the bus ids which turn out to be de-authorized
      already and for which de-authorizing fails. */
  datatype Pass = Pass(connected: set<string>, targets: seq<Target>, deauthorized: set<string>, failing: set<string>)
  {
    /** Targets are connected devices, and their keys begin with their bus id. */
    predicate Valid() {
      forall t :: t in targets ==> t.bus in connected && BusOf(t.key) == t.bus && '\n' !in t.key
    }
  }

  predicate HasKey(entries: seq<Entry>, key: string) {
    exists e :: e in entries && e.key == key
  }

  /** The list and the keys of the attempts made so far. */
  datatype Progress = Progress(entries: seq<Entry>, attempted: seq<string>)

  function BlockUpTo(entries: seq<Entry>, pass: Pass, now: nat, n: nat): Progress
    requires n <= |pass.targets|
  {
    if n == 0 then Progress(entries, [])
    else
      var prev := BlockUpTo(entries, pass, now, n - 1);
      var t := pass.targets[n - 1];
      if HasKey(prev.entries, t.key) || t.bus in pass.deauthorized then prev
      else
        Progress(prev.entries + if t.bus in pass.failing then [Entry(t.key, now)] else [], prev.attempted + [t.key])
  }

  function BlockAll(entries: seq<Entry>, pass: Pass, now: nat): Progress {
    BlockUpTo(entries, pass, now, |pass.targets|)
  }

  lemma {:induction false} BlockStaysStorable(entries: seq<Entry>, pass: Pass, now: nat, n: nat)
    requires n <= |pass.targets| && Storable(entries) && pass.Valid() && now < U64_LIMIT
    ensures Storable(BlockUpTo(entries, pass, now, n).entries)
  {
    if n > 0 {
      BlockStaysStorable(entries, pass, now, n - 1);
      assert pass.targets[n - 1] in pass.targets;
    }
  }

  /** A pass attempts exactly the targets that are neither blocked already nor held back by the list, and records
      exactly the attempts that fail. */
  lemma {:induction false} BlockUpToIff(entries: seq<Entry>, pass: Pass, now: nat, n: nat, key: string)
    requires n <= |pass.targets| && pass.Valid()
    ensures key in BlockUpTo(entries, pass, now, n).attempted
        <==> && !HasKey(entries, key)
             && exists k :: 0 <= k < n && pass.targets[k].key == key && pass.targets[k].bus !in pass.deauthorized
    ensures forall time :: Entry(key, time) in BlockUpTo(entries, pass, now, n).entries <==>
              || Entry(key, time) in entries
              || (key in BlockUpTo(entries, pass, now, n).attempted && BusOf(key) in pass.failing && time == now)
  {
    if n > 0 {
      BlockUpToIff(entries, pass, now, n - 1, key);
      var t := pass.targets[n - 1];
      assert t in pass.targets && BusOf(t.key) == t.bus;
    }
  }

  // ---------------------------------------------------------------------------
  // A pass that nobody disturbs
  // ---------------------------------------------------------------------------

  /** Which of the three writes of a pass succeed. */
  datatype Writes = Writes(pruned: bool, prunedAgain: bool, failures: bool)

  function AfterPass(list: seq<Entry>, pass: Pass, pruneTime: nat, blockTime: nat, acts: bool, w: Writes): Progress {
    var pruned := Pruned(list, pass.connected, pruneTime);
    var list1 := if w.pruned then pruned else list;
    if !acts then Progress(list1, [])
    else
      var held := Pruned(list1, pass.connected, blockTime);
      var p := BlockAll(held, pass, blockTime);
      Progress(
        if w.failures && p.entries != held then p.entries else if w.prunedAgain then held else list1,
        p.attempted)
  }

  method BlockTargets(declined: seq<Entry>, pass: Pass, now: nat)
    returns (after: seq<Entry>, attempted: seq<string>, changed: bool)
    ensures Progress(after, attempted) == BlockAll(declined, pass, now)
    ensures changed == (after != declined)
  {
    after, attempted, changed := declined, [], false;
    for n := 0 to |pass.targets|
      invariant Progress(after, attempted) == BlockUpTo(declined, pass, now, n)
      invariant |after| >= |declined| && changed == (|after| > |declined|)
      invariant !changed ==> after == declined
    {
      var t := pass.targets[n];
      if HasKey(after, t.key) {
        continue;
      }
      if t.bus in pass.deauthorized {
        continue;
      }
      attempted := attempted + [t.key];
      if t.bus in pass.failing {
        after := after + [Entry(t.key, now)];
        changed := true;
      }
    }
  }

  method RunPass(file: ListFile, pass: Pass, pruneTime: nat, blockTime: nat, armor: bool, gotLock: bool, w: Writes)
    returns (attempted: seq<string>)
    requires pass.Valid() && blockTime < U64_LIMIT
    modifies file
    ensures Progress(file.Entries(), attempted)
         == AfterPass(old(file.Entries()), pass, pruneTime, blockTime, armor && pass.targets != [] && gotLock, w)
  {
    hide Contents, Pruned, BlockUpTo, Storable;
    attempted := [];
    var pruned := file.Load(pass.connected, pruneTime, w.pruned);
    var wantsBlock := armor && pass.targets != [];
    if !wantsBlock || !gotLock {
      return;
    }
    var declined := file.Load(pass.connected, blockTime, w.prunedAgain);
    var after, changed;
    after, attempted, changed := BlockTargets(declined, pass, blockTime);
    if changed {
      BlockStaysStorable(declined, pass, blockTime, |pass.targets|);
      file.Save(after, w.failures);
    }
  }

  // ---------------------------------------------------------------------------
  // The protocol
  // ---------------------------------------------------------------------------

  /** What a prune has read, when, and whether it writes it back. */
  datatype Reading = Reading(now: nat, kept: seq<Entry>, dirty: bool)

  datatype Phase =
    | Idle
    | Started(pass: Pass)
    | Pruning(pass: Pass, reading: Reading)
    | Deciding(pass: Pass)
    | Locked(pass: Pass)
    | LockedPruning(pass: Pass, reading: Reading)
    | Blocking(pass: Pass, reading: Reading, n: nat)   // the first `n` targets are done
    | Releasing
    | Trusting
  {
    predicate HoldsLock() {
      Locked? || LockedPruning? || Blocking? || Releasing? || Trusting?
    }

    predicate HasReading() {
      Pruning? || LockedPruning? || Blocking?
    }

    /** The list with the failures so far. */
    function Entries(): seq<Entry>
      requires Blocking? && n <= |pass.targets|
    {
      BlockUpTo(reading.kept, pass, reading.now, n).entries
    }
  }

  datatype State = State(list: seq<Entry>, time: nat, lock: Option<nat>, actors: map<nat, Phase>)
  {
    function PhaseOf(p: nat): Phase {
      if p in actors then actors[p] else Idle
    }
  }

  /** `junk`: the file holds lines that cannot be read, so it is written back in any case. `end`: the clock when the
      attempt has succeeded, failed or timed out. */
  datatype Action =
    | Begin(pass: Pass)
    | Read(now: nat, junk: bool)
    | WriteBack(ok: bool)
    | TryLock(armor: bool, wantsSave: bool)
    | Attempt(end: nat)
    | SaveFailures(ok: bool)
    | Release
    | LockForTrust
    | Clear(ok: bool)

  predicate Enabled(s: State, p: nat, a: Action) {
    var phase := s.PhaseOf(p);
    match a
    case Begin(pass) => phase.Idle? && pass.Valid()
    case Read(now, _) => (phase.Started? || phase.Locked?) && s.time <= now < U64_LIMIT
    case WriteBack(_) => phase.Pruning? || phase.LockedPruning?
    case TryLock(_, _) => phase.Deciding?
    case Attempt(end) => phase.Blocking? && phase.n < |phase.pass.targets| && s.time <= end
    case SaveFailures(_) => phase.Blocking? && phase.n == |phase.pass.targets|
    case Release => phase.Releasing? || phase.Trusting?
    case LockForTrust => phase.Idle? && s.lock == None
    case Clear(_) => phase.Trusting?
  }

  function ReadingOf(s: State, pass: Pass, now: nat, junk: bool): Reading {
    var kept := Pruned(s.list, pass.connected, now);
    Reading(now, kept, kept != s.list || junk)
  }

  /** What a step writes into the list. */
  function Written(s: State, p: nat, a: Action): Option<seq<Entry>>
    requires Enabled(s, p, a)
  {
    var phase := s.PhaseOf(p);
    match a
    case WriteBack(ok) => if ok && phase.reading.dirty then Some(phase.reading.kept) else None
    case SaveFailures(ok) => if ok && phase.Entries() != phase.reading.kept then Some(phase.Entries()) else None
    case Clear(ok) => if ok then Some([]) else None
    case _ => None
  }

  function NextPhase(s: State, p: nat, a: Action): Phase
    requires Enabled(s, p, a)
  {
    var phase := s.PhaseOf(p);
    match a
    case Begin(pass) => Started(pass)
    case Read(now, junk) =>
      if phase.Started? then Pruning(phase.pass, ReadingOf(s, phase.pass, now, junk))
      else LockedPruning(phase.pass, ReadingOf(s, phase.pass, now, junk))
    case WriteBack(_) => if phase.Pruning? then Deciding(phase.pass) else Blocking(phase.pass, phase.reading, 0)
    case TryLock(armor, wantsSave) =>
      var wantsBlock := armor && phase.pass.targets != [];
      if !(wantsSave || wantsBlock) || s.lock != None then Idle
      else if wantsBlock then Locked(phase.pass)
      else Releasing
    case Attempt(_) => phase.(n := phase.n + 1)
    case SaveFailures(_) => Releasing
    case Release => Idle
    case LockForTrust => Trusting
    case Clear(_) => Releasing
  }

  function After(s: State, p: nat, a: Action): State
    requires Enabled(s, p, a)
  {
    var next := NextPhase(s, p, a);
    State(
      if Written(s, p, a).Some? then Written(s, p, a).value else s.list,
      if a.Read? then a.now else if a.Attempt? then a.end else s.time,
      if next.HoldsLock() then Some(p) else if s.PhaseOf(p).HoldsLock() then None else s.lock,
      s.actors[p := next])
  }

  // ---------------------------------------------------------------------------
  // Invariant
  // ---------------------------------------------------------------------------

  predicate PhaseInv(s: State, phase: Phase) {
    && (phase.Started? || phase.Deciding? || phase.Locked? || phase.HasReading() ==> phase.pass.Valid())
    && (phase.HasReading() ==> phase.reading.now <= s.time)
    && (phase.Blocking? ==> phase.n <= |phase.pass.targets|)
  }

  ghost predicate Inv(s: State) {
    && (forall p :: p in s.actors ==> PhaseInv(s, s.actors[p]))
    && (forall p :: p in s.actors ==> (s.actors[p].HoldsLock() <==> s.lock == Some(p)))
    && (s.lock.Some? ==> s.lock.value in s.actors)
  }

  /** Nobody is at work, and the list holds no entry from the future. */
  predicate Init(s: State) {
    s.lock == None && s.actors == map[] && forall e :: e in s.list ==> e.time <= s.time
  }

  lemma InvStep(s: State, p: nat, a: Action)
    requires Inv(s) && Enabled(s, p, a)
    ensures Inv(After(s, p, a))
  {
    hide BlockUpTo, Pruned, InWindow, BusOf;
    var s' := After(s, p, a);
    assert p in s.actors ==> PhaseInv(s, s.PhaseOf(p));
    assert PhaseInv(s', s'.PhaseOf(p));
    forall q | q in s'.actors
      ensures PhaseInv(s', s'.actors[q])
    {
      if q != p {
        assert s'.actors[q] == s.actors[q] && PhaseInv(s, s.actors[q]);
      }
    }
  }

  // ---------------------------------------------------------------------------
  // Runs
  // ---------------------------------------------------------------------------

  datatype Step = Step(actor: nat, action: Action)

  predicate CanStep(s: State, step: Step) {
    Enabled(s, step.actor, step.action)
  }

  function NextState(s: State, step: Step): State {
    if CanStep(s, step) then After(s, step.actor, step.action) else s
  }

  ghost predicate IsRun(states: seq<State>, steps: seq<Step>) {
    Follows(CanStep, NextState, states, steps) && Init(states[0])
  }

  lemma {:induction false} TimeGrows(states: seq<State>, steps: seq<Step>, i: nat, j: nat)
    requires IsRun(states, steps) && i <= j <= |steps|
    ensures states[i].time <= states[j].time
    decreases j
  {
    if i < j {
      TimeGrows(states, steps, i, j - 1);
      assert Enabled(states[j - 1], steps[j - 1].actor, steps[j - 1].action);
      hide Written, NextPhase;
    }
  }

  lemma {:induction false} InvHolds(states: seq<State>, steps: seq<Step>, i: nat)
    requires IsRun(states, steps) && i < |states|
    ensures Inv(states[i])
  {
    if i > 0 {
      InvHolds(states, steps, i - 1);
      assert Enabled(states[i - 1], steps[i - 1].actor, steps[i - 1].action);
      InvStep(states[i - 1], steps[i - 1].actor, steps[i - 1].action);
    }
  }

  /** The last step before `k` in which actor `p` read the list. */
  function LastRead(steps: seq<Step>, k: nat, p: nat): (r: Option<nat>)
    requires k <= |steps|
    ensures r.Some? ==> r.value < k && steps[r.value].actor == p && steps[r.value].action.Read?
    ensures r.Some? ==> forall i :: r.value < i < k ==> !(steps[i].actor == p && steps[i].action.Read?)
  {
    if k == 0 then None
    else if steps[k - 1].actor == p && steps[k - 1].action.Read? then Some(k - 1)
    else LastRead(steps, k - 1, p)
  }

  /** What an actor knows of the list when it has read it in state `s`, and whether it has to write it back. */
  predicate ReadIn(s: State, a: Action, pass: Pass, reading: Reading)
    requires a.Read?
  {
    && reading.now == a.now && reading.kept == Pruned(s.list, pass.connected, a.now)
    && (reading.dirty <==> reading.kept != s.list || a.junk)
  }

  /** What an actor knows of the list is what it read then, pruned. */
  lemma {:induction false} KnowsWhatItRead(states: seq<State>, steps: seq<Step>, k: nat, p: nat)
    requires IsRun(states, steps) && k <= |steps| && states[k].PhaseOf(p).HasReading()
    ensures LastRead(steps, k, p).Some?
    ensures var r := LastRead(steps, k, p).value;
      ReadIn(states[r], steps[r].action, states[k].PhaseOf(p).pass, states[k].PhaseOf(p).reading)
  {
    StartsIdle(states, steps, p);
    hide IsRun, Enabled, After, State.PhaseOf, Phase.HasReading, ReadIn;
    if k > 0 {
      StepAt(states, steps, k - 1);
      ReadingStep(states[k - 1], steps[k - 1].actor, steps[k - 1].action, p);
      if !(steps[k - 1].actor == p && steps[k - 1].action.Read?) {
        KnowsWhatItRead(states, steps, k - 1, p);
      }
    }
  }

  lemma StepAt(states: seq<State>, steps: seq<Step>, k: nat)
    requires IsRun(states, steps) && k < |steps|
    ensures |states| == |steps| + 1 && Enabled(states[k], steps[k].actor, steps[k].action)
    ensures states[k + 1] == After(states[k], steps[k].actor, steps[k].action)
  {
    hide Enabled, After, Init;
    assert CanStep(states[k], steps[k]);
  }

  lemma StartsIdle(states: seq<State>, steps: seq<Step>, p: nat)
    requires IsRun(states, steps)
    ensures |states| == |steps| + 1 && states[0].PhaseOf(p).Idle? && !states[0].PhaseOf(p).HasReading()
    ensures forall e :: !HasFailed(states[0].PhaseOf(p), e)
  {
    hide CanStep, NextState;
  }

  lemma ReadingStep(s: State, q: nat, a: Action, p: nat)
    requires Enabled(s, q, a) && After(s, q, a).PhaseOf(p).HasReading()
    ensures var phase := After(s, q, a).PhaseOf(p);
      if p == q && a.Read? then ReadIn(s, a, phase.pass, phase.reading)
      else
        s.PhaseOf(p).HasReading() && s.PhaseOf(p).reading == phase.reading && s.PhaseOf(p).pass == phase.pass
  {
    hide Written, BlockUpTo, Pruned, Pass.Valid;
  }

  // ---------------------------------------------------------------------------
  // Which steps drop an entry, and which bring one up
  // ---------------------------------------------------------------------------

  /** Step `k` writes back what its actor read before: it ends a prune that changes the file, or it records failures. A
      write that fails is none. */
  predicate RewritesAt(states: seq<State>, steps: seq<Step>, k: nat)
    requires k < |steps| && k < |states| && Enabled(states[k], steps[k].actor, steps[k].action)
  {
    var phase := states[k].PhaseOf(steps[k].actor);
    || (steps[k].action == WriteBack(true) && phase.reading.dirty)
    || (steps[k].action == SaveFailures(true) && phase.Entries() != phase.reading.kept)
  }

  /** What it writes: the list it read, pruned, and with the failures if it records any. */
  function Rewritten(states: seq<State>, steps: seq<Step>, k: nat): seq<Entry>
    requires k < |steps| && k < |states| && Enabled(states[k], steps[k].actor, steps[k].action)
    requires RewritesAt(states, steps, k)
  {
    var phase := states[k].PhaseOf(steps[k].actor);
    if steps[k].action.WriteBack? then phase.reading.kept else phase.Entries()
  }

  predicate ClearsAt(steps: seq<Step>, k: nat)
    requires k < |steps|
  {
    steps[k].action == Clear(true)
  }

  /** A pass in this phase is about to record this failure of its own. */
  predicate HasFailed(phase: Phase, e: Entry) {
    phase.Blocking? && phase.n <= |phase.pass.targets| && e in phase.Entries() && e !in phase.reading.kept
  }

  /** The entry was in the list when the actor of step `k` read it. */
  predicate Saw(states: seq<State>, steps: seq<Step>, k: nat, e: Entry)
    requires k < |steps| && |steps| <= |states|
  {
    var r := LastRead(steps, k, steps[k].actor);
    r.Some? && e in states[r.value].list
  }

  /** For the actor of step `k` the entry is connected and in the window. */
  predicate InWindowAt(states: seq<State>, steps: seq<Step>, k: nat, e: Entry)
    requires k < |steps| && k < |states|
  {
    var phase := states[k].PhaseOf(steps[k].actor);
    phase.HasReading() && InWindow(e, phase.pass.connected, phase.reading.now)
  }

  lemma WhatIsWritten(states: seq<State>, steps: seq<Step>, k: nat, e: Entry)
    requires IsRun(states, steps) && k < |steps|
    ensures Enabled(states[k], steps[k].actor, steps[k].action)
    ensures states[k + 1].list == if ClearsAt(steps, k) then []
                                  else if RewritesAt(states, steps, k) then Rewritten(states, steps, k)
                                  else states[k].list
    ensures RewritesAt(states, steps, k) ==>
              (e in Rewritten(states, steps, k) <==>
                || (Saw(states, steps, k, e) && InWindowAt(states, steps, k, e))
                || HasFailed(states[k].PhaseOf(steps[k].actor), e))
  {
    hide InWindow, BlockUpTo, Saw, InWindowAt, Pruned;
    var s, p, a := states[k], steps[k].actor, steps[k].action;
    assert Enabled(s, p, a) && states[k + 1] == After(s, p, a);
    if RewritesAt(states, steps, k) {
      KeptIff(states, steps, k, e);
      InvHolds(states, steps, k);
      var phase := s.PhaseOf(p);
      assert PhaseInv(s, phase);
      if phase.Blocking? && e in phase.reading.kept {
        KeptIsKept(phase.reading.kept, phase.pass, phase.reading.now, phase.n, e);
      }
    }
  }

  lemma KeptIff(states: seq<State>, steps: seq<Step>, k: nat, e: Entry)
    requires IsRun(states, steps) && k < |steps| && states[k].PhaseOf(steps[k].actor).HasReading()
    ensures e in states[k].PhaseOf(steps[k].actor).reading.kept
        <==> Saw(states, steps, k, e) && InWindowAt(states, steps, k, e)
  {
    hide InWindow, IsRun;
    KnowsWhatItRead(states, steps, k, steps[k].actor);
  }

  lemma {:induction false} KeptIsKept(entries: seq<Entry>, pass: Pass, now: nat, n: nat, e: Entry)
    requires n <= |pass.targets| && e in entries
    ensures e in BlockUpTo(entries, pass, now, n).entries
  {
    if n > 0 {
      KeptIsKept(entries, pass, now, n - 1, e);
    }
  }

  /** A step drops an entry if and only if it clears the list, or it writes back a list that was read when the entry was
      not in it, or the device is unplugged or the window over for its actor. */
  lemma EntryIsDroppedIff(states: seq<State>, steps: seq<Step>, k: nat, e: Entry)
    requires IsRun(states, steps) && k < |steps| && e in states[k].list
    ensures Enabled(states[k], steps[k].actor, steps[k].action)
    ensures e !in states[k + 1].list <==>
              || ClearsAt(steps, k)
              || (&& RewritesAt(states, steps, k) && !HasFailed(states[k].PhaseOf(steps[k].actor), e)
                  && (!Saw(states, steps, k, e) || !InWindowAt(states, steps, k, e)))
  {
    hide Saw, InWindowAt, HasFailed, RewritesAt, ClearsAt, Written, Enabled;
    WhatIsWritten(states, steps, k, e);
  }

  /** A step brings an entry up if and only if it records the failure, or it writes back a list that was read when the
      entry was still in it. */
  lemma EntryComesUpIff(states: seq<State>, steps: seq<Step>, k: nat, e: Entry)
    requires IsRun(states, steps) && k < |steps| && e !in states[k].list
    ensures Enabled(states[k], steps[k].actor, steps[k].action)
    ensures e in states[k + 1].list <==>
              && RewritesAt(states, steps, k)
              && (|| HasFailed(states[k].PhaseOf(steps[k].actor), e)
                  || (Saw(states, steps, k, e) && InWindowAt(states, steps, k, e)))
  {
    hide Saw, InWindowAt, HasFailed, Written, Enabled;
    WhatIsWritten(states, steps, k, e);
  }

  /** Step `k` writes back a list in which an entry that is in the window has since come up or gone. */
  predicate IsStaleAt(states: seq<State>, steps: seq<Step>, k: nat, e: Entry)
    requires k < |steps| && |steps| <= |states| && Enabled(states[k], steps[k].actor, steps[k].action)
  {
    && RewritesAt(states, steps, k) && InWindowAt(states, steps, k, e)
    && Saw(states, steps, k, e) != (e in states[k].list)
  }

  /** The actor of step `k` has found the device of the entry connected. */
  predicate ConnectedAt(states: seq<State>, steps: seq<Step>, k: nat, e: Entry)
    requires k < |steps| && k < |states|
  {
    var phase := states[k].PhaseOf(steps[k].actor);
    phase.HasReading() && BusOf(e.key) in phase.pass.connected
  }

  /** Step `k` does not clear the list and does not write back one that is stale in `e`, or from which a pass that found
      the device unplugged has pruned it. */
  predicate KeepsHold(states: seq<State>, steps: seq<Step>, k: nat, e: Entry)
    requires k < |steps| && |steps| <= |states| && Enabled(states[k], steps[k].actor, steps[k].action)
  {
    && !ClearsAt(steps, k) && !IsStaleAt(states, steps, k, e)
    && (RewritesAt(states, steps, k) ==> ConnectedAt(states, steps, k, e))
  }

  /** Step `k` does not record the failure `e`, and does not write back a list that is stale in it. */
  predicate AddsNoHold(states: seq<State>, steps: seq<Step>, k: nat, e: Entry)
    requires k < |steps| && |steps| <= |states| && Enabled(states[k], steps[k].actor, steps[k].action)
  {
    && !IsStaleAt(states, steps, k, e)
    && !(RewritesAt(states, steps, k) && HasFailed(states[k].PhaseOf(steps[k].actor), e))
  }

  ghost predicate HoldLasts(states: seq<State>, steps: seq<Step>, i: nat, j: nat, e: Entry)
    requires IsRun(states, steps) && j <= |steps|
  {
    forall k :: i <= k < j ==> KeepsHold(states, steps, k, e)
  }

  ghost predicate NoNewHold(states: seq<State>, steps: seq<Step>, i: nat, j: nat, key: string)
    requires IsRun(states, steps) && j <= |steps|
  {
    forall k, time :: i <= k < j ==> AddsNoHold(states, steps, k, Entry(key, time))
  }

  lemma {:induction false} EntryStays(states: seq<State>, steps: seq<Step>, i: nat, j: nat, e: Entry)
    requires IsRun(states, steps) && i <= j <= |steps| && states[j].time < e.time + 60
    requires HoldLasts(states, steps, i, j, e) && e in states[i].list
    ensures e in states[j].list
    decreases j
  {
    hide Saw, InWindowAt, ConnectedAt, HasFailed, RewritesAt, ClearsAt, Enabled, NextState, KeepsHold;
    if i < j {
      TimeGrows(states, steps, j - 1, j);
      EntryStays(states, steps, i, j - 1, e);
      StaysOneStep(states, steps, j - 1, e);
    }
  }

  lemma StaysOneStep(states: seq<State>, steps: seq<Step>, k: nat, e: Entry)
    requires IsRun(states, steps) && k < |steps| && Enabled(states[k], steps[k].actor, steps[k].action)
    requires KeepsHold(states, steps, k, e) && e in states[k].list && states[k].time < e.time + 60
    ensures e in states[k + 1].list
  {
    EntryIsDroppedIff(states, steps, k, e);
    InvHolds(states, steps, k);
    hide Saw, HasFailed, RewritesAt, ClearsAt, CanStep, NextState, Enabled, After, IsRun, BusOf, Pass.Valid;
    var p := steps[k].actor;
    assert p in states[k].actors ==> PhaseInv(states[k], states[k].PhaseOf(p));
  }

  lemma {:induction false} EntryStaysAway(states: seq<State>, steps: seq<Step>, i: nat, j: nat, e: Entry)
    requires IsRun(states, steps) && i <= j <= |steps|
    requires NoNewHold(states, steps, i, j, e.key) && e !in states[i].list
    ensures e !in states[j].list
    decreases j
  {
    hide Saw, InWindowAt, HasFailed, RewritesAt, Enabled, After, AddsNoHold;
    if i < j {
      EntryStaysAway(states, steps, i, j - 1, e);
      assert AddsNoHold(states, steps, j - 1, Entry(e.key, e.time));
      StaysAwayOneStep(states, steps, j - 1, e);
    }
  }

  lemma StaysAwayOneStep(states: seq<State>, steps: seq<Step>, k: nat, e: Entry)
    requires IsRun(states, steps) && k < |steps| && Enabled(states[k], steps[k].actor, steps[k].action)
    requires AddsNoHold(states, steps, k, e) && e !in states[k].list
    ensures e !in states[k + 1].list
  {
    hide Saw, InWindowAt, HasFailed, RewritesAt, Enabled, After;
    EntryComesUpIff(states, steps, k, e);
  }

  // ---------------------------------------------------------------------------
  // Attempts
  // ---------------------------------------------------------------------------

  /** Step `k` attempts to de-authorize the device of this key. */
  predicate AttemptsAt(states: seq<State>, steps: seq<Step>, k: nat, key: string)
    requires k < |steps| && k < |states|
  {
    var phase := states[k].PhaseOf(steps[k].actor);
    && ConsidersAt(states, steps, k, key)
    && !HasKey(phase.Entries(), key) && phase.pass.targets[phase.n].bus !in phase.pass.deauthorized
  }

  /** In step `k` the device of this key is the next target. */
  predicate ConsidersAt(states: seq<State>, steps: seq<Step>, k: nat, key: string)
    requires k < |steps| && k < |states|
  {
    var phase := states[k].PhaseOf(steps[k].actor);
    && steps[k].action.Attempt? && phase.Blocking? && phase.n < |phase.pass.targets|
    && phase.pass.targets[phase.n].key == key
  }

  /** The attempt of step `k` fails; the failure carries the reading from before the attempts. It is over at the time of
      the state behind the step. */
  predicate FailsAt(states: seq<State>, steps: seq<Step>, k: nat, e: Entry)
    requires k < |steps| && k < |states|
  {
    var phase := states[k].PhaseOf(steps[k].actor);
    && AttemptsAt(states, steps, k, e.key) && BusOf(e.key) in phase.pass.failing && e.time == phase.reading.now
  }

  /** Failures come from attempts. */
  lemma {:induction false} FailureHasAttempt(states: seq<State>, steps: seq<Step>, k: nat, p: nat, e: Entry)
    requires IsRun(states, steps) && k <= |steps| && HasFailed(states[k].PhaseOf(p), e)
    ensures exists i :: 0 <= i < k && steps[i].actor == p && FailsAt(states, steps, i, e)
  {
    StartsIdle(states, steps, p);
    hide State.PhaseOf, HasFailed, Written, NextPhase, FailsAt;
    if k > 0 {
      assert Enabled(states[k - 1], steps[k - 1].actor, steps[k - 1].action);
      InvHolds(states, steps, k - 1);
      if HasFailed(states[k - 1].PhaseOf(p), e) {
        FailureHasAttempt(states, steps, k - 1, p, e);
      } else {
        FailureIsNew(states, steps, k - 1, p, e);
      }
    }
  }

  lemma FailureIsNew(states: seq<State>, steps: seq<Step>, k: nat, p: nat, e: Entry)
    requires k < |steps| < |states| && Inv(states[k]) && Enabled(states[k], steps[k].actor, steps[k].action)
    requires states[k + 1] == After(states[k], steps[k].actor, steps[k].action)
    requires HasFailed(states[k + 1].PhaseOf(p), e) && !HasFailed(states[k].PhaseOf(p), e)
    ensures steps[k].actor == p && FailsAt(states, steps, k, e)
  {
    hide Inv, Written, Pruned, BusOf;
    FailsByAttempt(states[k], steps[k].actor, steps[k].action, p, e);
    BlockingIsValid(states[k], p);
    var phase := states[k].PhaseOf(p);
    assert phase.pass.targets[phase.n] in phase.pass.targets;
    hide After;
  }

  lemma FailsByAttempt(s: State, q: nat, a: Action, p: nat, e: Entry)
    requires Enabled(s, q, a) && HasFailed(After(s, q, a).PhaseOf(p), e) && !HasFailed(s.PhaseOf(p), e)
    ensures p == q && a.Attempt? && s.PhaseOf(p).Blocking?
    ensures After(s, q, a).PhaseOf(p) == s.PhaseOf(p).(n := s.PhaseOf(p).n + 1)
  {
    hide Written, Pruned;
  }

  lemma BlockingIsValid(s: State, p: nat)
    requires Inv(s) && s.PhaseOf(p).Blocking?
    ensures s.PhaseOf(p).pass.Valid()
  {
    hide Pass.Valid;
    assert PhaseInv(s, s.PhaseOf(p));
  }

  /** Every entry was in the list from the start or records a failed attempt. */
  lemma {:induction false} EntryHasOrigin(states: seq<State>, steps: seq<Step>, k: nat, e: Entry)
    requires IsRun(states, steps) && k <= |steps| && e in states[k].list
    ensures e in states[0].list || exists i :: 0 <= i < k && FailsAt(states, steps, i, e)
    decreases k
  {
    hide InWindowAt, HasFailed, RewritesAt, FailsAt, Enabled, After;
    if k > 0 {
      if e in states[k - 1].list {
        EntryHasOrigin(states, steps, k - 1, e);
      } else {
        EntryComesUpIff(states, steps, k - 1, e);
        if HasFailed(states[k - 1].PhaseOf(steps[k - 1].actor), e) {
          FailureHasAttempt(states, steps, k - 1, steps[k - 1].actor, e);
        } else {
          EntryHasOrigin(states, steps, LastRead(steps, k - 1, steps[k - 1].actor).value, e);
        }
      }
    }
  }

  /** What an attempting actor has read, and that it has held the lock since then. */
  lemma {:induction false} HeldTheLockSinceReading(states: seq<State>, steps: seq<Step>, j: nat, q: nat, k: nat)
    requires IsRun(states, steps) && j <= |steps| && states[j].PhaseOf(q).HasReading() && !states[j].PhaseOf(q).Pruning?
    requires LastRead(steps, j, q).Some? && LastRead(steps, j, q).value <= k <= j
    ensures states[k].lock == Some(q)
    ensures k > LastRead(steps, j, q).value ==> states[k].PhaseOf(q).HasReading() && !states[k].PhaseOf(q).Pruning?
    decreases j - k
  {
    hide Inv, Enabled, After;
    InvHolds(states, steps, k);
    if k < j {
      HeldTheLockSinceReading(states, steps, j, q, k + 1);
      LockedBeforeStep(states[k], steps[k].actor, steps[k].action, q);
    } else {
      ReaderHasTheLock(states[k], q);
    }
  }

  lemma ReaderHasTheLock(s: State, q: nat)
    requires Inv(s) && s.PhaseOf(q).HasReading() && !s.PhaseOf(q).Pruning?
    ensures s.lock == Some(q)
  {
    hide PhaseInv;
  }

  lemma LockedBeforeStep(s: State, p: nat, a: Action, q: nat)
    requires Inv(s) && Enabled(s, p, a)
    requires After(s, p, a).PhaseOf(q).HasReading() && !After(s, p, a).PhaseOf(q).Pruning?
    ensures s.lock == Some(q)
    ensures !(p == q && a.Read?) ==> s.PhaseOf(q).HasReading() && !s.PhaseOf(q).Pruning?
  {
    hide Written, BlockUpTo, Pruned, PhaseInv;
  }

  /** A target is attempted by the first pass that gets to it, once 60 seconds have passed since the time of each of its
      failures: in every interleaving, nothing else holds it back. */
  lemma DueBlockIsAttempted(states: seq<State>, steps: seq<Step>, j: nat, key: string)
    requires IsRun(states, steps) && j < |steps| && ConsidersAt(states, steps, j, key)
    requires var phase := states[j].PhaseOf(steps[j].actor);
      && phase.pass.targets[phase.n].bus !in phase.pass.deauthorized
      && (forall e :: e in states[0].list && e.key == key ==> e.time + 60 <= phase.reading.now)
      && (forall i, e :: 0 <= i < j && FailsAt(states, steps, i, e) && e.key == key ==>
            e.time + 60 <= phase.reading.now)
    ensures AttemptsAt(states, steps, j, key)
  {
    var q := steps[j].actor;
    var phase := states[j].PhaseOf(q);
    KnowsWhatItRead(states, steps, j, q);
    hide FailsAt, IsRun;
    if e :| e in phase.Entries() && e.key == key {
      if e in phase.reading.kept {
        EntryHasOrigin(states, steps, LastRead(steps, j, q).value, e);
      } else {
        FailureHasAttempt(states, steps, j, q, e);
        OwnFailureIsFresh(phase, phase.n, e);
      }
      assert false;
    }
  }

  lemma {:induction false} OwnFailureIsFresh(phase: Phase, n: nat, e: Entry)
    requires phase.Blocking? && n <= |phase.pass.targets|
    requires e in BlockUpTo(phase.reading.kept, phase.pass, phase.reading.now, n).entries && e !in phase.reading.kept
    ensures e.time == phase.reading.now
  {
    if n > 0 && e in BlockUpTo(phase.reading.kept, phase.pass, phase.reading.now, n - 1).entries {
      OwnFailureIsFresh(phase, n - 1, e);
    }
  }

  // ---------------------------------------------------------------------------
  // Only with USB Armor on
  // ---------------------------------------------------------------------------

  /** The last step before `k` in which actor `p` tried the lock. */
  function LastTry(steps: seq<Step>, k: nat, p: nat): (r: Option<nat>)
    requires k <= |steps|
    ensures r.Some? ==> r.value < k && steps[r.value].actor == p && steps[r.value].action.TryLock?
    ensures r.Some? ==> forall i :: r.value < i < k ==> !(steps[i].actor == p && steps[i].action.TryLock?)
  {
    if k == 0 then None
    else if steps[k - 1].actor == p && steps[k - 1].action.TryLock? then Some(k - 1)
    else LastTry(steps, k - 1, p)
  }

  /** Whoever attempts something found USB Armor on when it tried the lock, and had a target. */
  lemma {:induction false} AttemptNeedsArmor(states: seq<State>, steps: seq<Step>, k: nat, p: nat)
    requires IsRun(states, steps) && k <= |steps|
    requires states[k].PhaseOf(p).Locked? || states[k].PhaseOf(p).LockedPruning? || states[k].PhaseOf(p).Blocking?
    ensures LastTry(steps, k, p).Some?
    ensures steps[LastTry(steps, k, p).value].action.armor && states[k].PhaseOf(p).pass.targets != []
    ensures states[LastTry(steps, k, p).value].lock == None
  {
    StartsIdle(states, steps, p);
    hide IsRun, Enabled, After, State.PhaseOf;
    if k > 0 {
      StepAt(states, steps, k - 1);
      AfterTry(states[k - 1], steps[k - 1].actor, steps[k - 1].action, p);
      if !(steps[k - 1].actor == p && steps[k - 1].action.TryLock?) {
        AttemptNeedsArmor(states, steps, k - 1, p);
      }
    }
  }

  lemma AfterTry(s: State, q: nat, a: Action, p: nat)
    requires Enabled(s, q, a)
    ensures var (before, after) := (s.PhaseOf(p), After(s, q, a).PhaseOf(p));
      after.Locked? || after.LockedPruning? || after.Blocking? ==>
        if p == q && a.TryLock? then a.armor && after.pass.targets != [] && s.lock == None
        else (before.Locked? || before.LockedPruning? || before.Blocking?) && after.pass == before.pass
  {
    hide Written, Pruned, Pass.Valid, BlockUpTo;
  }

  /** A scan that tries the lock goes on to its attempts exactly when the lock is free, USB Armor is on and it has a
      target; it takes the lock and gives it up again when it only wants to save the baseline. */
  lemma LocksIff(states: seq<State>, steps: seq<Step>, k: nat)
    requires IsRun(states, steps) && k < |steps| && steps[k].action.TryLock?
    ensures var (p, a) := (steps[k].actor, steps[k].action);
      var (before, after) := (states[k].PhaseOf(p), states[k + 1].PhaseOf(p));
      && before.Deciding?
      && (after.Locked? <==> states[k].lock == None && a.armor && exists t :: t in before.pass.targets)
      && (after.Releasing? <==>
            states[k].lock == None && a.wantsSave && !(a.armor && exists t :: t in before.pass.targets))
      && (!after.Locked? && !after.Releasing? ==> after.Idle?)
      && (after.Locked? ==> after.pass == before.pass)
  {
    StepAt(states, steps, k);
    var pass := states[k].PhaseOf(steps[k].actor).pass;
    assert pass.targets != [] ==> pass.targets[0] in pass.targets;
    hide IsRun, Written, Pass.Valid;
  }

  // ---------------------------------------------------------------------------
  // The hold
  // ---------------------------------------------------------------------------

  /** Its actor takes no step between the two. */
  predicate RestsBetween(steps: seq<Step>, i: nat, j: nat)
    requires i < |steps| && j <= |steps|
  {
    forall k :: i < k < j ==> steps[k].actor != steps[i].actor
  }

  /** Step `i` is the first behind `b` in which the actor of `b` records its failures, and it succeeds. */
  predicate RecordsFailuresOf(steps: seq<Step>, b: nat, i: nat)
    requires b < i < |steps|
  {
    && steps[i] == Step(steps[b].actor, SaveFailures(true))
    && forall k :: b < k < i && steps[k].actor == steps[b].actor ==> !steps[k].action.SaveFailures?
  }

  /** A scan that is about to prune has found nothing connected at `bus`. */
  predicate FindsUnplugged(phase: Phase, bus: string) {
    phase.Started? && bus !in phase.pass.connected
  }

  /** A failed or cancelled block is held back: once the pass of step `b` has recorded it in step `i`, nobody attempts
      it again until 60 seconds after that pass read its clock, as long as nobody clears the list, writes a stale one,
      or finds the device unplugged. */
  lemma FailedBlockIsHeldBack(states: seq<State>, steps: seq<Step>, b: nat, i: nat, j: nat, e: Entry)
    requires IsRun(states, steps) && b < i < j < |steps| && FailsAt(states, steps, b, e)
    requires RecordsFailuresOf(steps, b, i) && HoldLasts(states, steps, i + 1, j, e)
    requires ConsidersAt(states, steps, j, e.key)
    requires states[j].PhaseOf(steps[j].actor).reading.now < e.time + 60
    ensures !AttemptsAt(states, steps, j, e.key)
  {
    hide FailsAt, AttemptsAt, CanStep, NextState, KeepsHold, InWindowAt, State.PhaseOf;
    FailureIsRecorded(states, steps, b, i, e);
    ReadSince(states, steps, i, j);
    var r := LastRead(steps, j, steps[j].actor).value;
    ReadInTime(states, steps, j, e.key);
    EntryStays(states, steps, i + 1, r, e);
    HeldIsNotAttempted(states, steps, j, e);
  }

  /** Whoever gets to a target has read the clock no earlier than the state it read the list in. */
  lemma ReadInTime(states: seq<State>, steps: seq<Step>, j: nat, key: string)
    requires IsRun(states, steps) && j < |steps| && ConsidersAt(states, steps, j, key)
    ensures LastRead(steps, j, steps[j].actor).Some?
    ensures var r := LastRead(steps, j, steps[j].actor).value;
      states[r].time <= states[j].PhaseOf(steps[j].actor).reading.now <= states[r + 1].time
  {
    KnowsWhatItRead(states, steps, j, steps[j].actor);
    var r := LastRead(steps, j, steps[j].actor).value;
    assert Enabled(states[r], steps[r].actor, steps[r].action);
  }

  lemma HeldIsNotAttempted(states: seq<State>, steps: seq<Step>, j: nat, e: Entry)
    requires IsRun(states, steps) && j < |steps| && ConsidersAt(states, steps, j, e.key)
    requires states[j].PhaseOf(steps[j].actor).reading.now < e.time + 60
    requires LastRead(steps, j, steps[j].actor).Some? && e in states[LastRead(steps, j, steps[j].actor).value].list
    ensures !AttemptsAt(states, steps, j, e.key)
  {
    KnowsWhatItRead(states, steps, j, steps[j].actor);
    InvHolds(states, steps, j);
    var phase := states[j].PhaseOf(steps[j].actor);
    BlockingIsValid(states[j], steps[j].actor);
    hide IsRun, BlockUpTo, BusOf, Inv;
    assert phase.pass.targets[phase.n] in phase.pass.targets;
    assert e in phase.reading.kept;
    KeptIsKept(phase.reading.kept, phase.pass, phase.reading.now, phase.n, e);
  }

  /** Whoever attempts something after another pass recorded its failures has read the list since. */
  lemma ReadSince(states: seq<State>, steps: seq<Step>, i: nat, j: nat)
    requires IsRun(states, steps) && i < j < |steps| && steps[i].action.SaveFailures?
    requires states[j].PhaseOf(steps[j].actor).Blocking?
    ensures LastRead(steps, j, steps[j].actor).Some? && i < LastRead(steps, j, steps[j].actor).value
  {
    hide IsRun, Inv, Enabled, After, Pruned, State.PhaseOf, LastRead;
    var p, q := steps[i].actor, steps[j].actor;
    KnowsWhatItRead(states, steps, j, q);
    StepAt(states, steps, i);
    InvHolds(states, steps, i);
    SaverHasTheLock(states[i], p, steps[i].action);
    var r := LastRead(steps, j, q).value;
    if r <= i {
      HeldTheLockSinceReading(states, steps, j, q, i);
      if r < i {
        SameReading(states, steps, i, j, q);
      }
      assert false;
    }
  }

  lemma SaverHasTheLock(s: State, p: nat, a: Action)
    requires Inv(s) && Enabled(s, p, a) && a.SaveFailures?
    ensures s.lock == Some(p)
  {
    hide PhaseInv;
  }

  lemma FailureIsRecorded(states: seq<State>, steps: seq<Step>, b: nat, i: nat, e: Entry)
    requires IsRun(states, steps) && b < i < |steps| && FailsAt(states, steps, b, e)
    requires RecordsFailuresOf(steps, b, i)
    ensures e in states[i + 1].list
  {
    var p := steps[b].actor;
    assert Enabled(states[b], p, steps[b].action) && Enabled(states[i], p, steps[i].action);
    InvHolds(states, steps, b);
    FailureComesUp(states[b], p, steps[b].action, e);
    FailureIsKept(states, steps, b + 1, i, p, e);
    hide IsRun, BlockUpTo;
  }

  /** Right behind a failed attempt the failure is waiting to be recorded. */
  lemma FailureComesUp(s: State, p: nat, a: Action, e: Entry)
    requires Inv(s) && Enabled(s, p, a) && a.Attempt?
    requires FailsAt([s], [Step(p, a)], 0, e)
    ensures HasFailed(After(s, p, a).PhaseOf(p), e)
  {
    hide Pruned, Written, BusOf;
    BlockingIsValid(s, p);
    var phase := s.PhaseOf(p);
    var t := phase.pass.targets[phase.n];
    assert t in phase.pass.targets;
    assert e == Entry(t.key, phase.reading.now);
    if e in phase.reading.kept {
      KeptIsKept(phase.reading.kept, phase.pass, phase.reading.now, phase.n, e);
      assert false;
    }
  }

  lemma {:induction false} FailureIsKept(states: seq<State>, steps: seq<Step>, i: nat, j: nat, p: nat, e: Entry)
    requires IsRun(states, steps) && i <= j < |steps| && HasFailed(states[i].PhaseOf(p), e)
    requires forall k :: i <= k < j && steps[k].actor == p ==> !steps[k].action.SaveFailures?
    ensures HasFailed(states[j].PhaseOf(p), e)
    decreases j
  {
    if i < j {
      FailureIsKept(states, steps, i, j - 1, p, e);
      assert Enabled(states[j - 1], steps[j - 1].actor, steps[j - 1].action);
      hide Written, Pruned;
    }
  }

  lemma {:induction false} PhaseIsKept(states: seq<State>, steps: seq<Step>, i: nat, j: nat, p: nat)
    requires IsRun(states, steps) && i <= j <= |steps| && forall k :: i <= k < j ==> steps[k].actor != p
    ensures states[j].PhaseOf(p) == states[i].PhaseOf(p)
    decreases j
  {
    if i < j {
      PhaseIsKept(states, steps, i, j - 1, p);
      assert Enabled(states[j - 1], steps[j - 1].actor, steps[j - 1].action);
      assert states[j] == After(states[j - 1], steps[j - 1].actor, steps[j - 1].action);
      hide Written, NextPhase, Enabled;
    }
  }

  /** Unplugging clears the hold: once a prune that found the device gone has read (step `r`) and written (step `g`),
      every pass that reads the list later attempts the device, as long as nobody records another failure or writes a
      stale list. */
  lemma UnpluggingClearsTheHold(states: seq<State>, steps: seq<Step>, r: nat, g: nat, j: nat, t: Target)
    requires IsRun(states, steps) && r < g < j < |steps|
    requires steps[r].action.Read? && FindsUnplugged(states[r].PhaseOf(steps[r].actor), t.bus)
    requires steps[g] == Step(steps[r].actor, WriteBack(true)) && RestsBetween(steps, r, g)
    requires NoNewHold(states, steps, r + 1, j, t.key)
    requires ConsidersAt(states, steps, j, t.key)
    requires LastRead(steps, j, steps[j].actor).Some? && g < LastRead(steps, j, steps[j].actor).value
    requires var phase := states[j].PhaseOf(steps[j].actor);
      phase.pass.targets[phase.n] == t && t.bus !in phase.pass.deauthorized
    requires forall i, e :: LastRead(steps, j, steps[j].actor).value < i < j && FailsAt(states, steps, i, e) ==>
               e.key != t.key
    ensures AttemptsAt(states, steps, j, t.key)
  {
    hide FailsAt, AttemptsAt, CanStep, NextState, AddsNoHold, Inv, BlockUpTo, BusOf, Pruned;
    var q := steps[j].actor;
    var r' := LastRead(steps, j, q).value;
    InvHolds(states, steps, j);
    TargetKey(states[j], q, t);
    forall e | e in states[r'].list
      ensures e.key != t.key
    {
      if e.key == t.key {
        GoneAfterPrune(states, steps, r, g, r', e, t);
      }
    }
    hide ConsidersAt, State.PhaseOf, IsRun;
    NotHeldIsAttempted(states, steps, j, t);
  }

  lemma GoneAfterPrune(states: seq<State>, steps: seq<Step>, r: nat, g: nat, j: nat, e: Entry, t: Target)
    requires IsRun(states, steps) && r < g < j < |steps|
    requires e.key == t.key && BusOf(t.key) == t.bus
    requires steps[r].action.Read? && FindsUnplugged(states[r].PhaseOf(steps[r].actor), t.bus)
    requires steps[g] == Step(steps[r].actor, WriteBack(true)) && RestsBetween(steps, r, g)
    requires NoNewHold(states, steps, r + 1, j, t.key)
    ensures e !in states[j].list
  {
    hide CanStep, NextState, AddsNoHold, BusOf, FindsUnplugged;
    PrunedAway(states, steps, r, g, e, t);
    EntryStaysAway(states, steps, g + 1, j, e);
  }

  lemma TargetKey(s: State, q: nat, t: Target)
    requires Inv(s) && s.PhaseOf(q).Blocking? && t in s.PhaseOf(q).pass.targets
    ensures BusOf(t.key) == t.bus
  {
    hide BusOf;
    BlockingIsValid(s, q);
  }

  lemma NotHeldIsAttempted(states: seq<State>, steps: seq<Step>, j: nat, t: Target)
    requires IsRun(states, steps) && j < |steps| && ConsidersAt(states, steps, j, t.key)
    requires LastRead(steps, j, steps[j].actor).Some?
    requires forall e :: e in states[LastRead(steps, j, steps[j].actor).value].list ==> e.key != t.key
    requires forall i, e :: LastRead(steps, j, steps[j].actor).value < i < j && FailsAt(states, steps, i, e) ==>
               e.key != t.key
    requires var phase := states[j].PhaseOf(steps[j].actor);
      phase.pass.targets[phase.n] == t && t.bus !in phase.pass.deauthorized
    ensures AttemptsAt(states, steps, j, t.key)
  {
    var q := steps[j].actor;
    var phase := states[j].PhaseOf(q);
    KnowsWhatItRead(states, steps, j, q);
    hide InWindow, FailsAt, IsRun, BlockUpTo;
    if e :| e in phase.Entries() && e.key == t.key {
      if e !in phase.reading.kept {
        OwnFailureSinceReading(states, steps, j, q, e);
      }
      assert false;
    }
  }

  /** Nobody who has just read the list has a failure to record. */
  lemma ReadingForgets(s: State, q: nat, a: Action, p: nat, e: Entry)
    requires Enabled(s, q, a)
    ensures HasFailed(After(s, q, a).PhaseOf(p), e) ==> !(p == q && a.Read?)
  {
    hide Written, Pruned;
  }

  lemma AttempterHasReading(states: seq<State>, steps: seq<Step>, k: nat, e: Entry)
    requires k < |steps| && k < |states| && FailsAt(states, steps, k, e)
    ensures states[k].PhaseOf(steps[k].actor).HasReading()
  {
    hide BlockUpTo, BusOf;
  }

  /** A step behind `r` and in front of `k` fails with `e`. */
  ghost predicate FailedBetween(states: seq<State>, steps: seq<Step>, r: nat, k: nat, e: Entry)
    requires k <= |steps| && k <= |states|
  {
    exists i :: r < i < k && FailsAt(states, steps, i, e)
  }

  lemma FailedBetweenStep(states: seq<State>, steps: seq<Step>, r: nat, k: nat, e: Entry)
    requires k < |steps| && k < |states|
    ensures FailedBetween(states, steps, r, k, e) ==> FailedBetween(states, steps, r, k + 1, e)
    ensures r < k && FailsAt(states, steps, k, e) ==> FailedBetween(states, steps, r, k + 1, e)
  {
    hide FailsAt;
  }

  /** A failure that waits to be recorded was made since the pass read the list. */
  lemma {:induction false} OwnFailureSinceReading(states: seq<State>, steps: seq<Step>, k: nat, p: nat, e: Entry)
    requires IsRun(states, steps) && k <= |steps| && HasFailed(states[k].PhaseOf(p), e)
    ensures LastRead(steps, k, p).Some? && FailedBetween(states, steps, LastRead(steps, k, p).value, k, e)
  {
    StartsIdle(states, steps, p);
    hide IsRun, State.PhaseOf, HasFailed, Enabled, After, Inv, FailsAt, Phase.HasReading, ReadIn, FailedBetween;
    if k > 0 {
      StepAt(states, steps, k - 1);
      InvHolds(states, steps, k - 1);
      ReadingForgets(states[k - 1], steps[k - 1].actor, steps[k - 1].action, p, e);
      if HasFailed(states[k - 1].PhaseOf(p), e) {
        OwnFailureSinceReading(states, steps, k - 1, p, e);
      } else {
        FailureIsNew(states, steps, k - 1, p, e);
        AttempterHasReading(states, steps, k - 1, e);
        KnowsWhatItRead(states, steps, k - 1, p);
      }
      FailedBetweenStep(states, steps, LastRead(steps, k - 1, p).value, k - 1, e);
    }
  }

  lemma PrunedAway(states: seq<State>, steps: seq<Step>, r: nat, g: nat, e: Entry, t: Target)
    requires IsRun(states, steps) && r < g < |steps|
    requires e.key == t.key && BusOf(t.key) == t.bus
    requires steps[r].action.Read? && FindsUnplugged(states[r].PhaseOf(steps[r].actor), t.bus)
    requires steps[g] == Step(steps[r].actor, WriteBack(true)) && RestsBetween(steps, r, g)
    requires NoNewHold(states, steps, r + 1, g + 1, t.key)
    ensures e !in states[g + 1].list
  {
    var p := steps[r].actor;
    hide IsRun, Enabled, After, State.PhaseOf, NoNewHold, BusOf, FindsUnplugged;
    StepAt(states, steps, r);
    StepAt(states, steps, g);
    PhaseIsKept(states, steps, r + 1, g, p);
    UnpluggedIsRead(states[r], p, steps[r].action, e, t);
    var reading := states[r + 1].PhaseOf(p).reading;
    ReadingIsWritten(states[g], p, steps[g].action, reading);
    if !reading.dirty {
      ShorterStretch(states, steps, r + 1, g, t.key);
      EntryStaysAway(states, steps, r + 1, g, e);
    }
  }

  lemma UnpluggedIsRead(s: State, p: nat, a: Action, e: Entry, t: Target)
    requires Enabled(s, p, a) && a.Read? && FindsUnplugged(s.PhaseOf(p), t.bus)
    requires e.key == t.key && BusOf(t.key) == t.bus
    ensures After(s, p, a).PhaseOf(p).Pruning?
    ensures var (s', reading) := (After(s, p, a), After(s, p, a).PhaseOf(p).reading);
      e !in reading.kept && (!reading.dirty ==> e !in s'.list)
  {
    hide BusOf, BlockUpTo;
  }

  lemma ReadingIsWritten(s: State, p: nat, a: Action, reading: Reading)
    requires Enabled(s, p, a) && a == WriteBack(true) && s.PhaseOf(p).Pruning? && s.PhaseOf(p).reading == reading
    ensures After(s, p, a).list == if reading.dirty then reading.kept else s.list
  {
  }

  lemma ShorterStretch(states: seq<State>, steps: seq<Step>, i: nat, j: nat, key: string)
    requires IsRun(states, steps) && j < |steps| && NoNewHold(states, steps, i, j + 1, key)
    ensures NoNewHold(states, steps, i, j, key)
  {
    hide IsRun, AddsNoHold;
  }

  // ---------------------------------------------------------------------------
  // When a failed block is attempted again
  // ---------------------------------------------------------------------------

  /** Failures of later attempts carry later times. */
  lemma FailuresAreOrdered(states: seq<State>, steps: seq<Step>, i: nat, b: nat, d: Entry, e: Entry)
    requires IsRun(states, steps) && i < b < |steps| && FailsAt(states, steps, i, d) && FailsAt(states, steps, b, e)
    ensures d.time <= e.time
  {
    var p, q := steps[i].actor, steps[b].actor;
    InvHolds(states, steps, i);
    KnowsWhatItRead(states, steps, b, q);
    ReadInTime(states, steps, b, e.key);
    ReaderHasTheLock(states[i], p);
    ReadingIsPast(states[i], p);
    hide IsRun, BlockUpTo, BusOf, InWindow, Inv;
    var r := LastRead(steps, b, q).value;
    if i <= r {
      TimeGrows(states, steps, i, r);
    } else {
      HeldTheLockSinceReading(states, steps, b, q, i);
      SameReading(states, steps, i, b, q);
    }
  }

  lemma ReadingIsPast(s: State, p: nat)
    requires Inv(s) && s.PhaseOf(p).HasReading()
    ensures s.PhaseOf(p).reading.now <= s.time
  {
    hide Pass.Valid;
    assert PhaseInv(s, s.PhaseOf(p));
  }

  /** Exactly when a failed block is attempted again. The pass of step `b` has recorded the failure in step `i`; since
      then nobody cleared the list, wrote a stale one or found the device unplugged, and no other attempt failed. Then a
      pass that gets to the device attempts it if and only if it read its clock at least 60 seconds after the failing
      pass had read its own, before its attempts. That may be at once if the failing attempt took as long. */
  lemma AttemptedAgainIff(states: seq<State>, steps: seq<Step>, b: nat, i: nat, j: nat, e: Entry)
    requires IsRun(states, steps) && b < i < j < |steps| && FailsAt(states, steps, b, e)
    requires RecordsFailuresOf(steps, b, i) && HoldLasts(states, steps, i + 1, j, e)
    requires forall k, d :: b < k < j && FailsAt(states, steps, k, d) ==> d.key != e.key
    requires ConsidersAt(states, steps, j, e.key)
    requires var phase := states[j].PhaseOf(steps[j].actor);
      phase.pass.targets[phase.n].bus !in phase.pass.deauthorized
    ensures AttemptsAt(states, steps, j, e.key)
        <==> e.time + 60 <= states[j].PhaseOf(steps[j].actor).reading.now
  {
    hide KeepsHold, CanStep, NextState, AttemptsAt, State.PhaseOf;
    if states[j].PhaseOf(steps[j].actor).reading.now < e.time + 60 {
      FailedBlockIsHeldBack(states, steps, b, i, j, e);
    } else {
      forall k, d | 0 <= k < j && FailsAt(states, steps, k, d) && d.key == e.key
        ensures d.time <= e.time
      {
        if k < b {
          FailuresAreOrdered(states, steps, k, b, d, e);
        } else {
          SameFailure(states, steps, b, d, e);
        }
      }
      FirstEntriesAreOlder(states, steps, b, e);
      hide FailsAt;
      DueBlockIsAttempted(states, steps, j, e.key);
    }
  }

  lemma SameFailure(states: seq<State>, steps: seq<Step>, b: nat, d: Entry, e: Entry)
    requires b < |steps| && b < |states| && FailsAt(states, steps, b, e)
    ensures FailsAt(states, steps, b, d) ==> d == e
  {
    hide BlockUpTo, BusOf;
  }

  lemma FirstEntriesAreOlder(states: seq<State>, steps: seq<Step>, b: nat, e: Entry)
    requires IsRun(states, steps) && b < |steps| && FailsAt(states, steps, b, e)
    ensures forall d :: d in states[0].list ==> d.time <= e.time
  {
    ReadInTime(states, steps, b, e.key);
    TimeGrows(states, steps, 0, LastRead(steps, b, steps[b].actor).value);
    hide CanStep, NextState, BlockUpTo, BusOf;
  }

  // ---------------------------------------------------------------------------
  // Where stale lists come from
  // ---------------------------------------------------------------------------

  /** Step `k` ends a prune without the lock, and writes. */
  predicate PrunesUnlocked(states: seq<State>, steps: seq<Step>, k: nat)
    requires k < |steps| && k < |states| && Enabled(states[k], steps[k].actor, steps[k].action)
  {
    RewritesAt(states, steps, k) && states[k].PhaseOf(steps[k].actor).Pruning?
  }

  /** While actor `q` holds the lock, only prunes without the lock change what it read. */
  lemma {:induction false} ChangedByPrune(states: seq<State>, steps: seq<Step>, k: nat, j: nat, q: nat, e: Entry)
    requires IsRun(states, steps) && j <= |steps|
    requires states[j].PhaseOf(q).HasReading() && !states[j].PhaseOf(q).Pruning?
    requires LastRead(steps, j, q).Some? && LastRead(steps, j, q).value <= k <= j
    requires InWindow(e, states[j].PhaseOf(q).pass.connected, states[j].PhaseOf(q).reading.now)
    requires (e in states[LastRead(steps, j, q).value].list) != (e in states[k].list)
    ensures exists i :: LastRead(steps, j, q).value < i < k && steps[i].actor != q && PrunesUnlocked(states, steps, i)
    decreases k
  {
    hide Enabled, After, InWindow, PrunesUnlocked, State.PhaseOf, Phase.HasReading;
    var r := LastRead(steps, j, q).value;
    if (e in states[r].list) != (e in states[k - 1].list) {
      ChangedByPrune(states, steps, k - 1, j, q, e);
    } else if k - 1 == r {
      ListAfterReading(states, steps, r);
    } else {
      ChangedOnce(states, steps, k - 1, j, q, e);
    }
  }

  lemma ListAfterReading(states: seq<State>, steps: seq<Step>, r: nat)
    requires IsRun(states, steps) && r < |steps| && steps[r].action.Read?
    ensures states[r + 1].list == states[r].list
  {
    assert Enabled(states[r], steps[r].actor, steps[r].action);
  }

  lemma ChangedOnce(states: seq<State>, steps: seq<Step>, k: nat, j: nat, q: nat, e: Entry)
    requires IsRun(states, steps) && j <= |steps|
    requires states[j].PhaseOf(q).HasReading() && !states[j].PhaseOf(q).Pruning?
    requires LastRead(steps, j, q).Some? && LastRead(steps, j, q).value < k < j
    requires InWindow(e, states[j].PhaseOf(q).pass.connected, states[j].PhaseOf(q).reading.now)
    requires (e in states[LastRead(steps, j, q).value].list) == (e in states[k].list) != (e in states[k + 1].list)
    ensures steps[k].actor != q && PrunesUnlocked(states, steps, k)
  {
    HeldTheLockSinceReading(states, steps, j, q, k);
    SameReading(states, steps, k, j, q);
    KnowsWhatItRead(states, steps, j, q);
    InvHolds(states, steps, k);
    assert Enabled(states[k], steps[k].actor, steps[k].action);
    assert states[k + 1] == After(states[k], steps[k].actor, steps[k].action);
    hide After, InWindow, IsRun, Inv, Written, PrunesUnlocked, Enabled;
    ChangerPrunes(states, steps, k, q, e);
  }

  /** From its reading on, an actor under the lock keeps its pass and what it read. */
  lemma {:induction false} SameReading(states: seq<State>, steps: seq<Step>, k: nat, j: nat, q: nat)
    requires IsRun(states, steps) && j <= |steps|
    requires states[j].PhaseOf(q).HasReading() && !states[j].PhaseOf(q).Pruning?
    requires LastRead(steps, j, q).Some? && LastRead(steps, j, q).value < k <= j
    ensures states[k].PhaseOf(q).HasReading() && !states[k].PhaseOf(q).Pruning?
    ensures states[k].PhaseOf(q).reading == states[j].PhaseOf(q).reading
    ensures states[k].PhaseOf(q).pass == states[j].PhaseOf(q).pass
    ensures k < j && steps[k].actor == q ==> !steps[k].action.SaveFailures?
    decreases j - k
  {
    hide Enabled, After, State.PhaseOf;
    HeldTheLockSinceReading(states, steps, j, q, k);
    if k < j {
      SameReading(states, steps, k + 1, j, q);
      assert Enabled(states[k], steps[k].actor, steps[k].action);
      SameReadingStep(states[k], steps[k].actor, steps[k].action, q);
    }
  }

  lemma SameReadingStep(s: State, p: nat, a: Action, q: nat)
    requires Enabled(s, p, a) && s.PhaseOf(q).HasReading() && !s.PhaseOf(q).Pruning?
    requires After(s, p, a).PhaseOf(q).HasReading() && !After(s, p, a).PhaseOf(q).Pruning?
    ensures After(s, p, a).PhaseOf(q).reading == s.PhaseOf(q).reading
    ensures After(s, p, a).PhaseOf(q).pass == s.PhaseOf(q).pass
    ensures p == q ==> !a.SaveFailures?
  {
    hide Written, BlockUpTo, Pruned;
  }

  lemma ChangerPrunes(states: seq<State>, steps: seq<Step>, k: nat, q: nat, e: Entry)
    requires k < |steps| < |states| && Inv(states[k]) && Enabled(states[k], steps[k].actor, steps[k].action)
    requires states[k + 1] == After(states[k], steps[k].actor, steps[k].action) && states[k].lock == Some(q)
    requires states[k].PhaseOf(q).HasReading() && !states[k].PhaseOf(q).Pruning?
    requires steps[k].actor == q ==> !steps[k].action.SaveFailures?
    requires (e in states[k].list) == (e in states[k].PhaseOf(q).reading.kept) != (e in states[k + 1].list)
    ensures steps[k].actor != q && PrunesUnlocked(states, steps, k)
  {
    hide PhaseInv, BlockUpTo;
  }

  /** A list that a lock holder writes back stale was made so by a prune without the lock: with the lock held over every
      prune there would be no stale list but those of the unlocked prunes themselves. */
  lemma StaleListsComeFromUnlockedPrunes(states: seq<State>, steps: seq<Step>, k: nat, e: Entry)
    requires IsRun(states, steps) && k < |steps| && IsStaleAt(states, steps, k, e)
    ensures exists i :: 0 <= i <= k && PrunesUnlocked(states, steps, i)
  {
    var q := steps[k].actor;
    if states[k].PhaseOf(q).Pruning? {
      assert PrunesUnlocked(states, steps, k);
    } else {
      KnowsWhatItRead(states, steps, k, q);
      ChangedByPrune(states, steps, k, k, q, e);
    }
  }
}
