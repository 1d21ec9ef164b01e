/**
 The protocol around `trusted_usb.json` (src/engine/badusb.rs, lines 98-131, 201-260 and 491-545): any number of scans
 read the baseline without the lock, try the lock, compare the stamp they read with the current one and save; "Trust
 Devices" restores blocked devices, reads, merges and saves under the lock. Every step of either is one transition, so
 a run is any interleaving.

 A save gives the file a new stamp; a failed save leaves it alone. Nothing else writes the file.
 */
module BaselineProtocol {
  import opened Common
  import opened UsbTrust
  import opened BadUsbScan
  import opened Runs

  datatype Phase =
    | Idle
      // a scan
    | TestedExists(existed: bool)
    | ReadStamp(existed: bool, stamp: Option<nat>)
    | ReadFile(stamp: Option<nat>, base: Baseline)
    | Judged(stamp: Option<nat>, base: Baseline, devices: seq<Snapshot>, armor: bool)
    | Locked(stamp: Option<nat>, base: Baseline, devices: seq<Snapshot>, armor: bool)
    | Saving(base: Baseline, devices: seq<Snapshot>, armor: bool)
    | Blocking(stamp: Option<nat>, base: Baseline, devices: seq<Snapshot>, armor: bool)
      // "Trust Devices"
    | Restoring
    | Merging(entries: seq<Fingerprint>)
    | Finishing
  {
    predicate IsTrustAll() { Restoring? || Merging? || Finishing? }

    predicate HoldsLock() { Locked? || Saving? || Blocking? || IsTrustAll() }

    predicate HasBase() { ReadFile? || HasDevices() }

    predicate HasDevices() { Judged? || Locked? || Saving? || Blocking? }
  }

  /** `saves` numbers the saves so far and stands for the stamp; `blocked` are the de-authorized bus ids. */
  datatype State = State(
    file: Baseline,
    saves: nat,
    lock: Option<nat>,
    actors: map<nat, Phase>,
    blocked: set<string>)
  {
    function PhaseOf(p: nat): Phase {
      if p in actors then actors[p] else Idle
    }

    function Stamp(): Option<nat> {
      if file.Absent? then None else Some(saves)
    }

    function To(p: nat, phase: Phase): State {
      this.(actors := actors[p := phase])
    }
  }

  datatype Action =
    | TestExists
    | TakeStamp
    | Load
    | Judge(devices: seq<Snapshot>, armor: bool)
    | TryLock
    | CheckStamp
    | Save(ok: bool)
    | Block(target: Snapshot)
    | Release
    | LockForTrust
    | Restore(busId: string)
    | LoadForTrust
    | SaveTrust(observed: seq<Observed>, saved: bool)
    | ReleaseTrust
    | Unplug(bus: string)   // by the user, not by the actor

  /** What reading the file yields. */
  function LoadFile(file: Baseline): Baseline {
    match file
    case Readable(devices) => Readable(Loaded(devices))
    case _ => file
  }

  /** A file that was there but cannot be read is corrupt, not absent. */
  function LoadExisting(file: Baseline): Baseline {
    if file.Readable? then LoadFile(file) else Corrupt
  }

  function EntriesOf(file: Baseline): seq<Fingerprint> {
    if file.Readable? then file.devices else []
  }

  predicate Enabled(s: State, p: nat, a: Action) {
    var phase := s.PhaseOf(p);
    match a
    case TestExists => phase.Idle?
    case TakeStamp => phase.TestedExists?
    case Load => phase.ReadStamp?
    case Judge(_, _) => phase.ReadFile?
    case TryLock => phase.Judged?
    case CheckStamp => phase.Locked?
    case Save(_) => phase.Saving?
    case Block(target) => phase.Blocking? && phase.armor && target in Targets(phase.base, phase.devices)
    case Release => phase.Blocking?
    case LockForTrust => phase.Idle? && s.lock == None
    case Restore(_) => phase.Restoring?
    case LoadForTrust => phase.Restoring?
    case SaveTrust(_, _) => phase.Merging?
    case ReleaseTrust => phase.Finishing?
    case Unplug(_) => true
  }

  function Saved(s: State, store: seq<Fingerprint>, ok: bool): State {
    if ok then s.(file := Readable(store), saves := s.saves + 1) else s
  }

  function After(s: State, p: nat, a: Action): State
    requires Enabled(s, p, a)
  {
    var phase := s.PhaseOf(p);
    match a
    case TestExists => s.To(p, TestedExists(!s.file.Absent?))
    case TakeStamp => s.To(p, ReadStamp(phase.existed, s.Stamp()))
    case Load => s.To(p, ReadFile(phase.stamp, if phase.existed then LoadExisting(s.file) else Absent))
    case Judge(devices, armor) => s.To(p, Judged(phase.stamp, phase.base, devices, armor))
    case TryLock =>
      var wantsBlock := phase.armor && Targets(phase.base, phase.devices) != [];
      if (WantsSave(phase.base, phase.devices) || wantsBlock) && s.lock == None
      then s.(lock := Some(p)).To(p, Locked(phase.stamp, phase.base, phase.devices, phase.armor))
      else s.To(p, Idle)
    case CheckStamp =>
      s.To(p, if WantsSave(phase.base, phase.devices) && s.Stamp() == phase.stamp
              then Saving(phase.base, phase.devices, phase.armor)
              else Blocking(phase.stamp, phase.base, phase.devices, phase.armor))
    case Save(ok) =>
      var saved := Saved(s, FinalStore(phase.base, phase.devices), ok);
      saved.To(p, Blocking(saved.Stamp(), phase.base, phase.devices, phase.armor))
    case Block(target) => s.(blocked := s.blocked + {target.busId})
    case Release => s.(lock := None).To(p, Idle)
    case LockForTrust => s.(lock := Some(p)).To(p, Restoring)
    case Restore(busId) => s.(blocked := s.blocked - {busId})
    case LoadForTrust => s.To(p, Merging(EntriesOf(LoadFile(s.file))))
    case SaveTrust(observed, saved) => Saved(s, Merged(phase.entries, observed), saved).To(p, Finishing)
    case ReleaseTrust => s.(lock := None).To(p, Idle)
    case Unplug(bus) => s.(blocked := s.blocked - {bus})
  }

  predicate IsSave(a: Action) {
    (a.Save? && a.ok) || (a.SaveTrust? && a.saved)
  }

  /** No save falls between some scan's exists test, which found no file, and its first reading of the stamp. */
  predicate Calm(s: State, a: Action) {
    IsSave(a) ==> forall q :: q in s.actors ==> s.actors[q] != TestedExists(false)
  }

  /** A scan that found no file saves its first baseline although there is a file by now. */
  predicate IsStaleFirstSave(s: State, p: nat, a: Action) {
    a == Save(true) && s.PhaseOf(p).Saving? && s.PhaseOf(p).base.Absent? && !s.file.Absent?
  }

  // ---------------------------------------------------------------------------
  // Invariant
  // ---------------------------------------------------------------------------

  /** What a scan knows is current unless the file was saved since it read the stamp. A scan that found no file knows
      nothing about the one that may be there now. */
  predicate Current(s: State, stamp: Option<nat>, base: Baseline) {
    && (stamp.Some? ==> stamp.value <= s.saves)
    && (stamp == s.Stamp() && !base.Absent? ==> base == LoadFile(s.file))
  }

  predicate PhaseInv(s: State, phase: Phase) {
    match phase
    case TestedExists(existed) => existed ==> !s.file.Absent?
    case ReadStamp(existed, stamp) =>
      && (stamp.Some? ==> stamp.value <= s.saves)
      && (existed ==> stamp.Some? && !s.file.Absent?)
    case ReadFile(stamp, base) => Current(s, stamp, base)
    case Judged(stamp, base, _, _) => Current(s, stamp, base)
    case Locked(stamp, base, _, _) => Current(s, stamp, base)
    case Saving(base, devices, _) => WantsSave(base, devices) && (!base.Absent? ==> base == LoadFile(s.file))
    case Blocking(stamp, base, devices, _) =>
      stamp == s.Stamp() && !base.Absent? ==>
        base == LoadFile(s.file) || s.file == Readable(FinalStore(base, devices))
    case Merging(entries) => entries == EntriesOf(LoadFile(s.file))
    case _ => true
  }

  ghost predicate Inv(s: State) {
    && (forall p :: p in s.actors ==> PhaseInv(s, s.actors[p]))
    && (forall p :: p in s.actors ==> (s.actors[p].HoldsLock() <==> s.lock == Some(p)))
    && (s.lock.Some? ==> s.lock.value in s.actors)
  }

  predicate Init(s: State) {
    s.lock == None && s.actors == map[]
  }

  /** A save does not disturb what other actors hold: their stamps are old, and none of them holds the lock. */
  lemma PhaseInvAfterSave(s: State, phase: Phase, store: seq<Fingerprint>)
    requires PhaseInv(s, phase) && !phase.HoldsLock()
    ensures PhaseInv(Saved(s, store, true), phase)
  {
  }

  lemma InvAfterSave(s: State, p: nat, store: seq<Fingerprint>, ok: bool, phase: Phase)
    requires Inv(s) && p in s.actors && s.lock == Some(p)
    requires phase.Finishing? || (phase.Blocking? && PhaseInv(Saved(s, store, ok), phase))
    ensures Inv(Saved(s, store, ok).To(p, phase))
  {
    var s' := Saved(s, store, ok).To(p, phase);
    forall q | q in s'.actors
      ensures PhaseInv(s', s'.actors[q])
    {
      if q != p && ok {
        assert !s.actors[q].HoldsLock();
        PhaseInvAfterSave(s, s.actors[q], store);
      }
    }
  }

  lemma InvStep(s: State, p: nat, a: Action)
    requires Inv(s) && Enabled(s, p, a)
    ensures Inv(After(s, p, a))
  {
    var phase := s.PhaseOf(p);
    match a {
      case Save(ok) =>
        var store := FinalStore(phase.base, phase.devices);
        assert PhaseInv(s, phase);
        InvAfterSave(s, p, store, ok, Blocking(Saved(s, store, ok).Stamp(), phase.base, phase.devices, phase.armor));
      case SaveTrust(observed, saved) =>
        InvAfterSave(s, p, Merged(phase.entries, observed), saved, Finishing);
      case _ =>
        hide FinalStore, Targets, WantsSave, Merged;
        InvQuietStep(s, p, a);
    }
  }

  /** An actor moves on without touching the file; the lock is taken, kept or given up accordingly. */
  lemma InvMove(s: State, p: nat, phase: Phase, lock: Option<nat>)
    requires Inv(s) && PhaseInv(s, phase)
    requires lock == if phase.HoldsLock() then Some(p) else if s.lock == Some(p) then None else s.lock
    requires phase.HoldsLock() ==> s.lock == None || s.lock == Some(p)
    ensures Inv(s.(lock := lock).To(p, phase))
  {
    hide Targets, FinalStore, WantsSave;
    var s' := s.(lock := lock).To(p, phase);
    assert forall q :: q in s'.actors ==> s'.actors[q] == if q == p then phase else s.actors[q];
    assert forall x :: PhaseInv(s, x) ==> PhaseInv(s', x);
  }

  lemma InvQuietStep(s: State, p: nat, a: Action)
    requires Inv(s) && Enabled(s, p, a) && !a.Save? && !a.SaveTrust?
    ensures Inv(After(s, p, a))
  {
    hide Targets, FinalStore, Merged;
    var s' := After(s, p, a);
    if a.Block? || a.Restore? || a.Unplug? {
      hide PhaseInv;
      InvSameActors(s, s');
    } else {
      assert p in s.actors ==> PhaseInv(s, s.PhaseOf(p));
      QuietPhaseInv(s, p, a);
      hide PhaseInv, WantsSave;
      InvMove(s, p, s'.actors[p], s'.lock);
    }
  }

  lemma QuietPhaseInv(s: State, p: nat, a: Action)
    requires p in s.actors ==> PhaseInv(s, s.actors[p])
    requires Enabled(s, p, a) && !a.Save? && !a.SaveTrust? && !a.Block? && !a.Restore? && !a.Unplug?
    ensures p in After(s, p, a).actors && PhaseInv(s, After(s, p, a).actors[p])
  {
    hide Targets, FinalStore, Merged, WantsSave;
  }

  lemma InvSameActors(s: State, s': State)
    requires Inv(s) && s' == s.(blocked := s'.blocked)
    ensures Inv(s')
  {
    hide Targets, FinalStore, WantsSave;
    assert forall x :: PhaseInv(s, x) ==> PhaseInv(s', x);
  }

  // ---------------------------------------------------------------------------
  // Every interleaving is serial
  // ---------------------------------------------------------------------------

  /** One operation carried out on the file as it is, with nothing in between. */
  ghost predicate SerialUpdate(file: Baseline, file': Baseline) {
    || file' == file
    || (exists devices :: WantsSave(LoadFile(file), devices) && file' == Readable(FinalStore(LoadFile(file), devices)))
    || (exists observed :: file' == Readable(Merged(EntriesOf(LoadFile(file)), observed)))
  }

  /** Whatever the interleaving, each step changes the file like one whole scan or one whole "Trust Devices" would on
      the file as it is, or, if it is a stale first save, like one whole scan would without a file. */
  lemma StepIsSerial(s: State, p: nat, a: Action)
    requires Inv(s) && Enabled(s, p, a)
    ensures if IsStaleFirstSave(s, p, a)
            then SerialUpdate(Absent, After(s, p, a).file)
            else SerialUpdate(s.file, After(s, p, a).file)
  {
    var phase := s.PhaseOf(p);
    hide FinalStore, Merged, WantsSave;
    assert p in s.actors ==> PhaseInv(s, phase);
    if a == Save(true) {
      assert WantsSave(phase.base, phase.devices);
      assert phase.base == LoadFile(if IsStaleFirstSave(s, p, a) then Absent else s.file);
    }
  }

  /** An entry that is kept for good: its interfaces are known and not empty. */
  predicate Pinned(e: Fingerprint) {
    e.interfaces.Some? && e.interfaces.value != []
  }

  lemma StoresKeepPinned(base: seq<Fingerprint>, devices: seq<Snapshot>, observed: seq<Observed>, e: Fingerprint)
    requires e in base && !e.IsLegacy()
    ensures e in FinalStore(Readable(base), devices) && e in Merged(base, observed)
  {
    FullEntriesSurvive(base, Upgrade(SettledAtFirst(devices)), e);
    FullEntriesSurvive(base, Merge(observed), e);
  }

  lemma SerialUpdateKeepsPinned(file: Baseline, file': Baseline, e: Fingerprint)
    requires SerialUpdate(file, file') && Pinned(e) && e in EntriesOf(file)
    ensures e in EntriesOf(file')
  {
    LoadedKeepsFullEntries(file.devices, e);
    hide FinalStore, Merged, WantsSave, Loaded;
    var base := Loaded(file.devices);
    if file' != file {
      if devices :| WantsSave(LoadFile(file), devices) && file' == Readable(FinalStore(LoadFile(file), devices)) {
        StoresKeepPinned(base, devices, [], e);
      } else {
        var observed :| file' == Readable(Merged(base, observed));
        StoresKeepPinned(base, [], observed, e);
      }
    }
  }

  // ---------------------------------------------------------------------------
  // Runs
  // ---------------------------------------------------------------------------

  datatype Step = Step(actor: nat, action: Action)

  predicate CanStep(s: State, step: Step) {
    Enabled(s, step.actor, step.action)
  }

  function NextState(s: State, step: Step): State {
    if CanStep(s, step) then After(s, step.actor, step.action) else s
  }

  ghost predicate IsRun(states: seq<State>, steps: seq<Step>) {
    Follows(CanStep, NextState, states, steps) && Init(states[0])
  }

  ghost predicate IsCalm(states: seq<State>, steps: seq<Step>)
    requires |states| == |steps| + 1
  {
    forall i :: 0 <= i < |steps| ==> Calm(states[i], steps[i].action)
  }

  lemma {:induction false} InvHolds(states: seq<State>, steps: seq<Step>, i: nat)
    requires IsRun(states, steps) && i < |states|
    ensures Inv(states[i])
  {
    if i > 0 {
      InvHolds(states, steps, i - 1);
      InvStep(states[i - 1], steps[i - 1].actor, steps[i - 1].action);
    }
  }

  lemma NobodyIsAtWork(s: State, p: nat)
    requires Init(s)
    ensures s.PhaseOf(p).Idle?
  {
  }

  /** Which trust is lost, exactly: a step drops an entry with known interfaces if and only if it is a stale first save
      of a snapshot that does not contain it. */
  lemma EntryIsDroppedIff(states: seq<State>, steps: seq<Step>, i: nat, e: Fingerprint)
    requires IsRun(states, steps) && i < |steps| && Pinned(e) && e in EntriesOf(states[i].file)
    ensures e !in EntriesOf(states[i + 1].file) <==>
              && IsStaleFirstSave(states[i], steps[i].actor, steps[i].action)
              && e !in FinalStore(Absent, states[i].PhaseOf(steps[i].actor).devices)
  {
    var s, p, a := states[i], steps[i].actor, steps[i].action;
    assert Enabled(s, p, a) && states[i + 1] == After(s, p, a);
    InvHolds(states, steps, i);
    if !IsStaleFirstSave(s, p, a) {
      StepIsSerial(s, p, a);
      hide Enabled, After, Inv, SerialUpdate, IsStaleFirstSave, FinalStore;
      SerialUpdateKeepsPinned(s.file, states[i + 1].file, e);
    }
  }

  ghost predicate HasStaleFirstSave(states: seq<State>, steps: seq<Step>, i: nat, j: nat)
    requires j <= |steps| && j <= |states|
  {
    exists k :: i <= k < j && IsStaleFirstSave(states[k], steps[k].actor, steps[k].action)
  }

  /** No lost trust: an entry with known interfaces that was once saved is in every later file, unless a stale first
      save comes between. */
  lemma {:induction false} NoLostTrust(states: seq<State>, steps: seq<Step>, i: nat, j: nat, e: Fingerprint)
    requires IsRun(states, steps) && i <= j < |states| && !HasStaleFirstSave(states, steps, i, j)
    requires Pinned(e) && e in EntriesOf(states[i].file)
    ensures e in EntriesOf(states[j].file)
    decreases j
  {
    hide IsStaleFirstSave, Pinned, FinalStore, EntriesOf, Enabled, After;
    if i < j {
      StaleInLonger(states, steps, i, j);
      hide HasStaleFirstSave;
      NoLostTrust(states, steps, i, j - 1, e);
      EntryIsDroppedIff(states, steps, j - 1, e);
    }
  }

  lemma StaleInLonger(states: seq<State>, steps: seq<Step>, i: nat, j: nat)
    requires i < j <= |steps| && j <= |states|
    ensures HasStaleFirstSave(states, steps, i, j)
        <==> || HasStaleFirstSave(states, steps, i, j - 1)
             || IsStaleFirstSave(states[j - 1], steps[j - 1].actor, steps[j - 1].action)
  {
    hide IsStaleFirstSave;
  }

  // ---------------------------------------------------------------------------
  // Where stale first saves come from
  // ---------------------------------------------------------------------------

  /** With the exists test and the first reading of the stamp in one, a scan that found no file has no stamp. */
  predicate CalmPhase(s: State, phase: Phase) {
    match phase
    case TestedExists(existed) => existed || s.file.Absent?
    case ReadStamp(existed, stamp) => existed || stamp.None?
    case ReadFile(stamp, base) => base.Absent? ==> stamp.None?
    case Judged(stamp, base, _, _) => base.Absent? ==> stamp.None?
    case Locked(stamp, base, _, _) => base.Absent? ==> stamp.None?
    case Saving(base, _, _) => base.Absent? ==> s.file.Absent?
    case _ => true
  }

  ghost predicate CalmInv(s: State) {
    forall p :: p in s.actors ==> CalmPhase(s, s.actors[p])
  }

  lemma CalmStep(s: State, p: nat, a: Action)
    requires Inv(s) && CalmInv(s) && Enabled(s, p, a) && Calm(s, a)
    ensures CalmInv(After(s, p, a))
  {
    hide WantsSave, Targets, FinalStore, Merged, PhaseInv;
    var s' := After(s, p, a);
    assert p in s.actors ==> CalmPhase(s, s.PhaseOf(p));
    forall q | q in s'.actors
      ensures CalmPhase(s', s'.actors[q])
    {
      if q != p {
        assert s'.actors[q] == s.actors[q] && CalmPhase(s, s.actors[q]);
        assert IsSave(a) ==> !s.actors[q].HoldsLock();
      }
    }
  }

  /** If no save falls between the two readings of any scan, there is no stale first save in the run. */
  lemma {:induction false} CalmRunHasNoStaleFirstSave(states: seq<State>, steps: seq<Step>, i: nat)
    requires IsRun(states, steps) && IsCalm(states, steps) && i <= |steps|
    ensures CalmInv(states[i]) && !HasStaleFirstSave(states, steps, 0, i)
  {
    hide Inv, Enabled, After, Calm, IsStaleFirstSave;
    if i > 0 {
      CalmRunHasNoStaleFirstSave(states, steps, i - 1);
      InvHolds(states, steps, i - 1);
      var s, p, a := states[i - 1], steps[i - 1].actor, steps[i - 1].action;
      assert CanStep(s, steps[i - 1]) && Calm(s, a);
      hide CalmInv;
      CalmStep(s, p, a);
      CalmActorIsNotStale(s, p, a);
      StaleInLonger(states, steps, 0, i);
    } else {
      NobodyIsStale(states[0]);
    }
  }

  lemma CalmActorIsNotStale(s: State, p: nat, a: Action)
    requires CalmInv(s)
    ensures !IsStaleFirstSave(s, p, a)
  {
    assert p in s.actors ==> CalmPhase(s, s.PhaseOf(p));
  }

  lemma NobodyIsStale(s: State)
    requires Init(s)
    ensures CalmInv(s)
  {
  }

  predicate SawFile(phase: Phase) {
    match phase
    case TestedExists(existed) => existed
    case ReadStamp(existed, _) => existed
    case ReadFile(_, base) => !base.Absent?
    case Judged(_, base, _, _) => !base.Absent?
    case Locked(_, base, _, _) => !base.Absent?
    case Saving(base, _, _) => !base.Absent?
    case _ => true
  }

  lemma SawFileStep(s: State, p: nat, a: Action)
    requires Enabled(s, p, a) && !s.file.Absent? && forall q :: q in s.actors ==> SawFile(s.actors[q])
    ensures !After(s, p, a).file.Absent? && forall q :: q in After(s, p, a).actors ==> SawFile(After(s, p, a).actors[q])
  {
    hide WantsSave, Targets, FinalStore, Merged;
    var s' := After(s, p, a);
    assert p in s.actors ==> SawFile(s.PhaseOf(p));
    assert forall q :: q in s'.actors && q != p ==> s'.actors[q] == s.actors[q];
  }

  lemma {:induction false} FileStays(states: seq<State>, steps: seq<Step>, i: nat)
    requires IsRun(states, steps) && i <= |steps| && !states[0].file.Absent?
    ensures !states[i].file.Absent? && forall q :: q in states[i].actors ==> SawFile(states[i].actors[q])
  {
    if i > 0 {
      FileStays(states, steps, i - 1);
      SawFileStep(states[i - 1], steps[i - 1].actor, steps[i - 1].action);
    }
  }

  /** In a run that starts with a baseline file, in every interleaving of any scans and "Trust Devices" runs, no entry
      with known interfaces is ever lost. */
  lemma NoLostTrustOnceThereIsAFile(states: seq<State>, steps: seq<Step>, i: nat, j: nat, e: Fingerprint)
    requires IsRun(states, steps) && i <= j < |states| && !states[0].file.Absent?
    requires Pinned(e) && e in EntriesOf(states[i].file)
    ensures e in EntriesOf(states[j].file)
  {
    forall k | i <= k < j
      ensures !IsStaleFirstSave(states[k], steps[k].actor, steps[k].action)
    {
      FileStays(states, steps, k);
      assert Enabled(states[k], steps[k].actor, steps[k].action);
    }
    NoLostTrust(states, steps, i, j, e);
  }

  // ---------------------------------------------------------------------------
  // The lock
  // ---------------------------------------------------------------------------

  /** The lock is exclusive: at most one actor may save, block or restore at any moment. */
  lemma LockIsExclusive(states: seq<State>, steps: seq<Step>, i: nat, p: nat, q: nat)
    requires IsRun(states, steps) && i < |states|
    requires states[i].PhaseOf(p).HoldsLock() && states[i].PhaseOf(q).HoldsLock()
    ensures p == q
  {
    InvHolds(states, steps, i);
  }

  /** Whoever finishes gives the lock up, for any other to take. */
  lemma LockIsGivenUp(states: seq<State>, steps: seq<Step>, i: nat)
    requires IsRun(states, steps) && i < |steps| && (steps[i].action.Release? || steps[i].action.ReleaseTrust?)
    ensures states[i].lock == Some(steps[i].actor) && states[i + 1].lock == None
    ensures states[i + 1].PhaseOf(steps[i].actor).Idle?
  {
    InvHolds(states, steps, i);
    assert CanStep(states[i], steps[i]);
    hide PhaseInv;
  }

  /** While "Trust Devices" runs, nothing is de-authorized behind its back. */
  lemma {:induction false} NothingBlockedDuringTrustAll(
    states: seq<State>, steps: seq<Step>, i: nat, j: nat, t: nat)
    requires IsRun(states, steps) && i <= j < |states|
    requires forall k :: i <= k <= j ==> states[k].PhaseOf(t).IsTrustAll()
    ensures states[j].blocked <= states[i].blocked
    decreases j
  {
    hide Inv, After, Enabled, State.PhaseOf, Phase.IsTrustAll;
    if i < j {
      NothingBlockedDuringTrustAll(states, steps, i, j - 1, t);
      InvHolds(states, steps, j - 1);
      NothingBlockedByStep(states[j - 1], steps[j - 1].actor, steps[j - 1].action, t);
    }
  }

  lemma NothingBlockedByStep(s: State, p: nat, a: Action, t: nat)
    requires Inv(s) && Enabled(s, p, a) && s.PhaseOf(t).IsTrustAll()
    ensures After(s, p, a).blocked <= s.blocked
  {
    hide PhaseInv, FinalStore, Merged, WantsSave, Targets;
    assert s.PhaseOf(t).HoldsLock() && s.lock == Some(t);
    assert a.Block? ==> s.PhaseOf(p).HoldsLock();
  }

  // ---------------------------------------------------------------------------
  // What is blocked
  // ---------------------------------------------------------------------------

  /** The step de-authorizes the device at `bus`, re-authorizes it, or finds it gone. */
  predicate Concerns(a: Action, bus: string) {
    match a
    case Block(target) => target.busId == bus
    case Restore(busId) => busId == bus
    case Unplug(gone) => gone == bus
    case _ => false
  }

  /** The last step before `j` that concerns the device at `bus`. */
  function LastConcern(steps: seq<Step>, j: nat, bus: string): (r: Option<nat>)
    requires j <= |steps|
    ensures r.Some? ==> r.value < j && Concerns(steps[r.value].action, bus)
    ensures forall k :: (if r.Some? then r.value + 1 else 0) <= k < j ==> !Concerns(steps[k].action, bus)
  {
    if j == 0 then None
    else if Concerns(steps[j - 1].action, bus) then Some(j - 1)
    else LastConcern(steps, j - 1, bus)
  }

  /** In every interleaving, what is de-authorized is what a scan blocked and neither "Trust Devices" restored nor the
      user unplugged since, and what was de-authorized at the start and none of them touched. */
  lemma {:induction false} BlockedIff(states: seq<State>, steps: seq<Step>, j: nat, bus: string)
    requires IsRun(states, steps) && j <= |steps|
    ensures bus in states[j].blocked <==>
              match LastConcern(steps, j, bus)
              case Some(k) => steps[k].action.Block?
              case None => bus in states[0].blocked
  {
    hide Enabled, Init;
    if j > 0 {
      BlockedIff(states, steps, j - 1, bus);
      assert CanStep(states[j - 1], steps[j - 1]);
      BlockedStep(states[j - 1], steps[j - 1].actor, steps[j - 1].action, bus);
      hide After;
    }
  }

  lemma BlockedStep(s: State, p: nat, a: Action, bus: string)
    requires Enabled(s, p, a)
    ensures bus in After(s, p, a).blocked <==> if Concerns(a, bus) then a.Block? else bus in s.blocked
  {
    hide FinalStore, Merged, WantsSave, Targets, LoadFile, LoadExisting;
  }

  /** The last step before `j` in which actor `p` judged the devices. */
  function LastJudge(steps: seq<Step>, j: nat, p: nat): (r: Option<nat>)
    requires j <= |steps|
    ensures r.Some? ==> r.value < j && steps[r.value].actor == p && steps[r.value].action.Judge?
    ensures r.Some? ==> forall k :: r.value < k < j ==> !(steps[k].actor == p && steps[k].action.Judge?)
  {
    if j == 0 then None
    else if steps[j - 1].actor == p && steps[j - 1].action.Judge? then Some(j - 1)
    else LastJudge(steps, j - 1, p)
  }

  /** A scan goes by the devices and the switch it read last. */
  lemma {:induction false} GoesByJudgement(states: seq<State>, steps: seq<Step>, j: nat, p: nat)
    requires IsRun(states, steps) && j <= |steps| && states[j].PhaseOf(p).HasDevices()
    ensures LastJudge(steps, j, p).Some?
    ensures var a := steps[LastJudge(steps, j, p).value].action;
      states[j].PhaseOf(p).devices == a.devices && states[j].PhaseOf(p).armor == a.armor
  {
    NobodyIsAtWork(states[0], p);
    hide Enabled, After, State.PhaseOf, Init;
    if j > 0 {
      assert CanStep(states[j - 1], steps[j - 1]);
      JudgementStep(states[j - 1], steps[j - 1].actor, steps[j - 1].action, p);
      if !(steps[j - 1].actor == p && steps[j - 1].action.Judge?) {
        GoesByJudgement(states, steps, j - 1, p);
      }
    }
  }

  lemma JudgementStep(s: State, q: nat, a: Action, p: nat)
    requires Enabled(s, q, a) && After(s, q, a).PhaseOf(p).HasDevices()
    ensures var phase := After(s, q, a).PhaseOf(p);
      if p == q && a.Judge? then phase.devices == a.devices && phase.armor == a.armor
      else
        && s.PhaseOf(p).HasDevices() && s.PhaseOf(p).devices == phase.devices && s.PhaseOf(p).armor == phase.armor
  {
    hide WantsSave, Targets, FinalStore, Merged, LoadFile, LoadExisting;
  }

  /** A scan de-authorizes a device only with USB Armor on, holding the lock, and when it saw it as one that may be
      severed: not blocked, not enumerating, no hub and no root hub. */
  lemma BlockIsJustified(states: seq<State>, steps: seq<Step>, i: nat)
    requires IsRun(states, steps) && i < |steps| && steps[i].action.Block?
    ensures LastJudge(steps, i, steps[i].actor).Some? && states[i].lock == Some(steps[i].actor)
    ensures var a, d := steps[LastJudge(steps, i, steps[i].actor).value].action, steps[i].action.target;
      && a.armor && d in a.devices && !d.blocked && !d.enumerating
      && !(|d.busId| >= 3 && d.busId[..3] == ['u', 's', 'b'])
      && !(&& d.fp.interfaces.Some? && d.fp.interfaces.value != []
           && forall i :: i in d.fp.interfaces.value ==> IsOfClass(i, "09"))
  {
    InvHolds(states, steps, i);
    assert CanStep(states[i], steps[i]);
    GoesByJudgement(states, steps, i, steps[i].actor);
    var phase := states[i].PhaseOf(steps[i].actor);
    TargetSpelledOut(FinalStore(phase.base, phase.devices), phase.devices, steps[i].action.target);
    hide IsRun, PhaseInv, FinalStore, CanStep, TargetsIn, IsOfClass;
  }

  /** A scan gets the lock exactly when it is free and the scan has something to save, or something to block with USB
      Armor on; otherwise it is over. */
  lemma LocksIff(states: seq<State>, steps: seq<Step>, i: nat)
    requires IsRun(states, steps) && i < |steps| && steps[i].action.TryLock?
    ensures var p := steps[i].actor; var phase := states[i].PhaseOf(p);
      && LastJudge(steps, i, p).Some? && phase.Judged?
      && var a := steps[LastJudge(steps, i, p).value].action;
      && (states[i + 1].PhaseOf(p).Locked? <==>
            && states[i].lock == None
            && (WantsSave(phase.base, a.devices) || (a.armor && exists d :: d in Targets(phase.base, a.devices))))
      && (!states[i + 1].PhaseOf(p).Locked? ==> states[i + 1].PhaseOf(p).Idle?)
  {
    assert CanStep(states[i], steps[i]);
    GoesByJudgement(states, steps, i, steps[i].actor);
    hide IsRun, FinalStore, CanStep, TargetsIn, WantsSave;
    TargetExists(states[i].PhaseOf(steps[i].actor).base, states[i].PhaseOf(steps[i].actor).devices);
  }

  lemma TargetExists(base: Baseline, devices: seq<Snapshot>)
    ensures Targets(base, devices) != [] <==> exists d :: d in Targets(base, devices)
  {
    hide Targets;
    if Targets(base, devices) != [] {
      assert Targets(base, devices)[0] in Targets(base, devices);
    }
  }

  /** With the lock, a scan goes on to save exactly when it wants to and the stamp is still the one it read. */
  lemma SavesIff(states: seq<State>, steps: seq<Step>, i: nat)
    requires IsRun(states, steps) && i < |steps| && steps[i].action.CheckStamp?
    ensures var p := steps[i].actor; var phase := states[i].PhaseOf(p);
      && LastJudge(steps, i, p).Some? && phase.Locked?
      && var a := steps[LastJudge(steps, i, p).value].action;
      && (states[i + 1].PhaseOf(p).Saving? <==>
            WantsSave(phase.base, a.devices) && states[i].Stamp() == phase.stamp)
      && (!states[i + 1].PhaseOf(p).Saving? ==> states[i + 1].PhaseOf(p).Blocking?)
  {
    assert CanStep(states[i], steps[i]);
    GoesByJudgement(states, steps, i, steps[i].actor);
    hide IsRun, FinalStore, CanStep, TargetsIn, WantsSave;
  }

  // ---------------------------------------------------------------------------
  // A save between the two readings
  // ---------------------------------------------------------------------------

  /** A whole "Trust Devices" run over a baseline without entries. */
  lemma TrustRun(s: State, observed: seq<Observed>) returns (steps: seq<Step>)
    requires s.lock == None && s.PhaseOf(2).Idle? && EntriesOf(LoadFile(s.file)) == []
    ensures Legal(CanStep, NextState, s, steps)
    ensures Final(NextState, s, steps).file == Readable(Merged([], observed))
    ensures Final(NextState, s, steps).saves == s.saves + 1
    ensures Final(NextState, s, steps).lock == None && Final(NextState, s, steps).PhaseOf(1) == s.PhaseOf(1)
  {
    hide Legal, Final, StatesOf, Merged, LoadFile, EntriesOf;
    NoSteps(CanStep, NextState, s);
    steps := [];
    Then(CanStep, NextState, s, steps, Step(2, LockForTrust));
    steps := steps + [Step(2, LockForTrust)];
    Then(CanStep, NextState, s, steps, Step(2, LoadForTrust));
    steps := steps + [Step(2, LoadForTrust)];
    Then(CanStep, NextState, s, steps, Step(2, SaveTrust(observed, true)));
    steps := steps + [Step(2, SaveTrust(observed, true))];
    Then(CanStep, NextState, s, steps, Step(2, ReleaseTrust));
    steps := steps + [Step(2, ReleaseTrust)];
  }

  /** It runs while scan 1 stands between its exists test and its first stamp. */
  lemma TrustInTheWindow(s: State, observed: seq<Observed>) returns (steps: seq<Step>)
    requires s == State(Absent, 0, None, map[], {})
    ensures Legal(CanStep, NextState, s, steps)
    ensures Final(NextState, s, steps).file == Readable(Merged([], observed))
    ensures Final(NextState, s, steps).lock == None && Final(NextState, s, steps).PhaseOf(1) == TestedExists(false)
  {
    NoSteps(CanStep, NextState, s);
    Then(CanStep, NextState, s, [], Step(1, TestExists));
    hide Legal, Final, StatesOf, Merged;
    var first := [] + [Step(1, TestExists)];
    var second := TrustRun(Final(NextState, s, first), observed);
    Concatenated(CanStep, NextState, s, first, second);
    steps := first + second;
  }

  /** Scan 1 goes on from there with nothing connected, gets the lock and saves. */
  lemma FirstScanSaves(s: State) returns (steps: seq<Step>)
    requires s.lock == None && s.PhaseOf(1) == TestedExists(false)
    ensures Legal(CanStep, NextState, s, steps) && Final(NextState, s, steps).file == Readable(FinalStore(Absent, []))
  {
    assert WantsSave(Absent, []);
    hide Legal, Final, StatesOf, FinalStore, WantsSave, Targets;
    var first := FirstScanJudges(s);
    var t := Final(NextState, s, first);
    NoSteps(CanStep, NextState, t);
    var second: seq<Step> := [];
    Then(CanStep, NextState, t, second, Step(1, TryLock));
    second := second + [Step(1, TryLock)];
    Then(CanStep, NextState, t, second, Step(1, CheckStamp));
    second := second + [Step(1, CheckStamp)];
    Then(CanStep, NextState, t, second, Step(1, Save(true)));
    second := second + [Step(1, Save(true))];
    Concatenated(CanStep, NextState, s, first, second);
    steps := first + second;
  }

  lemma FirstScanJudges(s: State) returns (steps: seq<Step>)
    requires s.lock == None && s.PhaseOf(1) == TestedExists(false)
    ensures Legal(CanStep, NextState, s, steps)
    ensures Final(NextState, s, steps).lock == None
    ensures Final(NextState, s, steps).file == s.file && Final(NextState, s, steps).Stamp() == s.Stamp()
    ensures Final(NextState, s, steps).PhaseOf(1) == Judged(s.Stamp(), Absent, [], false)
  {
    hide Legal, Final, StatesOf;
    NoSteps(CanStep, NextState, s);
    steps := [];
    Then(CanStep, NextState, s, steps, Step(1, TakeStamp));
    steps := steps + [Step(1, TakeStamp)];
    Then(CanStep, NextState, s, steps, Step(1, Load));
    steps := steps + [Step(1, Load)];
    Then(CanStep, NextState, s, steps, Step(1, Judge([], false)));
    steps := steps + [Step(1, Judge([], false))];
  }

  /** The two readings a scan makes before it loads the file are not one: a first save between them is overwritten. */
  lemma SaveInTheWindowIsLost() returns (states: seq<State>, steps: seq<Step>, e: Fingerprint, i: nat, j: nat)
    ensures IsRun(states, steps)
    ensures i <= j < |states| && Pinned(e) && e in EntriesOf(states[i].file) && e !in EntriesOf(states[j].file)
  {
    hide Legal, Final, StatesOf, Follows, Enabled, After, EntriesOf, CanStep, NextState, Init;
    var s, first, second;
    s, first, second, e := LostSaveRun();
    Concatenated(CanStep, NextState, s, first, second);
    steps := first + second;
    EndsInFinal(CanStep, NextState, s, steps);
    LegalFollows(CanStep, NextState, s, steps);
    states, i, j := StatesOf(NextState, s, steps), |first|, |steps|;
  }

  lemma LostSaveRun() returns (s: State, first: seq<Step>, second: seq<Step>, e: Fingerprint)
    ensures Init(s) && Legal(CanStep, NextState, s, first)
    ensures Pinned(e) && e in EntriesOf(Final(NextState, s, first).file)
    ensures Legal(CanStep, NextState, Final(NextState, s, first), second)
    ensures e !in EntriesOf(Final(NextState, Final(NextState, s, first), second).file)
  {
    var keyboard := Fingerprint("046d", "c31c", None, Some(["03:01:01"]), None);
    var observed := [Observed(keyboard, false, false)];
    MergeCovers([], observed, observed[0], keyboard);
    e :| e in Merged([], observed) && !e.IsLegacy() && e.Matches(keyboard);
    assert FinalStore(Absent, []) == [];
    hide Legal, Final, StatesOf, FinalStore, Merged, CanStep, NextState;
    s := State(Absent, 0, None, map[], {});
    first := TrustInTheWindow(s, observed);
    second := FirstScanSaves(Final(NextState, s, first));
  }

  // ---------------------------------------------------------------------------
  // Blocks of devices that the file vouches for by now
  // ---------------------------------------------------------------------------

  lemma LoadingKeepsTrust(devices: seq<Fingerprint>, d: Fingerprint)
    requires Vouched(devices, d)
    ensures Vouched(Loaded(devices), d)
  {
    var e :| e in devices && e.Matches(d);
    var k :| 0 <= k < |devices| && devices[k] == e;
    assert Loaded(devices)[k] == Normalised(e);
    assert Normalised(e) in Loaded(devices) && Normalised(e).Matches(d);
  }

  /** A scan de-authorizes a settled device that the file vouches for only if the file was saved since the scan read its
      stamp: with a test of the stamp in front of the block it never would. */
  lemma BlockOfTrustedDeviceIsStale(states: seq<State>, steps: seq<Step>, i: nat)
    requires IsRun(states, steps) && i < |steps| && steps[i].action.Block?
    requires steps[i].action.target.settledAtFirst && !steps[i].action.target.fp.IsLegacy()
    requires Vouched(EntriesOf(states[i].file), steps[i].action.target.fp)
    ensures states[i].PhaseOf(steps[i].actor).Blocking?
    ensures states[i].PhaseOf(steps[i].actor).stamp != states[i].Stamp()
  {
    InvHolds(states, steps, i);
    assert CanStep(states[i], steps[i]);
    TargetIsStale(states[i], steps[i].actor, steps[i].action.target);
  }

  lemma TargetIsStale(s: State, p: nat, d: Snapshot)
    requires Inv(s) && Enabled(s, p, Block(d)) && d.settledAtFirst && !d.fp.IsLegacy()
    requires Vouched(EntriesOf(s.file), d.fp)
    ensures s.PhaseOf(p).Blocking? && s.PhaseOf(p).stamp != s.Stamp()
  {
    hide FinalStore, WantsSave, Vouched, Loaded, TargetsIn;
    var phase := s.PhaseOf(p);
    assert PhaseInv(s, phase);
    hide Inv;
    TargetIffNotInLoadedBaseline(phase.base.devices, phase.devices, d);
    LoadingKeepsTrust(EntriesOf(s.file), d.fp);
    TargetIsNotVouched(FinalStore(phase.base, phase.devices), phase.devices, d);
  }

  lemma TargetIsNotVouched(store: seq<Fingerprint>, devices: seq<Snapshot>, d: Snapshot)
    requires d in TargetsIn(store, devices)
    ensures !Vouched(store, d.fp)
  {
    hide Vouched;
  }

  /** The last step before `k` in which actor `p` loaded the file for a scan. */
  function LastLoad(steps: seq<Step>, k: nat, p: nat): (r: Option<nat>)
    requires k <= |steps|
    ensures r.Some? ==> r.value < k && steps[r.value] == Step(p, Load)
    ensures r.Some? ==> forall i :: r.value < i < k ==> steps[i] != Step(p, Load)
  {
    if k == 0 then None
    else if steps[k - 1] == Step(p, Load) then Some(k - 1)
    else LastLoad(steps, k - 1, p)
  }

  /** What a scan works with is the file as it was when it loaded it. */
  lemma {:induction false} KnowsWhatItLoaded(states: seq<State>, steps: seq<Step>, k: nat, p: nat)
    requires IsRun(states, steps) && k <= |steps| && states[k].PhaseOf(p).HasBase()
    ensures LastLoad(steps, k, p).Some?
    ensures var base := states[k].PhaseOf(p).base;
      base.Absent? || base == LoadExisting(states[LastLoad(steps, k, p).value].file)
  {
    NobodyIsAtWork(states[0], p);
    hide Enabled, After, State.PhaseOf, LoadExisting, Init;
    if k > 0 {
      assert Enabled(states[k - 1], steps[k - 1].actor, steps[k - 1].action);
      BaseStep(states[k - 1], steps[k - 1].actor, steps[k - 1].action, p);
      if steps[k - 1] != Step(p, Load) {
        KnowsWhatItLoaded(states, steps, k - 1, p);
      }
    }
  }

  lemma BaseStep(s: State, q: nat, a: Action, p: nat)
    requires Enabled(s, q, a) && After(s, q, a).PhaseOf(p).HasBase()
    ensures var base := After(s, q, a).PhaseOf(p).base;
      if p == q && a.Load? then base.Absent? || base == LoadExisting(s.file)
      else s.PhaseOf(p).HasBase() && s.PhaseOf(p).base == base
  {
    hide WantsSave, Targets, FinalStore, Merged, LoadFile;
  }

  /** Step `k` is a save that adds the entry to the file. */
  predicate BringsIn(states: seq<State>, steps: seq<Step>, k: nat, e: Fingerprint)
    requires k < |steps| < |states|
  {
    IsSave(steps[k].action) && e !in EntriesOf(states[k].file) && e in EntriesOf(states[k + 1].file)
  }

  /** From behind step `k` up to state `j` the entry is in the file. */
  ghost predicate StaysBehind(states: seq<State>, k: nat, j: nat, e: Fingerprint)
    requires j < |states|
  {
    forall n :: k < n <= j ==> e in EntriesOf(states[n].file)
  }

  lemma {:induction false} CameIn(states: seq<State>, steps: seq<Step>, i: nat, j: nat, e: Fingerprint)
    requires IsRun(states, steps) && i <= j <= |steps|
    requires e !in EntriesOf(states[i].file) && e in EntriesOf(states[j].file)
    ensures exists k :: i <= k < j && BringsIn(states, steps, k, e) && StaysBehind(states, k, j, e)
    decreases j
  {
    hide EntriesOf, CanStep, NextState;
    if e in EntriesOf(states[j - 1].file) {
      CameIn(states, steps, i, j - 1, e);
      var k :| i <= k < j - 1 && BringsIn(states, steps, k, e) && StaysBehind(states, k, j - 1, e);
      assert StaysBehind(states, k, j, e);
    } else {
      OnlySavesChange(states, steps, j - 1);
      assert BringsIn(states, steps, j - 1, e) && StaysBehind(states, j - 1, j, e);
    }
  }

  lemma OnlySavesChange(states: seq<State>, steps: seq<Step>, k: nat)
    requires IsRun(states, steps) && k < |steps|
    ensures states[k + 1].file != states[k].file ==> IsSave(steps[k].action)
  {
    hide WantsSave, Targets, FinalStore, Merged, LoadFile, LoadExisting, Init;
    assert CanStep(states[k], steps[k]);
  }

  /** When a scan de-authorizes a settled device, the file vouches for it if and only if a save since the scan loaded
      the file has brought in an entry that matches the device, and the entry is still there. */
  lemma BlockHitsTrustedIff(states: seq<State>, steps: seq<Step>, i: nat)
    requires IsRun(states, steps) && i < |steps| && steps[i].action.Block?
    requires steps[i].action.target.settledAtFirst && !steps[i].action.target.fp.IsLegacy()
    ensures LastLoad(steps, i, steps[i].actor).Some?
    ensures var l := LastLoad(steps, i, steps[i].actor).value;
      Vouched(EntriesOf(states[i].file), steps[i].action.target.fp) <==>
      exists k, e: Fingerprint :: l <= k < i && e.Matches(steps[i].action.target.fp)
                                  && BringsIn(states, steps, k, e) && StaysBehind(states, k, i, e)
  {
    NotVouchedWhenLoaded(states, steps, i);
    hide CanStep, NextState, EntriesOf, Fingerprint.Matches;
    var l := LastLoad(steps, i, steps[i].actor).value;
    var d := steps[i].action.target.fp;
    if Vouched(EntriesOf(states[i].file), d) {
      var e :| e in EntriesOf(states[i].file) && e.Matches(d);
      CameIn(states, steps, l, i, e);
    } else {
      forall k, e: Fingerprint | l <= k < i && StaysBehind(states, k, i, e)
        ensures !e.Matches(d)
      {
        assert e in EntriesOf(states[i].file);
      }
    }
  }

  /** The file a scan loaded does not vouch for a settled device that it de-authorizes. */
  lemma NotVouchedWhenLoaded(states: seq<State>, steps: seq<Step>, i: nat)
    requires IsRun(states, steps) && i < |steps| && steps[i].action.Block?
    requires steps[i].action.target.settledAtFirst && !steps[i].action.target.fp.IsLegacy()
    ensures LastLoad(steps, i, steps[i].actor).Some?
    ensures !Vouched(EntriesOf(states[LastLoad(steps, i, steps[i].actor).value].file), steps[i].action.target.fp)
  {
    var p, d := steps[i].actor, steps[i].action.target;
    assert CanStep(states[i], steps[i]);
    var phase := states[i].PhaseOf(p);
    KnowsWhatItLoaded(states, steps, i, p);
    hide IsRun, CanStep, FinalStore, Vouched, Loaded, TargetsIn;
    TargetIffNotInLoadedBaseline(phase.base.devices, phase.devices, d);
    var file := states[LastLoad(steps, i, p).value].file;
    if Vouched(EntriesOf(file), d.fp) {
      LoadingKeepsTrust(EntriesOf(file), d.fp);
    }
  }

  /** "Trust Devices" trusts a keyboard between a scan's reading of the file and its lock; the scan then blocks it. */
  lemma TrustedDeviceMayBeBlocked() returns (states: seq<State>, steps: seq<Step>, d: Snapshot, i: nat)
    ensures IsRun(states, steps) && i < |steps| && steps[i].action == Block(d)
    ensures d.settledAtFirst && !d.fp.IsLegacy() && Vouched(EntriesOf(states[i].file), d.fp)
    ensures d.busId in states[i + 1].blocked
  {
    hide Legal, Final, StatesOf, Follows, Enabled, After, EntriesOf, CanStep, NextState, Init, Vouched;
    var start, before;
    start, before, d := TrustedTargetRun();
    var last := Step(1, Block(d));
    Then(CanStep, NextState, start, before, last);
    BlockBlocks(Final(NextState, start, before), d);
    i, steps := |before|, before + [last];
    EndsInFinal(CanStep, NextState, start, steps);
    LegalFollows(CanStep, NextState, start, steps);
    states := StatesOf(NextState, start, steps);
  }

  lemma BlockBlocks(s: State, d: Snapshot)
    requires CanStep(s, Step(1, Block(d)))
    ensures d.busId in NextState(s, Step(1, Block(d))).blocked
  {
    hide Targets;
  }

  lemma TrustedTargetRun() returns (start: State, steps: seq<Step>, d: Snapshot)
    ensures Init(start) && Legal(CanStep, NextState, start, steps)
    ensures CanStep(Final(NextState, start, steps), Step(1, Block(d)))
    ensures d.settledAtFirst && !d.fp.IsLegacy() && Vouched(EntriesOf(Final(NextState, start, steps).file), d.fp)
  {
    var keyboard := Fingerprint("046d", "c31c", None, Some(["03:01:01"]), None);
    d := Snapshot("1-1", keyboard, true, false, false, false);
    var devices, observed := [d], [Observed(keyboard, false, false)];
    KeyboardIsTarget(d, devices);
    MergeCovers([], observed, observed[0], keyboard);
    assert Vouched(Merged([], observed), keyboard);
    hide Merged, Vouched, Targets, Legal, Final, StatesOf, Enabled;
    start := State(Readable([]), 0, None, map[], {});
    var first := TrustBehindScan(start, devices, observed);
    var second := ScanGoesOn(Final(NextState, start, first), d, devices);
    Concatenated(CanStep, NextState, start, first, second);
    steps := first + second;
  }

  /** Scan 1 judges the devices by an empty file, then "Trust Devices" runs. */
  lemma TrustBehindScan(s: State, devices: seq<Snapshot>, observed: seq<Observed>) returns (steps: seq<Step>)
    requires s == State(Readable([]), 0, None, map[], {})
    ensures Legal(CanStep, NextState, s, steps)
    ensures Final(NextState, s, steps).PhaseOf(1) == Judged(Some(0), Readable([]), devices, true)
    ensures Final(NextState, s, steps).file == Readable(Merged([], observed)) && Final(NextState, s, steps).saves == 1
    ensures Final(NextState, s, steps).lock == None
  {
    var first := ScanJudges(s, devices);
    assert Loaded([]) == [];
    hide Legal, Final, StatesOf, Merged;
    var second := TrustRun(Final(NextState, s, first), observed);
    Concatenated(CanStep, NextState, s, first, second);
    steps := first + second;
  }

  lemma ScanJudges(s: State, devices: seq<Snapshot>) returns (steps: seq<Step>)
    requires s == State(Readable([]), 0, None, map[], {})
    ensures Legal(CanStep, NextState, s, steps)
    ensures Final(NextState, s, steps) == s.To(1, Judged(Some(0), Readable([]), devices, true))
  {
    assert Loaded([]) == [];
    hide Legal, Final, StatesOf;
    NoSteps(CanStep, NextState, s);
    steps := [];
    Then(CanStep, NextState, s, steps, Step(1, TestExists));
    steps := steps + [Step(1, TestExists)];
    Then(CanStep, NextState, s, steps, Step(1, TakeStamp));
    steps := steps + [Step(1, TakeStamp)];
    Then(CanStep, NextState, s, steps, Step(1, Load));
    steps := steps + [Step(1, Load)];
    Then(CanStep, NextState, s, steps, Step(1, Judge(devices, true)));
    steps := steps + [Step(1, Judge(devices, true))];
  }

  /** Scan 1 gets the lock and finds another stamp. */
  lemma ScanGoesOn(s: State, d: Snapshot, devices: seq<Snapshot>) returns (steps: seq<Step>)
    requires s.PhaseOf(1) == Judged(Some(0), Readable([]), devices, true) && s.lock == None
    requires s.file.Readable? && s.saves == 1 && d in Targets(Readable([]), devices)
    ensures Legal(CanStep, NextState, s, steps)
    ensures Enabled(Final(NextState, s, steps), 1, Block(d)) && Final(NextState, s, steps).file == s.file
  {
    hide Legal, Final, StatesOf, CanStep, NextState;
    NoSteps(CanStep, NextState, s);
    steps := [];
    ScanLocks(s, d, devices);
    Then(CanStep, NextState, s, steps, Step(1, TryLock));
    steps := steps + [Step(1, TryLock)];
    Then(CanStep, NextState, s, steps, Step(1, CheckStamp));
    steps := steps + [Step(1, CheckStamp)];
  }

  lemma ScanLocks(s: State, d: Snapshot, devices: seq<Snapshot>)
    requires s.PhaseOf(1) == Judged(Some(0), Readable([]), devices, true) && s.lock == None
    requires s.file.Readable? && s.saves == 1 && d in Targets(Readable([]), devices)
    ensures CanStep(s, Step(1, TryLock)) && CanStep(NextState(s, Step(1, TryLock)), Step(1, CheckStamp))
    ensures var t := NextState(NextState(s, Step(1, TryLock)), Step(1, CheckStamp));
      Enabled(t, 1, Block(d)) && t.file == s.file
  {
    assert Targets(Readable([]), devices) != [];
    hide FinalStore, Targets, WantsSave;
  }

  lemma KeyboardIsTarget(d: Snapshot, devices: seq<Snapshot>)
    requires d.fp == Fingerprint("046d", "c31c", None, Some(["03:01:01"]), None)
    requires d == Snapshot("1-1", d.fp, true, false, false, false)
    requires devices == [d]
    ensures Targets(Readable([]), devices) != [] && d in Targets(Readable([]), devices)
  {
    EligibleHid(d, "03:01:01");
    TargetIffNotInLoadedBaseline([], devices, d);
  }
}
