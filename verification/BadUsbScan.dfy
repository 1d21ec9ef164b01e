/**
 The decisions of one BadUSB pass (src/engine/badusb.rs, lines 92-204 and 432-458): which devices it wants to
 de-authorize and whether it wants to save the baseline.

 Every reading of sysfs is a field of the snapshot. The pass reads a device's enumeration state twice and its
 authorization twice, at different moments, so each reading has its own field.
 */
module BadUsbScan {
  import opened Common
  import opened UsbTrust

  datatype Snapshot = Snapshot(
    busId: string,
    fp: Fingerprint,
    settledAtFirst: bool,   // not enumerating when the migration chose its devices
    blocked: bool,          // de-authorized when the device was judged
    enumerating: bool,      // enumerating when the device was judged
    blockedAtLast: bool)    // de-authorized when the pass decided whether to save
  {
    /** Half-enumerated devices are not judged in this pass. */
    predicate Pending() { !blocked && enumerating }

    predicate IsDeauthTarget() {
      !blocked && !("usb" <= busId) && !fp.IsHub()
    }
  }

  datatype Baseline = Absent | Corrupt | Readable(devices: seq<Fingerprint>)

  datatype Outcome = Outcome(
    store: seq<Fingerprint>,
    pending: bool,
    targets: seq<Snapshot>,
    wantsSave: bool)

  function SettledAtFirst(devices: seq<Snapshot>): (r: seq<Fingerprint>)
    ensures forall d :: d in r <==> exists s :: s in devices && s.settledAtFirst && s.fp == d
  {
    if devices == [] then []
    else
      var n := |devices| - 1;
      SettledAtFirst(devices[..n]) + if devices[n].settledAtFirst then [devices[n].fp] else []
  }

  function AsObserved(devices: seq<Snapshot>): (r: seq<Observed>)
    ensures |r| == |devices|
    ensures forall k :: 0 <= k < |r| ==> r[k] == Observed(devices[k].fp, devices[k].blocked, devices[k].enumerating)
  {
    seq(|devices|, k requires 0 <= k < |devices| =>
      Observed(devices[k].fp, devices[k].blocked, devices[k].enumerating))
  }

  /** The judged devices that the store leaves out and that may be severed, in order. */
  function TargetsIn(store: seq<Fingerprint>, devices: seq<Snapshot>): (r: seq<Snapshot>)
    ensures forall d :: d in r <==> d in devices && !d.Pending() && d.IsDeauthTarget() && !Vouched(store, d.fp)
  {
    if devices == [] then []
    else
      var n := |devices| - 1;
      var d := devices[n];
      TargetsIn(store, devices[..n])
      + if !d.Pending() && d.IsDeauthTarget() && !Vouched(store, d.fp) then [d] else []
  }

  /** What a pass wants to de-authorize: nothing without a readable baseline. */
  function Targets(base: Baseline, devices: seq<Snapshot>): seq<Snapshot> {
    if base.Readable? then TargetsIn(FinalStore(base, devices), devices) else []
  }

  /** Whether a pass wants to save: a migrated baseline, or the first one once nothing is enumerating or blocked. */
  predicate WantsSave(base: Baseline, devices: seq<Snapshot>) {
    match base
    case Readable(entries) => FinalStore(base, devices) != entries
    case Absent => !AnyPending(devices) && !AnyBlockedAtLast(devices)
    case Corrupt => false
  }

  predicate AnyPending(devices: seq<Snapshot>) {
    exists d :: d in devices && d.Pending()
  }

  predicate AnyBlockedAtLast(devices: seq<Snapshot>) {
    exists d :: d in devices && d.blockedAtLast
  }

  /** The store a pass ends with. */
  function FinalStore(baseline: Baseline, devices: seq<Snapshot>): seq<Fingerprint> {
    match baseline
    case Readable(entries) => Migrated(entries, SettledAtFirst(devices))
    case Absent => TrustedUpTo([], AsObserved(devices), |devices|)
    case Corrupt => []
  }

  lemma TargetsStep(store: seq<Fingerprint>, devices: seq<Snapshot>, k: nat)
    requires k < |devices|
    ensures var d := devices[k];
      TargetsIn(store, devices[..k + 1]) == TargetsIn(store, devices[..k])
        + if !d.Pending() && d.IsDeauthTarget() && VerdictOn(store, d.fp) != Trusted then [d] else []
  {
    assert devices[..k + 1][..k] == devices[..k];
  }

  lemma PendingStep(devices: seq<Snapshot>, k: nat)
    requires k < |devices|
    ensures AnyPending(devices[..k + 1]) <==> AnyPending(devices[..k]) || devices[k].Pending()
  {
    assert devices[..k + 1] == devices[..k] + [devices[k]];
  }

  /** A device is trusted right after it was added to a first baseline. */
  lemma FirstRunStep(devices: seq<Snapshot>, k: nat)
    requires k < |devices|
    ensures var before := TrustedUpTo([], AsObserved(devices), k);
      var after := TrustedUpTo([], AsObserved(devices), k + 1);
      if devices[k].Pending() then after == before
      else after == TrustedWith(before, devices[k].fp) && VerdictOn(after, devices[k].fp) == Trusted
  {
    TrustedUpToStep([], AsObserved(devices), k + 1);
    TrustIsExact(TrustedUpTo([], AsObserved(devices), k), devices[k].fp, devices[k].fp);
  }

  /** Upgrades the legacy entries from every device settled at the first reading. */
  method UpgradeFromSettled(store: TrustStore, devices: seq<Snapshot>) returns (changed: bool)
    modifies store
    ensures store.devices == Migrated(old(store.devices), SettledAtFirst(devices))
    ensures changed == (store.devices != old(store.devices))
  {
    var settled: seq<Fingerprint> := [];
    for k := 0 to |devices|
      invariant settled == SettledAtFirst(devices[..k])
    {
      assert devices[..k + 1][..k] == devices[..k];
      if devices[k].settledAtFirst {
        settled := settled + [devices[k].fp];
      }
    }
    assert devices[..|devices|] == devices;
    changed := store.UpgradeLegacy(settled);
  }

  /** The loop has judged the first `k` devices. */
  ghost predicate InScan(
    baseline: Baseline, devices: seq<Snapshot>, k: nat,
    store: seq<Fingerprint>, changed: bool, pending: bool, targets: seq<Snapshot>)
  {
    && k <= |devices|
    && store == (if baseline.Absent? then TrustedUpTo([], AsObserved(devices), k) else FinalStore(baseline, devices))
    && (!baseline.Absent? ==> changed == (baseline.Readable? && store != baseline.devices))
    && pending == AnyPending(devices[..k])
    && targets == if baseline.Readable? then TargetsIn(store, devices[..k]) else []
  }

  lemma ScanStarts(baseline: Baseline, devices: seq<Snapshot>, store: seq<Fingerprint>, changed: bool)
    requires match baseline
             case Readable(entries) =>
               store == Migrated(entries, SettledAtFirst(devices)) && changed == (store != entries)
             case Absent => store == []
             case Corrupt => store == [] && !changed
    ensures InScan(baseline, devices, 0, store, changed, false, [])
  {
    hide Migrated, SettledAtFirst;
  }

  /** A device that is passed over, and one that is judged with `after` in the store. */
  lemma ScanStep(
    baseline: Baseline, devices: seq<Snapshot>, k: nat,
    store: seq<Fingerprint>, changed: bool, pending: bool, targets: seq<Snapshot>,
    after: seq<Fingerprint>, changedAfter: bool)
    requires InScan(baseline, devices, k, store, changed, pending, targets) && k < |devices|
    requires after == if baseline.Absent? then TrustedWith(store, devices[k].fp) else store
    requires !baseline.Absent? ==> changedAfter == changed
    ensures var d := devices[k];
      if d.Pending() then InScan(baseline, devices, k + 1, store, changed, true, targets)
      else
        var strange := !baseline.Corrupt? && VerdictOn(after, d.fp) != Trusted && d.IsDeauthTarget();
        InScan(baseline, devices, k + 1, after, changedAfter, pending, targets + if strange then [d] else [])
  {
    hide TargetsIn, FinalStore, TrustedUpTo, AsObserved, VerdictOn, AnyPending, Snapshot.IsDeauthTarget, TrustedWith;
    TargetsStep(store, devices, k);
    PendingStep(devices, k);
    FirstRunStep(devices, k);
  }

  lemma ScanDone(
    baseline: Baseline, devices: seq<Snapshot>,
    store: seq<Fingerprint>, changed: bool, pending: bool, targets: seq<Snapshot>)
    requires InScan(baseline, devices, |devices|, store, changed, pending, targets)
    ensures store == FinalStore(baseline, devices) && pending == AnyPending(devices)
    ensures !baseline.Absent? ==> changed == (baseline.Readable? && store != baseline.devices)
    ensures targets == if baseline.Readable? then TargetsIn(store, devices) else []
  {
    hide TargetsIn, TrustedUpTo, AsObserved, AnyPending, Migrated;
    assert devices[..|devices|] == devices;
  }

  method ScanPass(baseline: Baseline, devices: seq<Snapshot>) returns (r: Outcome)
    ensures r.store == FinalStore(baseline, devices)
    ensures r.pending == AnyPending(devices)
    ensures r.targets == Targets(baseline, devices)
    ensures r.wantsSave == WantsSave(baseline, devices)
  {
    hide FinalStore, AnyPending, TargetsIn, AnyBlockedAtLast, InScan, VerdictOn, TrustedWith, Migrated, SettledAtFirst;
    hide Snapshot.IsDeauthTarget;
    var fileExisted := !baseline.Absent?;
    var baselineCorrupt := baseline.Corrupt?;
    var store := new TrustStore(if baseline.Readable? then baseline.devices else []);
    var storeChanged := false;
    if fileExisted && !baselineCorrupt {
      storeChanged := UpgradeFromSettled(store, devices);
    }
    ScanStarts(baseline, devices, store.devices, storeChanged);

    var pendingEnumeration := false;
    var targets: seq<Snapshot> := [];
    for k := 0 to |devices|
      invariant InScan(baseline, devices, k, store.devices, storeChanged, pendingEnumeration, targets)
    {
      var d := devices[k];
      ghost var before, changedBefore := store.devices, storeChanged;
      if !d.blocked && d.enumerating {
        ScanStep(baseline, devices, k, before, changedBefore, pendingEnumeration, targets,
                 if baseline.Absent? then TrustedWith(before, d.fp) else before, changedBefore);
        pendingEnumeration := true;
        continue;
      }
      if !fileExisted {
        var isNew := store.Trust(d.fp);
        storeChanged := storeChanged || isNew;
      }
      ScanStep(baseline, devices, k, before, changedBefore, pendingEnumeration, targets, store.devices, storeChanged);
      var verdict := if baselineCorrupt then None else Some(VerdictOn(store.devices, d.fp));
      var isTrusted := verdict == None || verdict == Some(Trusted);
      if !isTrusted && d.IsDeauthTarget() {
        targets := targets + [d];
      } else {
        assert targets + [] == targets;
      }
    }
    ScanDone(baseline, devices, store.devices, storeChanged, pendingEnumeration, targets);
    var anyBlocked := AnyBlockedAtLast(devices);
    var firstRunReady := !fileExisted && !baselineCorrupt && !pendingEnumeration && !anyBlocked;
    return Outcome(store.devices, pendingEnumeration, targets, (storeChanged && fileExisted) || firstRunReady);
  }

  // ---------------------------------------------------------------------------
  // Approved hardware is not locked out
  // ---------------------------------------------------------------------------

  /** Exactly when a pass wants to save: a settled device replaces an entry without interfaces, or there is no baseline
      yet and no device is half-enumerated or blocked. */
  lemma WantsSaveIff(base: Baseline, devices: seq<Snapshot>)
    ensures WantsSave(base, devices) <==>
              match base
              case Readable(entries) =>
                exists e, d :: e in entries && e.interfaces.None? && d in devices && d.settledAtFirst
                               && d.fp.interfaces.Some? && e.Matches(d.fp)
              case Absent => forall d :: d in devices ==> (d.blocked || !d.enumerating) && !d.blockedAtLast
              case Corrupt => false
  {
    hide Migrated, Fingerprint.Matches;
    if base.Readable? {
      MigrationChangesIff(base.devices, SettledAtFirst(devices));
      hide SettledAtFirst;
      if e :| e in base.devices && IsReplaced(e, SettledAtFirst(devices)) {
        var fp :| fp in SettledAtFirst(devices) && !fp.IsLegacy() && e.Matches(fp);
        var d :| d in devices && d.settledAtFirst && d.fp == fp;
      }
    }
  }

  /** Which devices may be de-authorized, spelled out: judged ones that no entry matches, and neither blocked already,
      nor a root hub, nor a device with hub interfaces only. */
  lemma TargetSpelledOut(store: seq<Fingerprint>, devices: seq<Snapshot>, d: Snapshot)
    ensures d in TargetsIn(store, devices) <==>
              && d in devices && !d.blocked && !d.enumerating && (forall e :: e in store ==> !e.Matches(d.fp))
              && !(|d.busId| >= 3 && d.busId[..3] == ['u', 's', 'b'])
              && !(&& d.fp.interfaces.Some? && d.fp.interfaces.value != []
                   && forall i :: i in d.fp.interfaces.value ==> IsOfClass(i, "09"))
  {
    HubIff(d.fp);
    hide IsOfClass, Fingerprint.Matches, Fingerprint.IsHub;
    assert "usb" <= d.busId <==> |d.busId| >= 3 && d.busId[..3] == ['u', 's', 'b'];
  }

  /** A device that was settled when the migration ran is a target exactly when the loaded baseline does not vouch for
      it: the migration in the same pass changes no such verdict. */
  lemma TargetIffNotInLoadedBaseline(entries: seq<Fingerprint>, devices: seq<Snapshot>, d: Snapshot)
    requires d in devices && d.settledAtFirst && !d.fp.IsLegacy()
    ensures d in TargetsIn(FinalStore(Readable(entries), devices), devices)
        <==> !d.Pending() && d.IsDeauthTarget() && !Vouched(entries, d.fp)
  {
    var settled := SettledAtFirst(devices);
    assert d.fp in settled;
    if Vouched(entries, d.fp) {
      MigrationKeepsConnected(entries, settled, d.fp);
    } else if Vouched(Migrated(entries, settled), d.fp) {
      MigrationNeverWidens(entries, settled, d.fp);
    }
  }

  /** In general a judged device is a target exactly when the closed form of the migrated store leaves it out. */
  lemma TargetIff(entries: seq<Fingerprint>, devices: seq<Snapshot>, d: Snapshot)
    requires d in devices
    ensures d in TargetsIn(FinalStore(Readable(entries), devices), devices)
        <==> !d.Pending() && d.IsDeauthTarget()
             && !TrustedByRule(Elements(entries), Elements(SettledAtFirst(devices)), d.fp)
  {
    TrustedAfterMigration(entries, SettledAtFirst(devices), d.fp);
  }

  /** Being settled at the first reading matters: of two units of a model that a v1 entry vouches for, the one that
      settles between the two readings is taken for a stranger. */
  lemma LateSettlerMayBeTargeted() returns (entries: seq<Fingerprint>, devices: seq<Snapshot>, d: Snapshot)
    ensures d in devices && !d.fp.IsLegacy() && !d.enumerating && Vouched(entries, d.fp)
    ensures d in TargetsIn(FinalStore(Readable(entries), devices), devices)
  {
    var model := Fingerprint("05e3", "0610", None, None, None);
    var first := model.(interfaces := Some(["03:01:01"]));
    var second := model.(interfaces := Some(["03:01:02"]));
    assert first.interfaces.value[0][7] != second.interfaces.value[0][7];
    d := Snapshot("1-2", second, false, false, false, false);
    var settled := Snapshot("1-1", first, true, false, false, false);
    entries, devices := [model], [settled, d];
    assert model in entries && model.Matches(first) && model.Matches(second) && d in devices;
    EligibleHid(d, "03:01:02");
    LateSettler(model, settled, d);
    TargetIff(entries, devices, d);
  }

  lemma EligibleHid(d: Snapshot, triplet: string)
    requires d.fp.interfaces == Some([triplet]) && |triplet| >= 2 && triplet[0] == '0' && triplet[1] == '3'
    requires |d.busId| > 0 && d.busId[0] == '1' && !d.blocked
    ensures d.IsDeauthTarget()
  {
    assert triplet[1..][0] == triplet[1];
    assert ClassOf(triplet[1..])[0] == '3' && ClassOf(triplet)[1] == '3';
    assert triplet in d.fp.interfaces.value && ClassOf(triplet) != HUB_CLASS;
    assert "usb"[0] != d.busId[0];
  }

  lemma LateSettler(model: Fingerprint, settled: Snapshot, d: Snapshot)
    requires model.IsLegacy() && settled.settledAtFirst && !settled.fp.IsLegacy() && model.Matches(settled.fp)
    requires !d.settledAtFirst && !settled.fp.Matches(d.fp)
    ensures !TrustedByRule(Elements([model]), Elements(SettledAtFirst([settled, d])), d.fp)
  {
    var devices := [settled, d];
    assert settled in devices && settled.fp in SettledAtFirst(devices);
    assert forall x :: x in SettledAtFirst(devices) ==> x == settled.fp;
  }

  /** A first baseline is saved only when it covers every device of its snapshot with known interfaces. */
  lemma FirstBaselineCoversSnapshot(devices: seq<Snapshot>, d: Snapshot)
    requires !AnyPending(devices) && d in devices && !d.fp.IsLegacy()
    ensures Covered(FinalStore(Absent, devices), d.fp)
  {
    var k :| 0 <= k < |devices| && devices[k] == d;
    TrustedUpToCovers([], AsObserved(devices), |devices|, k);
  }

  /** Exactly which devices of its snapshot a first baseline vouches for: those with known interfaces, and those without
      that were recorded and not absorbed by a device of their model which was judged later. */
  lemma FirstBaselineVouchesIff(devices: seq<Snapshot>, d: Snapshot)
    requires !AnyPending(devices) && d in devices
    ensures Vouched(FinalStore(Absent, devices), d.fp)
        <==> !d.fp.IsLegacy() || HoldingUpTo(Holding(false, false), AsObserved(devices), |devices|, d.fp).Any()
  {
    hide HoldingUpTo, TrustedUpTo, AsObserved;
    if d.fp.IsLegacy() {
      assert HoldingOf([], d.fp) == Holding(false, false);
      HoldingIsTracked([], AsObserved(devices), |devices|, d.fp);
      VouchedIffHeld(FinalStore(Absent, devices), d.fp);
    } else {
      FirstBaselineCoversSnapshot(devices, d);
    }
  }

  /** A device that was read before it was configured is absorbed by a configured unit of its model: the first
      baseline is saved and does not vouch for it. */
  lemma FirstBaselineMayMissADevice() returns (devices: seq<Snapshot>, d: Snapshot)
    ensures d in devices && !AnyPending(devices) && !AnyBlockedAtLast(devices)
    ensures !Vouched(FinalStore(Absent, devices), d.fp)
  {
    var model := Fingerprint("1d50", "60fc", None, None, None);
    d := Snapshot("1-1", model, false, false, false, false);
    var twin := Snapshot("1-2", model.(interfaces := Some(["03:01:01"])), true, false, false, false);
    devices := [d, twin];
    var observed := AsObserved(devices);
    assert HoldingUpTo(Holding(false, false), observed, 0, model) == Holding(false, false);
    assert HoldingUpTo(Holding(false, false), observed, 1, model) == Holding(true, false);
    assert HoldingUpTo(Holding(false, false), observed, 2, model) == Holding(false, false);
    assert forall x :: x in devices ==> x == d || x == twin;
    FirstBaselineVouchesIff(devices, d);
  }

  /** And it trusts nothing else. */
  lemma FirstBaselineIsExact(devices: seq<Snapshot>, x: Fingerprint)
    requires Vouched(FinalStore(Absent, devices), x)
    ensures exists d :: d in devices && !d.Pending() && d.fp.Matches(x)
  {
    TrustedUpToIsExact([], AsObserved(devices), |devices|, x);
    var k :| 0 <= k < |devices| && !AsObserved(devices)[k].Skipped() && AsObserved(devices)[k].fp.Matches(x);
    assert devices[k] in devices && !devices[k].Pending();
  }
}
