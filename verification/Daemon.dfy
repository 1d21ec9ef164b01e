/**
  The daemon's event loop (src/engine/daemon.rs, lines 97-153 and 170-203): when a burst of USB events leads to a
  scan, how often a scan is repeated while a device is still enumerating, and which devices are reported.

  Times are milliseconds of the monotonic clock. Timers and the scheduler are late by at most `slack`.
 */
module Daemon {
  import opened Common

  const REPORT_INTERVAL := 20_000
  const USB_SETTLE := 750
  const USB_MAX_DELAY := 3_000
  const ENUMERATION_RECHECK := 1_000
  const MAX_ENUMERATION_RECHECKS := 15

  // ---------------------------------------------------------------------------
  // One iteration
  // ---------------------------------------------------------------------------

  /** A scan's result, and the clock when the next check and the next report are scheduled. */
  datatype ScanResult = ScanResult(pending: bool, untrusted: seq<string>, checkFrom: int, reportFrom: int)

  /** When the wait ended, and whether USB devices came or went. */
  datatype Wake = Wake(at: int, changed: bool)

  /** What one iteration reads: the clock, and then either a scan or a wait. */
  datatype Input = Input(now: int, scan: ScanResult, wake: Wake)

  datatype State = State(
    nextReport: int,
    usbCheckAt: Option<int>,
    burstStart: Option<int>,
    rechecks: nat,
    notified: set<string>)

  function Min(a: int, b: int): int { if a <= b then a else b }

  predicate ScanDue(s: State, now: int) {
    (s.usbCheckAt.Some? && s.usbCheckAt.value <= now) || s.nextReport <= now
  }

  function Deadline(s: State): int {
    if s.usbCheckAt.Some? then Min(s.usbCheckAt.value, s.nextReport) else s.nextReport
  }

  predicate Rechecks(s: State, scan: ScanResult) {
    scan.pending && s.rechecks < MAX_ENUMERATION_RECHECKS
  }

  function AfterScan(s: State, scan: ScanResult): State {
    State(
      scan.reportFrom + REPORT_INTERVAL,
      if Rechecks(s, scan) then Some(scan.checkFrom + ENUMERATION_RECHECK) else None,
      None,
      if Rechecks(s, scan) then s.rechecks + 1 else 0,
      Elements(scan.untrusted))
  }

  function AfterWake(s: State, wake: Wake): State {
    if !wake.changed then s
    else
      var first := if s.burstStart.Some? then s.burstStart.value else wake.at;
      s.(usbCheckAt := Some(Min(wake.at + USB_SETTLE, first + USB_MAX_DELAY)), burstStart := Some(first), rechecks := 0)
  }

  function Step(s: State, i: Input): State {
    if ScanDue(s, i.now) then AfterScan(s, i.scan) else AfterWake(s, i.wake)
  }

  /** The devices a scan reports: untrusted, and not reported since they appeared; one entry each time they are
      listed. */
  function Fresh(untrusted: seq<string>, notified: set<string>): (r: seq<string>)
    ensures forall id :: id in r <==> id in untrusted && id !in notified
  {
    if untrusted == [] then []
    else
      var n := |untrusted| - 1;
      Fresh(untrusted[..n], notified) + if untrusted[n] in notified then [] else [untrusted[n]]
  }

  function Start(time: int): State {
    State(time, None, None, 0, {})
  }

  class Monitor {
    var nextReport: int
    var usbCheckAt: Option<int>
    var burstStart: Option<int>
    var rechecks: nat
    var notified: set<string>

    function Now(): State
      reads this
    {
      State(nextReport, usbCheckAt, burstStart, rechecks, notified)
    }

    constructor (time: int)
      ensures Now() == Start(time)
    {
      nextReport, usbCheckAt, burstStart, rechecks, notified := time, None, None, 0, {};
    }

    /** The devices gone are forgotten, the new ones are reported and remembered. */
    method Notify(untrusted: seq<string>) returns (news: seq<string>)
      modifies this`notified
      ensures notified == Elements(untrusted)
      ensures news == Fresh(untrusted, old(notified))
    {
      hide Fresh, Elements;
      notified := set id | id in notified && id in untrusted;
      ghost var still := notified;
      NothingYet(untrusted, old(notified));
      news := [];
      for n := 0 to |untrusted|
        invariant notified == still && news == Fresh(untrusted[..n], old(notified))
      {
        FreshStep(untrusted, old(notified), n);
        if untrusted[n] !in notified {
          news := news + [untrusted[n]];
        }
      }
      assert untrusted[..|untrusted|] == untrusted;
      StillAndFresh(untrusted, old(notified));
      if news == [] {
        return;
      }
      for n := 0 to |news|
        invariant notified == still + Elements(news[..n])
      {
        ElementsStep(news, n);
        notified := notified + {news[n]};
      }
      assert news[..|news|] == news;
    }

    /** One turn of the loop. */
    method Iterate(i: Input) returns (scanned: bool, reported: seq<string>)
      modifies this
      ensures Now() == Step(old(Now()), i)
      ensures scanned == ScanDue(old(Now()), i.now)
      ensures reported == if scanned then Fresh(i.scan.untrusted, old(notified)) else []
    {
      var usbDue := usbCheckAt.Some? && usbCheckAt.value <= i.now;
      if usbDue || nextReport <= i.now {
        burstStart := None;
        reported := Notify(i.scan.untrusted);
        if i.scan.pending && rechecks < MAX_ENUMERATION_RECHECKS {
          rechecks := rechecks + 1;
          usbCheckAt := Some(i.scan.checkFrom + ENUMERATION_RECHECK);
        } else {
          rechecks := 0;
          usbCheckAt := None;
        }
        nextReport := i.scan.reportFrom + REPORT_INTERVAL;
        return true, reported;
      }
      if i.wake.changed {
        if burstStart.None? {
          burstStart := Some(i.wake.at);
        }
        usbCheckAt := Some(Min(i.wake.at + USB_SETTLE, burstStart.value + USB_MAX_DELAY));
        rechecks := 0;
      }
      return false, [];
    }
  }

  lemma NothingYet(untrusted: seq<string>, notified: set<string>)
    ensures Fresh(untrusted[..0], notified) == [] && Elements<string>([]) == {}
  {
  }

  lemma FreshStep(untrusted: seq<string>, notified: set<string>, n: nat)
    requires n < |untrusted|
    ensures Fresh(untrusted[..n + 1], notified)
         == Fresh(untrusted[..n], notified) + if untrusted[n] in notified then [] else [untrusted[n]]
  {
    assert untrusted[..n + 1][..n] == untrusted[..n];
  }

  lemma ElementsStep(ids: seq<string>, n: nat)
    requires n < |ids|
    ensures Elements(ids[..n + 1]) == Elements(ids[..n]) + {ids[n]}
  {
    assert ids[..n + 1] == ids[..n] + [ids[n]];
  }

  /** The devices remembered that are still there, and the fresh ones, are all that are there. */
  lemma StillAndFresh(untrusted: seq<string>, notified: set<string>)
    ensures (set id | id in notified && id in untrusted) + Elements(Fresh(untrusted, notified)) == Elements(untrusted)
    ensures Fresh(untrusted, notified) == [] ==>
              (set id | id in notified && id in untrusted) == Elements(untrusted)
  {
    var news := Fresh(untrusted, notified);
    hide Fresh;
    if news == [] {
      forall id | id in untrusted
        ensures id in notified
      {
        assert id !in news;
      }
    }
  }

  // ---------------------------------------------------------------------------
  // Runs
  // ---------------------------------------------------------------------------

  /** The run from `time` on; `inputs` in order. */
  datatype Run = Run(time: int, states: seq<State>, inputs: seq<Input>) {
    /** When iteration `k` ends. */
    function End(k: nat): int
      requires k < |inputs| && k < |states|
    {
      if ScanDue(states[k], inputs[k].now) then inputs[k].scan.reportFrom else inputs[k].wake.at
    }

    /** Clock readings do not step back, a wait ends at its deadline or earlier, and each step follows the one before
        it, all up to the slack. */
    ghost predicate OnTime(k: nat, slack: nat)
      requires k < |inputs| && k < |states|
    {
      var (s, i) := (states[k], inputs[k]);
      && (if k == 0 then time <= i.now <= time + slack else End(k - 1) <= i.now <= End(k - 1) + slack)
      && (if ScanDue(s, i.now) then i.now <= i.scan.checkFrom <= i.scan.reportFrom <= i.scan.checkFrom + slack
          else i.now <= i.wake.at <= Deadline(s) + slack)
    }

    ghost predicate Valid(slack: nat) {
      && |states| == |inputs| + 1 && states[0] == Start(time)
      && (forall k {:trigger inputs[k]} :: 0 <= k < |inputs| ==> states[k + 1] == Step(states[k], inputs[k]))
      && (forall k :: 0 <= k < |inputs| ==> OnTime(k, slack))
    }

    predicate ScansAt(k: nat)
      requires k < |inputs| && k < |states|
    {
      ScanDue(states[k], inputs[k].now)
    }

    /** A USB event is read in iteration `k`. */
    predicate EventAt(k: nat)
      requires k < |inputs| && k < |states|
    {
      !ScansAt(k) && inputs[k].wake.changed
    }

    ghost predicate NoScan(from: nat, to: nat)
      requires to <= |inputs| && to <= |states|
    {
      forall k :: from <= k < to ==> !ScansAt(k)
    }

    ghost predicate NoEvent(from: nat, to: nat)
      requires to <= |inputs| && to <= |states|
    {
      forall k :: from <= k < to ==> !EventAt(k)
    }
  }

  /** No iteration starts later than its schedule plus twice the slack. */
  lemma {:induction false} NeverLate(r: Run, slack: nat, k: nat)
    requires r.Valid(slack) && k < |r.inputs|
    ensures var (s, now) := (r.states[k], r.inputs[k].now);
      && now <= s.nextReport + 2 * slack
      && (s.usbCheckAt.Some? ==> now <= s.usbCheckAt.value + 2 * slack)
      && (s.burstStart.Some? ==> s.usbCheckAt.Some? && s.usbCheckAt.value <= s.burstStart.value + 3_000)
  {
    assert r.OnTime(k, slack);
    if k > 0 {
      NeverLate(r, slack, k - 1);
      assert r.OnTime(k - 1, slack);
      assert r.states[k] == Step(r.states[k - 1], r.inputs[k - 1]);
    }
  }

  /** Until the next scan, the schedule is the one the last scan `p` set up. */
  lemma {:induction false} ScheduleBehindScan(r: Run, slack: nat, p: nat, k: nat)
    requires r.Valid(slack) && p < k <= |r.inputs| && r.ScansAt(p) && r.NoScan(p + 1, k)
    ensures r.states[k].nextReport == r.inputs[p].scan.reportFrom + REPORT_INTERVAL
    ensures r.NoEvent(p + 1, k) ==> r.states[k] == AfterScan(r.states[p], r.inputs[p].scan)
    decreases k
  {
    assert r.states[k] == Step(r.states[k - 1], r.inputs[k - 1]);
    if k > p + 1 {
      ScheduleBehindScan(r, slack, p, k - 1);
      assert !r.ScansAt(k - 1);
      assert r.NoEvent(p + 1, k) ==> r.NoEvent(p + 1, k - 1) && !r.EventAt(k - 1);
    }
  }

  /** A burst of events, the first read in iteration `f` and the last in `l`, with no scan up to `k`: the check is due
      750 ms after the last event, or 3 s after the first if that is earlier. */
  lemma {:induction false} ScheduleInBurst(r: Run, slack: nat, f: nat, l: nat, k: nat)
    requires r.Valid(slack) && f <= l < k <= |r.inputs|
    requires r.states[f].burstStart.None? && r.EventAt(f) && r.EventAt(l) && r.NoScan(f, k) && r.NoEvent(l + 1, k)
    ensures r.states[k].burstStart == Some(r.inputs[f].wake.at)
    ensures var (settled, latest) := (r.inputs[l].wake.at + 750, r.inputs[f].wake.at + 3_000);
      r.states[k].usbCheckAt == Some(if settled < latest then settled else latest)
    decreases k
  {
    assert r.states[k] == Step(r.states[k - 1], r.inputs[k - 1]);
    if k > l + 1 {
      assert !r.ScansAt(k - 1) && !r.EventAt(k - 1);
      ScheduleInBurst(r, slack, f, l, k - 1);
    } else if f < l {
      assert !r.ScansAt(l);
      BurstStartStays(r, slack, f, l);
    }
  }

  lemma {:induction false} BurstStartStays(r: Run, slack: nat, f: nat, k: nat)
    requires r.Valid(slack) && f < k <= |r.inputs|
    requires r.states[f].burstStart.None? && r.EventAt(f) && r.NoScan(f, k)
    ensures r.states[k].burstStart == Some(r.inputs[f].wake.at)
    decreases k
  {
    assert r.states[k] == Step(r.states[k - 1], r.inputs[k - 1]);
    assert !r.ScansAt(k - 1);
    if k > f + 1 {
      BurstStartStays(r, slack, f, k - 1);
    }
  }

  /** A burst is open exactly when an event was read since the last scan. */
  lemma {:induction false} BurstIsOpenIff(r: Run, slack: nat, k: nat)
    requires r.Valid(slack) && k <= |r.inputs|
    ensures r.states[k].burstStart.Some? <==> exists i :: 0 <= i < k && r.EventAt(i) && r.NoScan(i, k)
  {
    if k > 0 {
      var n := k - 1;
      BurstIsOpenIff(r, slack, n);
      assert r.states[k] == Step(r.states[n], r.inputs[n]);
      if r.EventAt(n) {
        assert r.NoScan(n, k);
      } else if r.states[n].burstStart.Some? && !r.ScansAt(n) {
        var i :| 0 <= i < n && r.EventAt(i) && r.NoScan(i, n);
        assert r.NoScan(i, k);
      } else if i :| 0 <= i < k && r.EventAt(i) && r.NoScan(i, k) {
        assert r.NoScan(i, n);
        assert false;
      }
    }
  }

  // ---------------------------------------------------------------------------
  // Deadlines
  // ---------------------------------------------------------------------------

  /** While a burst waits for its scan, no iteration starts more than 3 s after its first event or 750 ms after its
      last. */
  lemma BurstDoesNotWait(r: Run, slack: nat, f: nat, l: nat, k: nat)
    requires r.Valid(slack) && f <= l < k < |r.inputs|
    requires r.states[f].burstStart.None? && r.EventAt(f) && r.EventAt(l) && r.NoScan(f, k) && r.NoEvent(l + 1, k)
    ensures r.inputs[k].now <= r.inputs[f].wake.at + 3_000 + 2 * slack
    ensures r.inputs[k].now <= r.inputs[l].wake.at + 750 + 2 * slack
    ensures r.ScansAt(k) <==>
              || r.inputs[l].wake.at + 750 <= r.inputs[k].now
              || r.inputs[f].wake.at + 3_000 <= r.inputs[k].now
              || r.states[k].nextReport <= r.inputs[k].now
  {
    ScheduleInBurst(r, slack, f, l, k);
    NeverLate(r, slack, k);
  }

  /** Once a USB event is read, a scan starts no later than 3 s after it: no run gets past that moment without one. */
  lemma EventLeadsToScan(r: Run, slack: nat, i: nat, k: nat)
    requires r.Valid(slack) && i < k < |r.inputs| && r.EventAt(i)
    requires r.inputs[i].wake.at + 3_000 + 2 * slack < r.inputs[k].now
    ensures exists j :: i < j < k && r.ScansAt(j) && r.inputs[j].now <= r.inputs[i].wake.at + 3_000 + 2 * slack
  {
    var j := i + 1;
    while j < k && !r.ScansAt(j)
      invariant i < j <= k && r.NoScan(i, j)
    {
      j := j + 1;
    }
    OpenSince(r, slack, i, j);
    NeverLate(r, slack, j);
  }

  /** The burst an event belongs to began no later than the event. */
  lemma {:induction false} OpenSince(r: Run, slack: nat, i: nat, j: nat)
    requires r.Valid(slack) && i < j <= |r.inputs| && r.EventAt(i) && r.NoScan(i, j)
    ensures r.states[j].burstStart.Some? && r.states[j].burstStart.value <= r.inputs[i].wake.at
    decreases j
  {
    assert r.states[j] == Step(r.states[j - 1], r.inputs[j - 1]);
    assert !r.ScansAt(j - 1);
    if j > i + 1 {
      OpenSince(r, slack, i, j - 1);
    } else {
      StartIsPast(r, slack, i);
      assert r.OnTime(i, slack);
    }
  }

  lemma {:induction false} StartIsPast(r: Run, slack: nat, k: nat)
    requires r.Valid(slack) && k < |r.inputs|
    ensures r.states[k].burstStart.Some? ==> r.states[k].burstStart.value <= r.inputs[k].now
  {
    if k > 0 {
      StartIsPast(r, slack, k - 1);
      assert r.OnTime(k, slack) && r.OnTime(k - 1, slack);
      assert r.states[k] == Step(r.states[k - 1], r.inputs[k - 1]);
    }
  }

  /** Scans follow each other within the report interval of 20 s. */
  lemma ScansKeepComing(r: Run, slack: nat, p: nat, k: nat)
    requires r.Valid(slack) && p < k < |r.inputs| && r.ScansAt(p)
    requires r.inputs[p].scan.reportFrom + 20_000 + 2 * slack < r.inputs[k].now
    ensures exists j ::
              p < j < k && r.ScansAt(j) && r.inputs[j].now <= r.inputs[p].scan.reportFrom + 20_000 + 2 * slack
  {
    var j := p + 1;
    while j < k && !r.ScansAt(j)
      invariant p < j <= k && r.NoScan(p + 1, j)
    {
      j := j + 1;
    }
    ScheduleBehindScan(r, slack, p, j);
    NeverLate(r, slack, j);
  }

  /** Without an event, the next scan is either the recheck one second later, which takes a device that is still
      enumerating and fewer than 15 rechecks in a row, or the one for the next report. */
  lemma QuietScanIff(r: Run, slack: nat, p: nat, k: nat)
    requires r.Valid(slack) && p < k < |r.inputs| && r.ScansAt(p) && r.NoScan(p + 1, k) && r.NoEvent(p + 1, k)
    ensures r.ScansAt(k) <==>
              || r.inputs[p].scan.reportFrom + 20_000 <= r.inputs[k].now
              || (&& r.inputs[p].scan.pending && RechecksInARow(r, p) < 15
                  && r.inputs[p].scan.checkFrom + 1_000 <= r.inputs[k].now)
  {
    RechecksAreBounded(r, slack, p);
    ScheduleBehindScan(r, slack, p, k);
  }

  // ---------------------------------------------------------------------------
  // Rechecks
  // ---------------------------------------------------------------------------

  /** How many of the scans before `k` have found a device enumerating in a row, 15 at most, with no event since. */
  function RechecksInARow(r: Run, k: nat): nat
    requires k <= |r.inputs| && k <= |r.states|
  {
    if k == 0 || r.EventAt(k - 1) then 0
    else if !r.ScansAt(k - 1) then RechecksInARow(r, k - 1)
    else if r.inputs[k - 1].scan.pending && RechecksInARow(r, k - 1) < 15 then RechecksInARow(r, k - 1) + 1
    else 0
  }

  /** An event-free stretch schedules at most 15 rechecks in a row. */
  lemma {:induction false} RechecksAreBounded(r: Run, slack: nat, k: nat)
    requires r.Valid(slack) && k <= |r.inputs|
    ensures r.states[k].rechecks == RechecksInARow(r, k) <= 15
  {
    if k > 0 {
      RechecksAreBounded(r, slack, k - 1);
      assert r.states[k] == Step(r.states[k - 1], r.inputs[k - 1]);
    }
  }

  /** After the fifteenth recheck in a row the daemon gives up: without an event, the next scan waits for the report. */
  lemma GivesUpAfterFifteen(r: Run, slack: nat, p: nat, k: nat)
    requires r.Valid(slack) && p < k < |r.inputs| && r.ScansAt(p) && r.NoScan(p + 1, k) && r.NoEvent(p + 1, k)
    requires RechecksInARow(r, p) == 15
    ensures r.ScansAt(k) <==> r.inputs[p].scan.reportFrom + 20_000 <= r.inputs[k].now
  {
    RechecksAreBounded(r, slack, p);
    QuietScanIff(r, slack, p, k);
  }

  // ---------------------------------------------------------------------------
  // Notifications
  // ---------------------------------------------------------------------------

  /** A scan reports a device exactly when it is untrusted now and was not at the scan before: once for as long as it
      stays connected, and again after it was gone. */
  lemma ReportedIffNew(r: Run, slack: nat, p: nat, k: nat, id: string)
    requires r.Valid(slack) && p < k < |r.inputs| && r.ScansAt(p) && r.ScansAt(k) && r.NoScan(p + 1, k)
    ensures id in Fresh(r.inputs[k].scan.untrusted, r.states[k].notified) <==>
              id in r.inputs[k].scan.untrusted && id !in r.inputs[p].scan.untrusted
  {
    RememberedSince(r, slack, p, k);
  }

  lemma {:induction false} RememberedSince(r: Run, slack: nat, p: nat, k: nat)
    requires r.Valid(slack) && p < k <= |r.inputs| && r.ScansAt(p) && r.NoScan(p + 1, k)
    ensures r.states[k].notified == Elements(r.inputs[p].scan.untrusted)
    decreases k
  {
    assert r.states[k] == Step(r.states[k - 1], r.inputs[k - 1]);
    if k > p + 1 {
      RememberedSince(r, slack, p, k - 1);
      assert !r.ScansAt(k - 1);
    }
  }
}
