/**
  USB fingerprints and the trust store (src/usb.rs), with the merge behind "Trust Devices" (src/engine/badusb.rs,
  lines 460-489).

  A baseline entry that knows no interface set ("legacy") vouches for a whole model. `UpgradeLegacy` replaces such
  entries by the full fingerprints of the connected devices they vouch for, removing from and appending to the list it
  walks. `Migrated` states what that loop computes, and `TrustedAfterMigration` which devices are trusted afterwards.
 */
module UsbTrust {
  import opened Common

  // ---------------------------------------------------------------------------
  // Fingerprints
  // ---------------------------------------------------------------------------

  const HID_CLASS := "03"
  const HUB_CLASS := "09"

  datatype Fingerprint = Fingerprint(
    vid: string,
    pid: string,
    serial: Option<string>,
    interfaces: Option<seq<string>>,
    product: Option<string>)
  {
    /** The interface set is unknown: a v1 entry, or a device without an active configuration. */
    predicate IsLegacy() { interfaces.None? }

    predicate HasClass(code: string) {
      interfaces.Some? && exists i :: i in interfaces.value && ClassOf(i) == code
    }

    predicate IsHid() { HasClass(HID_CLASS) }

    predicate IsHub() {
      interfaces.Some? && interfaces.value != [] && forall i :: i in interfaces.value ==> ClassOf(i) == HUB_CLASS
    }

    predicate SameModel(other: Fingerprint) {
      EqIgnoreAsciiCase(vid, other.vid) && EqIgnoreAsciiCase(pid, other.pid)
    }

    /** This baseline entry vouches for `device`: what the entry does not know need not match. */
    predicate Matches(device: Fingerprint) {
      && SameModel(device)
      && (serial.Some? ==> device.serial == serial)
      && (interfaces.Some? ==> device.interfaces == interfaces)
    }
  }

  /** What stands before the first colon of a `class:subclass:protocol` triplet. */
  function ClassOf(triplet: string): string {
    if triplet == "" || triplet[0] == ':' then "" else [triplet[0]] + ClassOf(triplet[1..])
  }

  /** The class of an interface is the code in front of its first colon. */
  lemma {:induction false} ClassIs(triplet: string, code: string)
    requires ':' !in code
    ensures ClassOf(triplet) == code <==> triplet == code || code + ":" <= triplet
  {
    if triplet == "" || triplet[0] == ':' {
      assert code + ":" <= triplet ==> (code + ":")[0] == ':';
    } else if code != "" {
      ClassIs(triplet[1..], code[1..]);
      assert code == [code[0]] + code[1..] && triplet == [triplet[0]] + triplet[1..];
      assert (code + ":")[1..] == code[1..] + ":";
      assert code + ":" <= triplet <==> code[0] == triplet[0] && code[1..] + ":" <= triplet[1..];
    }
  }

  function AsciiLower(c: char): char {
    if 'A' <= c <= 'Z' then c - 'A' + 'a' else c
  }

  predicate EqIgnoreAsciiCase(a: string, b: string) {
    |a| == |b| && forall i :: 0 <= i < |a| ==> AsciiLower(a[i]) == AsciiLower(b[i])
  }

  /** Vouching is a preorder. */
  lemma MatchesIsPreorder(a: Fingerprint, b: Fingerprint, c: Fingerprint)
    ensures a.Matches(a)
    ensures a.Matches(b) && b.Matches(c) ==> a.Matches(c)
  {
  }

  /** The same characters, up to the case of the letters A to Z. */
  predicate SameButCase(a: string, b: string) {
    && |a| == |b|
    && forall i :: 0 <= i < |a| ==>
         || a[i] == b[i]
         || ('a' <= a[i] <= 'z' && a[i] as int == b[i] as int + 32)
         || ('a' <= b[i] <= 'z' && b[i] as int == a[i] as int + 32)
  }

  /** What an entry vouches for: its model, with its serial number if it has one and its interfaces if it knows them. */
  lemma VouchesIff(e: Fingerprint, d: Fingerprint)
    ensures e.Matches(d) <==>
              && SameButCase(e.vid, d.vid) && SameButCase(e.pid, d.pid)
              && (e.serial == None || e.serial == d.serial)
              && (e.interfaces == None || e.interfaces == d.interfaces)
  {
    CaseIff(e.vid, d.vid);
    CaseIff(e.pid, d.pid);
    hide EqIgnoreAsciiCase, SameButCase;
  }

  lemma CaseIff(a: string, b: string)
    ensures EqIgnoreAsciiCase(a, b) <==> SameButCase(a, b)
  {
    if |a| == |b| {
      forall i | 0 <= i < |a|
        ensures AsciiLower(a[i]) == AsciiLower(b[i]) <==>
                  || a[i] == b[i]
                  || ('a' <= a[i] <= 'z' && a[i] as int == b[i] as int + 32)
                  || ('a' <= b[i] <= 'z' && b[i] as int == a[i] as int + 32)
      {
      }
    }
  }

  // ---------------------------------------------------------------------------
  // Who is trusted
  // ---------------------------------------------------------------------------

  /** Some entry vouches for `d`. */
  predicate Vouched(devices: seq<Fingerprint>, d: Fingerprint) {
    exists e :: e in devices && e.Matches(d)
  }

  /** Some entry with a known interface set vouches for `d`. */
  predicate Covered(devices: seq<Fingerprint>, d: Fingerprint) {
    exists e :: e in devices && !e.IsLegacy() && e.Matches(d)
  }

  /** Some entry without an interface set vouches for `d`. */
  predicate VouchedByModel(devices: seq<Fingerprint>, d: Fingerprint) {
    exists e :: e in devices && e.IsLegacy() && e.Matches(d)
  }

  /** The entry vouches for a connected device whose interfaces are known. */
  predicate Seen(e: Fingerprint, connected: seq<Fingerprint>) {
    exists d :: d in connected && !d.IsLegacy() && e.Matches(d)
  }

  datatype Verdict = Trusted | Unknown | FingerprintMismatch(gainedHid: bool)

  function VerdictOn(devices: seq<Fingerprint>, d: Fingerprint): Verdict {
    if Vouched(devices, d) then Trusted
    else if !exists e :: e in devices && e.SameModel(d) then Unknown
    else FingerprintMismatch(d.IsHid() && forall e :: e in devices && e.SameModel(d) ==> !e.IsHid())
  }

  /** A clone of a fully known model that types, when no entry of the model does, is always flagged as such. */
  lemma CloneWithKeyboardIsFlagged(devices: seq<Fingerprint>, genuine: Fingerprint, clone: Fingerprint)
    requires genuine in devices && genuine.SameModel(clone)
    requires forall e :: e in devices && e.SameModel(clone) ==> !e.IsLegacy() && !e.IsHid()
    requires clone.IsHid()
    ensures VerdictOn(devices, clone) == FingerprintMismatch(true)
  {
    forall e | e in devices
      ensures !e.Matches(clone)
    {
      assert e.interfaces == clone.interfaces ==> e.IsHid() == clone.IsHid();
    }
  }

  /** An interface of class `code`. */
  predicate IsOfClass(triplet: string, code: string) {
    triplet == code || code + ":" <= triplet
  }

  /** The verdict on any device against any store: exactly when it is flagged as a clone that gained a keyboard. */
  lemma FlaggedIff(devices: seq<Fingerprint>, d: Fingerprint)
    ensures VerdictOn(devices, d) == FingerprintMismatch(true) <==>
              && (forall e :: e in devices ==> !e.Matches(d))
              && (exists e :: e in devices && e.SameModel(d))
              && d.interfaces.Some? && (exists i :: i in d.interfaces.value && IsOfClass(i, "03"))
              && (forall e :: e in devices && e.SameModel(d) && e.interfaces.Some? ==>
                    forall i :: i in e.interfaces.value ==> !IsOfClass(i, "03"))
  {
    forall e: Fingerprint
      ensures e.IsHid() <==> e.interfaces.Some? && exists i :: i in e.interfaces.value && IsOfClass(i, "03")
    {
      HidIff(e);
    }
    hide IsOfClass, Fingerprint.IsHid, Fingerprint.Matches, Fingerprint.SameModel;
  }

  lemma HidIff(e: Fingerprint)
    ensures e.IsHid() <==> e.interfaces.Some? && exists i :: i in e.interfaces.value && IsOfClass(i, "03")
  {
    hide ClassOf;
    forall i: string
      ensures ClassOf(i) == "03" <==> IsOfClass(i, "03")
    {
      ClassIs(i, "03");
    }
  }

  lemma HubIff(e: Fingerprint)
    ensures e.IsHub() <==>
              && e.interfaces.Some? && e.interfaces.value != []
              && forall i :: i in e.interfaces.value ==> IsOfClass(i, "09")
  {
    hide ClassOf;
    forall i: string
      ensures ClassOf(i) == "09" <==> IsOfClass(i, "09")
    {
      ClassIs(i, "09");
    }
  }

  // ---------------------------------------------------------------------------
  // Migration of legacy entries
  // ---------------------------------------------------------------------------

  predicate IsReplaced(e: Fingerprint, connected: seq<Fingerprint>) {
    e.IsLegacy() && Seen(e, connected)
  }

  /** The entries that stay, in order. */
  function Staying(devices: seq<Fingerprint>, connected: seq<Fingerprint>): (r: seq<Fingerprint>)
    ensures forall e :: e in r <==> e in devices && !IsReplaced(e, connected)
  {
    if devices == [] then []
    else
      var n := |devices| - 1;
      Staying(devices[..n], connected) + if IsReplaced(devices[n], connected) then [] else [devices[n]]
  }

  /** What entry `e` adds from the first `j` connected devices when `known` is in the store. */
  function Learned(known: seq<Fingerprint>, e: Fingerprint, connected: seq<Fingerprint>, j: nat): (r: seq<Fingerprint>)
    requires j <= |connected|
    ensures forall d :: d in r ==> d in connected && !d.IsLegacy() && e.Matches(d)
  {
    if j == 0 then []
    else
      var prev := Learned(known, e, connected, j - 1);
      var d := connected[j - 1];
      if !d.IsLegacy() && e.Matches(d) && !Covered(known + prev, d) then prev + [d] else prev
  }

  /** What the first `n` entries add, one behind the other. */
  function Additions(devices: seq<Fingerprint>, connected: seq<Fingerprint>, n: nat): (r: seq<Fingerprint>)
    requires n <= |devices|
    ensures forall d :: d in r ==> d in connected && !d.IsLegacy() && VouchedByModel(devices, d)
  {
    if n == 0 then []
    else
      var prev := Additions(devices, connected, n - 1);
      var e := devices[n - 1];
      if e.IsLegacy() then prev + Learned(devices + prev, e, connected, |connected|) else prev
  }

  /** The store after the migration. */
  function Migrated(devices: seq<Fingerprint>, connected: seq<Fingerprint>): seq<Fingerprint> {
    Staying(devices, connected) + Additions(devices, connected, |devices|)
  }

  lemma CoveredByMore(known: seq<Fingerprint>, more: seq<Fingerprint>, d: Fingerprint)
    requires Covered(known, d) && forall e :: e in known ==> e in more
    ensures Covered(more, d)
  {
  }

  lemma {:induction false} LearnedCovers(known: seq<Fingerprint>, e: Fingerprint, connected: seq<Fingerprint>, j: nat)
    requires j <= |connected|
    ensures forall k :: 0 <= k < j && !connected[k].IsLegacy() && e.Matches(connected[k]) ==>
              Covered(known + Learned(known, e, connected, j), connected[k])
  {
    hide Covered, Fingerprint.Matches;
    if j > 0 {
      LearnedCovers(known, e, connected, j - 1);
      var prev, now := known + Learned(known, e, connected, j - 1), known + Learned(known, e, connected, j);
      assert forall x :: x in prev ==> x in now;
      forall k | 0 <= k < j && !connected[k].IsLegacy() && e.Matches(connected[k])
        ensures Covered(now, connected[k])
      {
        if Covered(prev, connected[k]) {
          CoveredByMore(prev, now, connected[k]);
        } else {
          CoversItself(now, connected[k]);
        }
      }
    }
  }

  lemma CoversItself(devices: seq<Fingerprint>, d: Fingerprint)
    requires d in devices && !d.IsLegacy()
    ensures Covered(devices, d)
  {
    MatchesIsPreorder(d, d, d);
  }

  /** Every connected device that a legacy entry vouched for ends up covered by a full entry. */
  lemma {:induction false} AdditionsCover(devices: seq<Fingerprint>, connected: seq<Fingerprint>, n: nat)
    requires n <= |devices|
    ensures forall k, d ::
              0 <= k < n && devices[k].IsLegacy() && d in connected && !d.IsLegacy() && devices[k].Matches(d)
              ==> Covered(devices + Additions(devices, connected, n), d)
  {
    if n > 0 {
      AdditionsCover(devices, connected, n - 1);
      var prev := devices + Additions(devices, connected, n - 1);
      var now := devices + Additions(devices, connected, n);
      var e := devices[n - 1];
      assert forall x :: x in prev ==> x in now;
      forall k, d | 0 <= k < n && devices[k].IsLegacy() && d in connected && !d.IsLegacy() && devices[k].Matches(d)
        ensures Covered(now, d)
      {
        if k < n - 1 {
          CoveredByMore(prev, now, d);
        } else {
          LearnedCovers(prev, e, connected, |connected|);
          var learned := Learned(prev, e, connected, |connected|);
          assert Covered(prev + learned, d);
          CoveredByMore(prev + learned, now, d);
        }
      }
    }
  }

  lemma FullEntriesStay(devices: seq<Fingerprint>, connected: seq<Fingerprint>, d: Fingerprint)
    ensures Covered(Migrated(devices, connected), d)
        <==> Covered(devices + Additions(devices, connected, |devices|), d)
    ensures Covered(devices, d) ==> Covered(Migrated(devices, connected), d)
  {
    var after, all := Migrated(devices, connected), devices + Additions(devices, connected, |devices|);
    assert forall e :: e in after ==> e in all;
    assert forall e :: e in all && !e.IsLegacy() ==> e in after;
  }

  /** Never strand: a connected device with known interfaces that was trusted is covered by a full entry afterwards. */
  lemma MigrationKeepsConnected(devices: seq<Fingerprint>, connected: seq<Fingerprint>, d: Fingerprint)
    requires d in connected && !d.IsLegacy() && Vouched(devices, d)
    ensures Covered(Migrated(devices, connected), d)
  {
    AdditionsCover(devices, connected, |devices|);
    FullEntriesStay(devices, connected, d);
    var e :| e in devices && e.Matches(d);
    if e.IsLegacy() {
      var k :| 0 <= k < |devices| && devices[k] == e;
    }
  }

  /** The closed form of the trusted set: what full entries vouched for, what a connected device that a legacy entry
      vouched for matches, and what a legacy entry without any connected device vouched for. */
  ghost predicate TrustedByRule(devices: set<Fingerprint>, connected: set<Fingerprint>, x: Fingerprint) {
    || (exists e :: e in devices && !e.IsLegacy() && e.Matches(x))
    || (exists d, e :: d in connected && !d.IsLegacy() && d.Matches(x) && e in devices && e.IsLegacy() && e.Matches(d))
    || (exists e :: e in devices && e.IsLegacy() && e.Matches(x)
          && forall d :: d in connected && !d.IsLegacy() ==> !e.Matches(d))
  }

  lemma TrustedAfterMigration(devices: seq<Fingerprint>, connected: seq<Fingerprint>, x: Fingerprint)
    ensures Vouched(Migrated(devices, connected), x)
        <==> TrustedByRule(Elements(devices), Elements(connected), x)
  {
    var after := Migrated(devices, connected);
    if Vouched(after, x) {
      var e :| e in after && e.Matches(x);
      if e in Staying(devices, connected) {
        assert e in Elements(devices);
      } else {
        assert e in Elements(connected) && VouchedByModel(devices, e);
        var m :| m in devices && m.IsLegacy() && m.Matches(e);
        assert m in Elements(devices);
      }
    }
    if TrustedByRule(Elements(devices), Elements(connected), x) {
      RuleIsSufficient(devices, connected, x);
    }
  }

  lemma RuleIsSufficient(devices: seq<Fingerprint>, connected: seq<Fingerprint>, x: Fingerprint)
    requires TrustedByRule(Elements(devices), Elements(connected), x)
    ensures Vouched(Migrated(devices, connected), x)
  {
    var after := Migrated(devices, connected);
    if e :| e in devices && !e.IsLegacy() && e.Matches(x) {
      assert e in after;
    } else if d, e :| d in connected && !d.IsLegacy() && d.Matches(x) && e in devices && e.IsLegacy() && e.Matches(d) {
      MigrationKeepsConnected(devices, connected, d);
      var f :| f in after && !f.IsLegacy() && f.Matches(d);
      MatchesIsPreorder(f, d, x);
    } else {
      var e :| e in Elements(devices) && e.IsLegacy() && e.Matches(x)
                 && forall d :: d in Elements(connected) && !d.IsLegacy() ==> !e.Matches(d);
      assert e in after;
    }
  }

  /** The trusted set depends neither on the order of the entries nor on the order of the connected devices. */
  lemma MigrationIgnoresOrder(
    devices: seq<Fingerprint>, connected: seq<Fingerprint>,
    devices': seq<Fingerprint>, connected': seq<Fingerprint>, x: Fingerprint)
    requires Elements(devices) == Elements(devices') && Elements(connected) == Elements(connected')
    ensures Vouched(Migrated(devices, connected), x) <==> Vouched(Migrated(devices', connected'), x)
  {
    TrustedAfterMigration(devices, connected, x);
    TrustedAfterMigration(devices', connected', x);
  }

  /** Never widen: whatever is trusted after the migration was trusted before. */
  lemma MigrationNeverWidens(devices: seq<Fingerprint>, connected: seq<Fingerprint>, x: Fingerprint)
    requires Vouched(Migrated(devices, connected), x)
    ensures Vouched(devices, x)
  {
    var f :| f in Migrated(devices, connected) && f.Matches(x);
    if f !in devices {
      var e :| e in devices && e.IsLegacy() && e.Matches(f);
      MatchesIsPreorder(e, f, x);
    }
  }

  /** The migration changes the store exactly when some legacy entry vouches for a connected device. */
  lemma MigrationChangesIff(devices: seq<Fingerprint>, connected: seq<Fingerprint>)
    ensures Migrated(devices, connected) != devices <==> exists e :: e in devices && IsReplaced(e, connected)
  {
    if e :| e in devices && IsReplaced(e, connected) {
      assert e !in Migrated(devices, connected);
    } else {
      NothingLeaves(devices, connected);
      NothingAdded(devices, connected, |devices|);
    }
  }

  lemma {:induction false} NothingLeaves(devices: seq<Fingerprint>, connected: seq<Fingerprint>)
    requires forall e :: e in devices ==> !IsReplaced(e, connected)
    ensures Staying(devices, connected) == devices
    decreases |devices|
  {
    if devices != [] {
      var n := |devices| - 1;
      assert devices == devices[..n] + [devices[n]];
      hide IsReplaced;
      NothingLeaves(devices[..n], connected);
    }
  }

  lemma {:induction false} NothingAdded(devices: seq<Fingerprint>, connected: seq<Fingerprint>, n: nat)
    requires n <= |devices| && forall e :: e in devices ==> !IsReplaced(e, connected)
    ensures Additions(devices, connected, n) == []
  {
    if n > 0 {
      NothingAdded(devices, connected, n - 1);
      var e := devices[n - 1];
      assert !IsReplaced(e, connected);
      if e.IsLegacy() {
        NothingLearned(devices + [], e, connected, |connected|);
      }
    }
  }

  lemma {:induction false} NothingLearned(
    known: seq<Fingerprint>, e: Fingerprint, connected: seq<Fingerprint>, j: nat)
    requires j <= |connected| && !Seen(e, connected)
    ensures Learned(known, e, connected, j) == []
  {
    if j > 0 {
      NothingLearned(known, e, connected, j - 1);
      assert connected[j - 1] in connected;
    }
  }

  /** Only the full entries among the known ones decide what is learned. */
  lemma {:induction false} LearnedDependsOnFullEntries(
    known: seq<Fingerprint>, known': seq<Fingerprint>, e: Fingerprint, connected: seq<Fingerprint>, j: nat)
    requires j <= |connected|
    requires forall x: Fingerprint :: !x.IsLegacy() ==> (x in known <==> x in known')
    ensures Learned(known, e, connected, j) == Learned(known', e, connected, j)
  {
    hide Covered, Fingerprint.Matches;
    if j > 0 {
      LearnedDependsOnFullEntries(known, known', e, connected, j - 1);
      SameCovered(known, known', Learned(known, e, connected, j - 1), connected[j - 1]);
    }
  }

  lemma SameCovered(known: seq<Fingerprint>, known': seq<Fingerprint>, more: seq<Fingerprint>, d: Fingerprint)
    requires forall x: Fingerprint :: !x.IsLegacy() ==> (x in known <==> x in known')
    ensures Covered(known + more, d) <==> Covered(known' + more, d)
  {
    hide Fingerprint.Matches;
    assert forall x: Fingerprint :: !x.IsLegacy() ==> (x in known + more <==> x in known' + more);
  }

  /** A second migration with the same devices changes nothing. */
  lemma MigrationIsIdempotent(devices: seq<Fingerprint>, connected: seq<Fingerprint>)
    ensures Migrated(Migrated(devices, connected), connected) == Migrated(devices, connected)
  {
    MigrationChangesIff(Migrated(devices, connected), connected);
  }

  // ---------------------------------------------------------------------------
  // The store
  // ---------------------------------------------------------------------------

  /** The store after `device` was trusted. */
  function TrustedWith(devices: seq<Fingerprint>, device: Fingerprint): seq<Fingerprint> {
    var migrated := Migrated(devices, [device]);
    if migrated != devices then migrated
    else if Vouched(devices, device) then devices
    else devices + [device]
  }

  class TrustStore {
    var devices: seq<Fingerprint>

    constructor (devices: seq<Fingerprint>)
      ensures this.devices == devices
    {
      this.devices := devices;
    }

    /** What the legacy entry at position `i` is replaced with, and whether it vouches for any connected device. */
    method Learn(i: nat, connected: seq<Fingerprint>) returns (upgraded: seq<Fingerprint>, seen: bool)
      requires i < |devices|
      ensures upgraded == Learned(devices, devices[i], connected, |connected|)
      ensures seen == Seen(devices[i], connected)
    {
      upgraded, seen := [], false;
      for j := 0 to |connected|
        invariant upgraded == Learned(devices, devices[i], connected, j)
        invariant seen == Seen(devices[i], connected[..j])
      {
        var device := connected[j];
        assert connected[..j + 1] == connected[..j] + [device];
        if device.IsLegacy() || !devices[i].Matches(device) {
          continue;
        }
        seen := true;
        if !Covered(devices + upgraded, device) {
          upgraded := upgraded + [device];
        }
      }
      assert connected[..|connected|] == connected;
    }

    method UpgradeLegacy(connected: seq<Fingerprint>) returns (changed: bool)
      modifies this
      ensures devices == Migrated(old(devices), connected)
      ensures changed == (devices != old(devices))
    {
      hide *;
      changed := false;
      var i := 0;
      ghost var was := devices;
      ghost var n := 0;
      LoopStarts(was, connected);
      while i < |devices|
        invariant InLoop(was, connected, n, devices, i)
        invariant changed == AnyReplaced(was, connected, n)
        decreases |was| - n, |devices| - i
      {
        LoopStep(was, connected, n, devices, i);
        if !devices[i].IsLegacy() {
          i := i + 1;
          if n < |was| { n := n + 1; }
          continue;
        }
        var upgraded, seen := Learn(i, connected);
        if !seen {
          i := i + 1;
          n := n + 1;
          continue;
        }
        devices := devices[..i] + devices[i + 1..];
        devices := devices + upgraded;
        changed := true;
        n := n + 1;
      }
      LoopDone(was, connected, n, devices, i);
    }

    method Trust(device: Fingerprint) returns (added: bool)
      modifies this
      ensures devices == TrustedWith(old(devices), device)
      ensures added == (devices != old(devices))
    {
      var upgraded := UpgradeLegacy([device]);
      if upgraded {
        return true;
      }
      if Vouched(devices, device) {
        return false;
      }
      devices := devices + [device];
      return true;
    }
  }

  /** The loop has replaced what needed replacing among the first `n` old entries; `i` is where it looks next. */
  ghost predicate InLoop(
    was: seq<Fingerprint>, connected: seq<Fingerprint>, n: nat, devices: seq<Fingerprint>, i: nat)
  {
    && n <= |was|
    && var kept := Staying(was[..n], connected);
    && devices == kept + was[n..] + Additions(was, connected, n)
    && |kept| <= i <= |devices|
    && (n < |was| ==> i == |kept|)
  }

  /** One of the first `n` old entries is replaced. */
  ghost predicate AnyReplaced(was: seq<Fingerprint>, connected: seq<Fingerprint>, n: nat) {
    exists k :: 0 <= k < n && k < |was| && IsReplaced(was[k], connected)
  }

  lemma LoopStarts(was: seq<Fingerprint>, connected: seq<Fingerprint>)
    ensures InLoop(was, connected, 0, was, 0) && !AnyReplaced(was, connected, 0)
  {
    assert was[0..] == was;
  }

  lemma LoopStep(was: seq<Fingerprint>, connected: seq<Fingerprint>, n: nat, devices: seq<Fingerprint>, i: nat)
    requires InLoop(was, connected, n, devices, i) && i < |devices|
    ensures n <= |was| && (n < |was| ==> devices[i] == was[n])
    ensures devices[i].IsLegacy() ==> n < |was|
    ensures !devices[i].IsLegacy() && n == |was| ==> InLoop(was, connected, n, devices, i + 1)
    ensures n < |was| && !IsReplaced(was[n], connected) ==> InLoop(was, connected, n + 1, devices, i + 1)
    ensures n < |was| && IsReplaced(was[n], connected) ==>
              InLoop(was, connected, n + 1,
                     devices[..i] + devices[i + 1..] + Learned(devices, was[n], connected, |connected|), i)
    ensures n < |was| ==> IsReplaced(was[n], connected) == (devices[i].IsLegacy() && Seen(devices[i], connected))
    ensures n < |was| ==>
              AnyReplaced(was, connected, n + 1) == (AnyReplaced(was, connected, n) || IsReplaced(was[n], connected))
  {
    if n == |was| {
      LoopBehindOld(was, connected, devices, i);
    } else {
      hide Learned;
      LoopAtOld(was, connected, n, devices, i);
      if IsReplaced(was[n], connected) {
        LoopReplaces(was, connected, n, devices, i);
      } else {
        LoopKeeps(was, connected, n, devices, i);
      }
    }
  }

  lemma LoopBehindOld(was: seq<Fingerprint>, connected: seq<Fingerprint>, devices: seq<Fingerprint>, i: nat)
    requires InLoop(was, connected, |was|, devices, i) && i < |devices|
    ensures !devices[i].IsLegacy() && InLoop(was, connected, |was|, devices, i + 1)
  {
    var kept, added := Staying(was[..|was|], connected), Additions(was, connected, |was|);
    assert devices[i] == added[i - |kept|];
    assert devices[i] in added;
  }

  lemma LoopAtOld(was: seq<Fingerprint>, connected: seq<Fingerprint>, n: nat, devices: seq<Fingerprint>, i: nat)
    requires InLoop(was, connected, n, devices, i) && n < |was|
    ensures i < |devices| && devices[i] == was[n]
  {
    hide Staying, Additions;
    assert was[n..][0] == was[n];
  }

  lemma LoopKeeps(was: seq<Fingerprint>, connected: seq<Fingerprint>, n: nat, devices: seq<Fingerprint>, i: nat)
    requires InLoop(was, connected, n, devices, i) && n < |was| && !IsReplaced(was[n], connected)
    ensures InLoop(was, connected, n + 1, devices, i + 1)
  {
    var kept, added := Staying(was[..n], connected), Additions(was, connected, n);
    assert Additions(was, connected, n + 1) == added by {
      if was[n].IsLegacy() {
        NothingLearned(was + added, was[n], connected, |connected|);
      }
    }
    StayingStep(was, connected, n);
    KeepOne(kept, was, n, added);
    hide Staying, Additions, IsReplaced;
  }

  lemma KeepOne<T>(kept: seq<T>, was: seq<T>, n: nat, added: seq<T>)
    requires n < |was|
    ensures kept + was[n..] + added == kept + [was[n]] + was[n + 1..] + added
  {
  }

  lemma LoopReplaces(was: seq<Fingerprint>, connected: seq<Fingerprint>, n: nat, devices: seq<Fingerprint>, i: nat)
    requires InLoop(was, connected, n, devices, i) && n < |was| && IsReplaced(was[n], connected)
    ensures i < |devices|
    ensures InLoop(was, connected, n + 1,
                   devices[..i] + devices[i + 1..] + Learned(devices, was[n], connected, |connected|), i)
  {
    var kept, added := Staying(was[..n], connected), Additions(was, connected, n);
    var learned := Learned(devices, was[n], connected, |connected|);
    assert was[n].IsLegacy();
    hide Staying, Additions, Learned, IsReplaced;
    KnownInLoop(was, connected, n, devices);
    LearnedDependsOnFullEntries(was + added, devices, was[n], connected, |connected|);
    AdditionsStep(was, connected, n);
    StayingStep(was, connected, n);
    ReplaceOne(kept, was, n, added, learned);
  }

  lemma AdditionsStep(was: seq<Fingerprint>, connected: seq<Fingerprint>, n: nat)
    requires n < |was| && was[n].IsLegacy()
    ensures var added := Additions(was, connected, n);
      Additions(was, connected, n + 1) == added + Learned(was + added, was[n], connected, |connected|)
  {
    hide Learned;
  }

  lemma ReplaceOne<T>(kept: seq<T>, was: seq<T>, n: nat, added: seq<T>, learned: seq<T>)
    requires n < |was|
    ensures var all := kept + was[n..] + added; var i := |kept|;
      all[..i] + all[i + 1..] + learned == kept + was[n + 1..] + (added + learned)
  {
    var all := kept + was[n..] + added;
    assert all[..|kept|] == kept;
    assert all[|kept| + 1..] == was[n + 1..] + added;
    Associates(was[n + 1..], added, learned);
    Associates(kept, was[n + 1..] + added, learned);
    Associates(kept, was[n + 1..], added + learned);
  }

  lemma StayingStep(was: seq<Fingerprint>, connected: seq<Fingerprint>, n: nat)
    requires n < |was|
    ensures Staying(was[..n + 1], connected)
         == if IsReplaced(was[n], connected) then Staying(was[..n], connected)
            else Staying(was[..n], connected) + [was[n]]
  {
    hide IsReplaced;
    assert was[..n + 1][..n] == was[..n];
    assert Staying(was[..n], connected) + [] == Staying(was[..n], connected);
  }

  /** Mid-loop the list holds the same full entries as the old list with what was added so far. */
  lemma KnownInLoop(was: seq<Fingerprint>, connected: seq<Fingerprint>, n: nat, devices: seq<Fingerprint>)
    requires n <= |was| && devices == Staying(was[..n], connected) + was[n..] + Additions(was, connected, n)
    ensures forall x: Fingerprint ::
              !x.IsLegacy() ==> (x in was + Additions(was, connected, n) <==> x in devices)
  {
    hide Staying, Additions, Seen;
    var kept, added := Staying(was[..n], connected), Additions(was, connected, n);
    assert was == was[..n] + was[n..];
    forall x: Fingerprint | !x.IsLegacy()
      ensures x in was + added <==> x in devices
    {
      assert x in was <==> x in was[..n] || x in was[n..];
      assert x in was[..n] <==> x in kept;
    }
  }

  lemma LoopDone(was: seq<Fingerprint>, connected: seq<Fingerprint>, n: nat, devices: seq<Fingerprint>, i: nat)
    requires InLoop(was, connected, n, devices, i) && i >= |devices|
    ensures n == |was| && devices == Migrated(was, connected)
    ensures devices != was <==> AnyReplaced(was, connected, n)
  {
    assert was[..|was|] == was;
    MigrationChangesIff(was, connected);
    hide Migrated, IsReplaced, Staying, Additions;
    assert forall e :: e in was ==> exists k :: 0 <= k < |was| && was[k] == e;
  }

  // ---------------------------------------------------------------------------
  // Trusting devices
  // ---------------------------------------------------------------------------

  /** Trusting a device trusts it and nothing it does not itself match; what was covered stays covered. */
  lemma TrustIsExact(devices: seq<Fingerprint>, device: Fingerprint, x: Fingerprint)
    ensures Vouched(TrustedWith(devices, device), device)
    ensures !device.IsLegacy() ==> Covered(TrustedWith(devices, device), device)
    ensures Vouched(TrustedWith(devices, device), x) ==> Vouched(devices, x) || device.Matches(x)
    ensures Covered(devices, x) ==> Covered(TrustedWith(devices, device), x)
  {
    var after := TrustedWith(devices, device);
    MatchesIsPreorder(device, device, device);
    MigrationChangesIff(devices, [device]);
    FullEntriesStay(devices, [device], x);
    if Migrated(devices, [device]) != devices {
      MigrationKeepsConnected(devices, [device], device);
      if Vouched(after, x) {
        MigrationNeverWidens(devices, [device], x);
      }
    } else if Vouched(devices, device) {
      if !device.IsLegacy() {
        MigrationKeepsConnected(devices, [device], device);
      }
    } else {
      assert device in after;
      CoveredByMoreIf(devices, after, x);
    }
  }

  lemma CoveredByMoreIf(known: seq<Fingerprint>, more: seq<Fingerprint>, d: Fingerprint)
    requires forall e :: e in known ==> e in more
    ensures Covered(known, d) ==> Covered(more, d)
  {
  }

  /** Trust in a device with unknown interfaces is carried by legacy entries only: it outlives a call exactly when one
      of them is not replaced, or the call is for a device that matches it. */
  lemma TrustKeepsUnknownIff(devices: seq<Fingerprint>, device: Fingerprint, x: Fingerprint)
    requires x.IsLegacy()
    ensures Vouched(TrustedWith(devices, device), x) <==>
      || (exists e :: e in devices && e.IsLegacy() && e.Matches(x) && (device.IsLegacy() || !e.Matches(device)))
      || (device.IsLegacy() && device.Matches(x))
  {
    var after := TrustedWith(devices, device);
    assert device in [device];
    MigrationChangesIff(devices, [device]);
    if e :| e in after && e.Matches(x) {
      assert e.IsLegacy();
      assert e == device || (e in devices && !IsReplaced(e, [device]));
    }
    if device.IsLegacy() && device.Matches(x) {
      TrustIsExact(devices, device, device);
      var f :| f in after && f.Matches(device);
      MatchesIsPreorder(f, device, x);
    } else if e :| e in devices && e.IsLegacy() && e.Matches(x) && (device.IsLegacy() || !e.Matches(device)) {
      assert e in after;
    }
  }

  /** A second `trust` of the same device returns false and changes nothing. */
  lemma TrustIsIdempotent(devices: seq<Fingerprint>, device: Fingerprint)
    ensures TrustedWith(TrustedWith(devices, device), device) == TrustedWith(devices, device)
  {
    var after := TrustedWith(devices, device);
    TrustIsExact(devices, device, device);
    MigrationChangesIff(devices, [device]);
    MigrationChangesIff(after, [device]);
    if Migrated(devices, [device]) != devices {
      MigrationIsIdempotent(devices, [device]);
    }
  }

  /** One connected device as "Trust Devices" sees it. */
  datatype Observed = Observed(fp: Fingerprint, blocked: bool, enumerating: bool)
  {
    predicate Skipped() { !blocked && enumerating }
  }

  function Settled(observed: seq<Observed>): (r: seq<Fingerprint>)
    ensures forall d :: d in r <==> exists o :: o in observed && !o.enumerating && o.fp == d
  {
    if observed == [] then []
    else
      var n := |observed| - 1;
      Settled(observed[..n]) + if observed[n].enumerating then [] else [observed[n].fp]
  }

  /** The store after the first `n` observed devices were trusted one by one. */
  function TrustedUpTo(devices: seq<Fingerprint>, observed: seq<Observed>, n: nat): seq<Fingerprint>
    requires n <= |observed|
  {
    if n == 0 then devices
    else
      var prev := TrustedUpTo(devices, observed, n - 1);
      if observed[n - 1].Skipped() then prev else TrustedWith(prev, observed[n - 1].fp)
  }

  function Merged(devices: seq<Fingerprint>, observed: seq<Observed>): seq<Fingerprint> {
    TrustedUpTo(Migrated(devices, Settled(observed)), observed, |observed|)
  }

  /** How many of those calls changed the store. */
  function AddedUpTo(devices: seq<Fingerprint>, observed: seq<Observed>, n: nat): nat
    requires n <= |observed|
  {
    if n == 0 then 0
    else
      var changed := TrustedUpTo(devices, observed, n) != TrustedUpTo(devices, observed, n - 1);
      AddedUpTo(devices, observed, n - 1) + if changed then 1 else 0
  }

  method MergeIntoBaseline(store: TrustStore, observed: seq<Observed>) returns (added: nat)
    modifies store
    ensures store.devices == Merged(old(store.devices), observed)
    ensures var migrated := Migrated(old(store.devices), Settled(observed));
      added == (if migrated != old(store.devices) then 1 else 0) + AddedUpTo(migrated, observed, |observed|)
  {
    var settled: seq<Fingerprint> := [];
    for k := 0 to |observed|
      invariant settled == Settled(observed[..k])
    {
      assert observed[..k + 1][..k] == observed[..k];
      if !observed[k].enumerating {
        settled := settled + [observed[k].fp];
      }
    }
    assert observed[..|observed|] == observed;
    var changed := store.UpgradeLegacy(settled);
    hide TrustedWith, Migrated, TrustedUpTo, Settled;
    added := if changed then 1 else 0;
    ghost var migrated, first := store.devices, added;
    for k := 0 to |observed|
      invariant store.devices == TrustedUpTo(migrated, observed, k)
      invariant added == first + AddedUpTo(migrated, observed, k)
    {
      var o := observed[k];
      TrustedUpToStep(migrated, observed, k + 1);
      if !o.blocked && o.enumerating {
        continue;
      }
      var isNew := store.Trust(o.fp);
      if isNew {
        added := added + 1;
      }
    }
  }

  lemma {:induction false} TrustedUpToKeeps(devices: seq<Fingerprint>, observed: seq<Observed>, n: nat, d: Fingerprint)
    requires n <= |observed| && Covered(devices, d)
    ensures Covered(TrustedUpTo(devices, observed, n), d)
  {
    hide Covered, TrustedWith, Vouched;
    if n > 0 {
      TrustedUpToKeeps(devices, observed, n - 1, d);
      TrustIsExact(TrustedUpTo(devices, observed, n - 1), observed[n - 1].fp, d);
    }
  }

  lemma {:induction false} TrustedUpToCovers(devices: seq<Fingerprint>, observed: seq<Observed>, n: nat, k: nat)
    requires k < n <= |observed| && !observed[k].Skipped() && !observed[k].fp.IsLegacy()
    ensures Covered(TrustedUpTo(devices, observed, n), observed[k].fp)
    decreases n
  {
    hide TrustedWith, Covered, TrustedUpTo;
    TrustedUpToStep(devices, observed, n);
    if k < n - 1 {
      TrustedUpToCovers(devices, observed, n - 1, k);
    }
    TrustIsExact(TrustedUpTo(devices, observed, n - 1), observed[n - 1].fp, observed[k].fp);
  }

  /** After a merge every device that was not still enumerating and whose interfaces are known is covered by a full
      entry, and what was covered before still is. */
  lemma MergeCovers(devices: seq<Fingerprint>, observed: seq<Observed>, o: Observed, d: Fingerprint)
    requires o in observed && !o.Skipped() && !o.fp.IsLegacy()
    ensures Covered(Merged(devices, observed), o.fp)
    ensures Covered(devices, d) ==> Covered(Merged(devices, observed), d)
  {
    var migrated := Migrated(devices, Settled(observed));
    var k :| 0 <= k < |observed| && observed[k] == o;
    TrustedUpToCovers(migrated, observed, |observed|, k);
    if Covered(devices, d) {
      FullEntriesStay(devices, Settled(observed), d);
      TrustedUpToKeeps(migrated, observed, |observed|, d);
    }
  }

  /** One of the first `n` observed devices, not skipped, itself matches `x`. */
  predicate MatchedUpTo(observed: seq<Observed>, n: nat, x: Fingerprint)
    requires n <= |observed|
  {
    exists k :: 0 <= k < n && !observed[k].Skipped() && observed[k].fp.Matches(x)
  }

  lemma {:induction false} TrustedUpToIsExact(
    devices: seq<Fingerprint>, observed: seq<Observed>, n: nat, x: Fingerprint)
    requires n <= |observed| && Vouched(TrustedUpTo(devices, observed, n), x)
    ensures Vouched(devices, x) || MatchedUpTo(observed, n, x)
  {
    hide Vouched, MatchedUpTo, TrustedWith, Fingerprint.Matches, Observed.Skipped;
    if n > 0 {
      var prev := TrustedUpTo(devices, observed, n - 1);
      MatchedUpToStep(observed, n, x);
      TrustIsExact(prev, observed[n - 1].fp, x);
      if Vouched(prev, x) {
        TrustedUpToIsExact(devices, observed, n - 1, x);
      }
    }
  }

  lemma TrustedUpToStep(devices: seq<Fingerprint>, observed: seq<Observed>, n: nat)
    requires 0 < n <= |observed|
    ensures var prev := TrustedUpTo(devices, observed, n - 1); var o := observed[n - 1];
      TrustedUpTo(devices, observed, n) == if o.Skipped() then prev else TrustedWith(prev, o.fp)
  {
  }

  lemma MatchedUpToStep(observed: seq<Observed>, n: nat, x: Fingerprint)
    requires 0 < n <= |observed|
    ensures MatchedUpTo(observed, n - 1, x) ==> MatchedUpTo(observed, n, x)
    ensures !observed[n - 1].Skipped() && observed[n - 1].fp.Matches(x) ==> MatchedUpTo(observed, n, x)
  {
    hide Fingerprint.Matches;
  }

  /** A merge trusts nothing but what was trusted and what some observed device itself matches. */
  lemma MergeIsExact(devices: seq<Fingerprint>, observed: seq<Observed>, x: Fingerprint)
    requires Vouched(Merged(devices, observed), x)
    ensures Vouched(devices, x) || MatchedUpTo(observed, |observed|, x)
  {
    var migrated := Migrated(devices, Settled(observed));
    TrustedUpToIsExact(migrated, observed, |observed|, x);
    if Vouched(migrated, x) {
      MigrationNeverWidens(devices, Settled(observed), x);
    }
  }

  /** A blocked device recorded without its interfaces may lose its entry to a settled device of the same model. */
  lemma BlockedDeviceMayBeAbsorbed() returns (devices: seq<Fingerprint>, observed: seq<Observed>)
    ensures |observed| == 2 && observed[0].blocked && !observed[0].Skipped()
    ensures !Vouched(Merged(devices, observed), observed[0].fp)
  {
    var blocked := Fingerprint("1d50", "60fc", None, None, None);
    var twin := blocked.(interfaces := Some(["03:01:01"]));
    devices, observed := [], [Observed(blocked, true, true), Observed(twin, false, false)];
    MigrationChangesIff([], Settled(observed));
    MigrationChangesIff([], [blocked]);
    TwinAbsorbs(blocked, twin);
    assert TrustedUpTo([], observed, 1) == TrustedWith([], blocked) == [blocked];
    assert Merged([], observed) == TrustedWith([blocked], twin);
  }

  /** Trusting a fully known device of the same model and serial takes an entry without interfaces with it. */
  lemma TwinAbsorbs(blocked: Fingerprint, twin: Fingerprint)
    requires blocked.IsLegacy() && !twin.IsLegacy() && blocked.Matches(twin)
    ensures !Vouched(TrustedWith([blocked], twin), blocked)
  {
    var after := Migrated([blocked], [twin]);
    assert twin in [twin] && blocked in [blocked] && IsReplaced(blocked, [twin]);
    MigrationChangesIff([blocked], [twin]);
    forall e | e in after
      ensures !e.Matches(blocked)
    {
      assert e in Staying([blocked], [twin]) || e in Additions([blocked], [twin], 1);
      assert e == twin;
    }
  }

  /** The entries without interfaces that vouch for a device: one for every serial number, or one for the device's
      own. */
  datatype Holding = Holding(anySerial: bool, sameSerial: bool) {
    predicate Any() { anySerial || sameSerial }
  }

  predicate IsAnySerial(e: Fingerprint, x: Fingerprint) {
    e.IsLegacy() && e.SameModel(x) && e.serial.None?
  }

  predicate IsSameSerial(e: Fingerprint, x: Fingerprint) {
    e.IsLegacy() && e.SameModel(x) && e.serial.Some? && e.serial == x.serial
  }

  /** What trusting `d` makes of the entries that vouch for `x`: a device with known interfaces takes those that vouch
      for it with it, and one without is recorded unless an entry vouches for it already. */
  function HoldingAfter(h: Holding, d: Fingerprint, x: Fingerprint): Holding {
    if !d.SameModel(x) then h
    else if !d.IsLegacy() then Holding(false, h.sameSerial && d.serial != x.serial)
    else if d.serial.None? then h.(anySerial := true)
    else if d.serial == x.serial && !h.Any() then h.(sameSerial := true)
    else h
  }

  function HoldingUpTo(start: Holding, observed: seq<Observed>, n: nat, x: Fingerprint): Holding
    requires n <= |observed|
  {
    if n == 0 then start
    else
      var h := HoldingUpTo(start, observed, n - 1, x);
      if observed[n - 1].Skipped() then h else HoldingAfter(h, observed[n - 1].fp, x)
  }

  ghost function HoldingOf(devices: seq<Fingerprint>, x: Fingerprint): Holding {
    Holding(exists e :: e in devices && IsAnySerial(e, x), exists e :: e in devices && IsSameSerial(e, x))
  }

  /** The same for the entries that vouch for no settled device, so that the migration leaves them. */
  ghost function HoldingUnreplaced(devices: seq<Fingerprint>, settled: seq<Fingerprint>, x: Fingerprint): Holding {
    Holding(exists e :: e in devices && IsAnySerial(e, x) && !IsReplaced(e, settled),
            exists e :: e in devices && IsSameSerial(e, x) && !IsReplaced(e, settled))
  }

  lemma MigrationLeavesUnreplaced(devices: seq<Fingerprint>, settled: seq<Fingerprint>, x: Fingerprint)
    ensures HoldingOf(Migrated(devices, settled), x) == HoldingUnreplaced(devices, settled, x)
  {
    var migrated := Migrated(devices, settled);
    forall e: Fingerprint | e.IsLegacy()
      ensures e in migrated <==> e in devices && !IsReplaced(e, settled)
    {
    }
    hide Migrated, IsReplaced;
    assert forall e :: e in migrated && IsAnySerial(e, x) ==> e in devices && !IsReplaced(e, settled);
    assert forall e :: e in migrated && IsSameSerial(e, x) ==> e in devices && !IsReplaced(e, settled);
  }

  /** Exactly when a merge leaves a judged device trusted, for any baseline and any connected devices: its interfaces
      are known, or two bits that follow the recorded entries through the observed devices say so. */
  lemma MergeTrustsIff(devices: seq<Fingerprint>, observed: seq<Observed>, o: Observed)
    requires o in observed && !o.Skipped()
    ensures var start := HoldingUnreplaced(devices, Settled(observed), o.fp);
      Vouched(Merged(devices, observed), o.fp)
      <==> !o.fp.IsLegacy() || HoldingUpTo(start, observed, |observed|, o.fp).Any()
  {
    hide Merged, HoldingUnreplaced, HoldingUpTo;
    if o.fp.IsLegacy() {
      RecordedDeviceStaysTrustedIff(devices, observed, o.fp);
    } else {
      MergeCovers(devices, observed, o, o.fp);
    }
  }

  /** The same for any device without interfaces, observed or not. */
  lemma RecordedDeviceStaysTrustedIff(devices: seq<Fingerprint>, observed: seq<Observed>, x: Fingerprint)
    requires x.IsLegacy()
    ensures var start := HoldingUnreplaced(devices, Settled(observed), x);
      Vouched(Merged(devices, observed), x) <==> HoldingUpTo(start, observed, |observed|, x).Any()
  {
    hide Migrated, TrustedUpTo, HoldingOf, HoldingUpTo, HoldingUnreplaced;
    var migrated := Migrated(devices, Settled(observed));
    MigrationLeavesUnreplaced(devices, Settled(observed), x);
    HoldingIsTracked(migrated, observed, |observed|, x);
    VouchedIffHeld(TrustedUpTo(migrated, observed, |observed|), x);
  }

  lemma VouchedIffHeld(devices: seq<Fingerprint>, x: Fingerprint)
    requires x.IsLegacy()
    ensures Vouched(devices, x) <==> HoldingOf(devices, x).Any()
  {
    if e :| e in devices && e.Matches(x) {
      assert IsAnySerial(e, x) || IsSameSerial(e, x);
    }
    if e :| e in devices && IsAnySerial(e, x) {
      assert e.Matches(x);
    }
    if e :| e in devices && IsSameSerial(e, x) {
      assert e.Matches(x);
    }
  }

  lemma {:induction false} HoldingIsTracked(devices: seq<Fingerprint>, observed: seq<Observed>, n: nat, x: Fingerprint)
    requires n <= |observed| && x.IsLegacy()
    ensures HoldingOf(TrustedUpTo(devices, observed, n), x) == HoldingUpTo(HoldingOf(devices, x), observed, n, x)
  {
    hide HoldingOf, TrustedWith, HoldingAfter;
    if n > 0 {
      HoldingIsTracked(devices, observed, n - 1, x);
      if !observed[n - 1].Skipped() {
        HoldingStep(TrustedUpTo(devices, observed, n - 1), observed[n - 1].fp, x);
      }
    }
  }

  /** Which entries without interfaces the store holds after `device` was trusted. */
  lemma LegacyEntriesAfterTrust(devices: seq<Fingerprint>, device: Fingerprint, e: Fingerprint)
    requires e.IsLegacy()
    ensures e in TrustedWith(devices, device) <==>
      || (e in devices && (device.IsLegacy() || !e.Matches(device)))
      || (e == device && !Vouched(devices, device))
  {
    MigrationChangesIff(devices, [device]);
    assert device in [device];
  }

  lemma HoldingStep(devices: seq<Fingerprint>, d: Fingerprint, x: Fingerprint)
    requires x.IsLegacy()
    ensures HoldingOf(TrustedWith(devices, d), x) == HoldingAfter(HoldingOf(devices, x), d, x)
  {
    hide TrustedWith;
    forall e: Fingerprint | e.IsLegacy()
      ensures e in TrustedWith(devices, d) <==>
        || (e in devices && (d.IsLegacy() || !e.Matches(d)))
        || (e == d && !Vouched(devices, d))
    {
      LegacyEntriesAfterTrust(devices, d, e);
    }
    VouchedIffHeld(devices, x);
    if d.IsLegacy() {
      VouchedIffHeld(devices, d);
    }
  }

  // ---------------------------------------------------------------------------
  // Reading the baseline file
  // ---------------------------------------------------------------------------

  /** An empty interface set was recorded from a blocked device; it is read as unknown. */
  function Normalised(e: Fingerprint): Fingerprint {
    if e.interfaces == Some([]) then e.(interfaces := None) else e
  }

  function Loaded(devices: seq<Fingerprint>): (r: seq<Fingerprint>)
    ensures |r| == |devices| && forall k :: 0 <= k < |r| ==> r[k] == Normalised(devices[k])
  {
    seq(|devices|, k requires 0 <= k < |devices| => Normalised(devices[k]))
  }

  /** Loading keeps every entry with a non-empty interface set. */
  lemma LoadedKeepsFullEntries(devices: seq<Fingerprint>, e: Fingerprint)
    requires e in devices && !Normalised(e).IsLegacy()
    ensures e in Loaded(devices)
  {
    var k :| 0 <= k < |devices| && devices[k] == e;
    assert Loaded(devices)[k] == e;
  }

  /** A real device that an entry recorded while it was blocked is trusted again on loading, and pinned to its real
      interfaces once it is connected. */
  lemma EmptyInterfaceSetHeals(devices: seq<Fingerprint>, e: Fingerprint, connected: seq<Fingerprint>, d: Fingerprint)
    requires e in devices && e.interfaces == Some([])
    requires d in connected && d.interfaces.Some? && d.interfaces != Some([])
    requires e.SameModel(d) && (e.serial.Some? ==> d.serial == e.serial)
    ensures !e.Matches(d)
    ensures Vouched(Loaded(devices), d)
    ensures Covered(Migrated(Loaded(devices), connected), d)
    ensures Normalised(e) !in Migrated(Loaded(devices), connected)
  {
    var k :| 0 <= k < |devices| && devices[k] == e;
    var n := Loaded(devices)[k];
    assert n in Loaded(devices) && n.Matches(d);
    MigrationKeepsConnected(Loaded(devices), connected, d);
    assert IsReplaced(n, connected);
  }

  // ---------------------------------------------------------------------------
  // Histories
  // ---------------------------------------------------------------------------

  datatype Op =
    | Upgrade(connected: seq<Fingerprint>)
    | Trust(device: Fingerprint)
    | Merge(observed: seq<Observed>)

  function Apply(devices: seq<Fingerprint>, op: Op): seq<Fingerprint> {
    match op
    case Upgrade(connected) => Migrated(devices, connected)
    case Trust(device) => TrustedWith(devices, device)
    case Merge(observed) => Merged(devices, observed)
  }

  function ApplyAll(devices: seq<Fingerprint>, ops: seq<Op>): seq<Fingerprint>
    decreases |ops|
  {
    if ops == [] then devices else ApplyAll(Apply(devices, ops[0]), ops[1..])
  }

  /** No operation ever removes an entry with a known interface set. */
  lemma FullEntriesSurvive(devices: seq<Fingerprint>, op: Op, e: Fingerprint)
    requires e in devices && !e.IsLegacy()
    ensures e in Apply(devices, op)
  {
    match op {
      case Upgrade(_) =>
      case Trust(_) =>
      case Merge(observed) =>
        FullEntriesSurviveUpTo(Migrated(devices, Settled(observed)), observed, |observed|, e);
    }
  }

  lemma {:induction false} FullEntriesSurviveUpTo(
    devices: seq<Fingerprint>, observed: seq<Observed>, n: nat, e: Fingerprint)
    requires n <= |observed| && e in devices && !e.IsLegacy()
    ensures e in TrustedUpTo(devices, observed, n)
  {
    hide TrustedWith;
    if n > 0 {
      FullEntriesSurviveUpTo(devices, observed, n - 1, e);
      FullEntryStays(TrustedUpTo(devices, observed, n - 1), observed[n - 1].fp, e);
    }
  }

  lemma FullEntryStays(devices: seq<Fingerprint>, device: Fingerprint, e: Fingerprint)
    requires e in devices && !e.IsLegacy()
    ensures e in TrustedWith(devices, device)
  {
    hide Staying, Additions, Seen, Vouched;
  }

  /** Once a device is covered by a full entry it stays trusted through any later operations. */
  lemma {:induction false} CoveredForever(devices: seq<Fingerprint>, ops: seq<Op>, d: Fingerprint)
    requires Covered(devices, d)
    ensures Covered(ApplyAll(devices, ops), d) && VerdictOn(ApplyAll(devices, ops), d) == Trusted
    decreases |ops|
  {
    if ops != [] {
      var e :| e in devices && !e.IsLegacy() && e.Matches(d);
      FullEntriesSurvive(devices, ops[0], e);
      CoveredForever(Apply(devices, ops[0]), ops[1..], d);
    }
  }
}
