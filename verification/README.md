# Verified model of the Sentinel engine

Omarchy Security Sentinel is a desktop security engine: it strips metadata from images, keeps a baseline of trusted USB
devices and de-authorizes others, freezes or terminates suspicious processes, and watches a canary file. This project
models its most intricate parts in Dafny and proves what they promise. `dafny verify dfyconfig.toml` checks everything.

| file | models |
|---|---|
| `Jpeg.dfy`, `Png.dfy` | the lossless image scrubbers as parse, filter and print |
| `UsbTrust.dfy` | USB fingerprints, the trust store and its in-place migration |
| `BadUsbScan.dfy` | the decisions of one scan pass |
| `BaselineProtocol.dfy` | any number of scans and "Trust Devices" runs, interleaved step by step |
| `DeclinedList.dfy`, `ArmorRetry.dfy` | the file of failed blocks, and any number of armor passes over it, interleaved |
| `ArmorExamples.dfy` | interleavings in which those passes break a promise |
| `PidPinning.dfy`, `ProcStat.dfy`, `Text.dfy` | signals under reuse of process ids, with the hand-off to the root helper |
| `Common.dfy`, `Runs.dfy` | shared types, searches, and runs given by their steps |
| `Daemon.dfy` | the event loop as a timed state machine |
| `CivilDate.dfy`, `Decimal.dfy` | timestamps against the Gregorian calendar |
| `Sha256.dfy`, `Sha256Example.dfy` | SHA-256 against FIPS 180-4, with the example "abc" |
| `Tripwire.dfy` | the canary built on it |
| `Nmcli.dfy` | splitting `nmcli -t` output |

Code that works by changing things in place is modelled that way: classes with `modifies` clauses, loops with invariants
and arrays, each proved against a specification function whose properties are the lemmas. Code that computes a value is
modelled by functions. Errors of the original are values of `Result` and `Option`; their message texts are constructors.

Readings of the outside world are parameters: a snapshot of sysfs, the answers of `/proc`, clock readings, and whether a
write, a de-authorization or a signal succeeds. Each reading the engine makes twice is two parameters.

Some promises do not hold of the code in general. For each the project has the input that shows it and the condition
under which it holds, which is exact unless "Left out" says otherwise:

* Scrubbing a JPEG twice may change it again: when a 0x00 segment is left behind a scan and its payload holds a marker,
  the second walk takes the payload apart (`Jpeg.StrayZeroBreaksIdempotence`). Scrubbing is idempotent exactly when the
  walk of the bytes to be kept meets nothing to drop (`Jpeg.IdempotentIff`); the absence of such a stray marker in the
  input is enough (`Jpeg.StripIsIdempotent`), and exact for what the second walk finds (`Jpeg.RewalkIff`). ITU-T T.81
  has no 0x00 marker.
* A blocked device recorded without its interfaces may not be trusted after "Trust Devices" (`UsbTrust.MergeTrustsIff`,
  `UsbTrust.BlockedDeviceMayBeAbsorbed`), and a first baseline may miss a device that was read before it was configured
  (`BadUsbScan.FirstBaselineVouchesIff`, `BadUsbScan.FirstBaselineMayMissADevice`).
* A trusted device that settles between the two readings of a scan may be a block target (`BadUsbScan.TargetIff`,
  `BadUsbScan.LateSettlerMayBeTargeted`).
* A first "Trust Devices" save that falls between the exists test and the first reading of the stamp of a running scan
  may be overwritten (`BaselineProtocol.EntryIsDroppedIff`, `BaselineProtocol.SaveInTheWindowIsLost`).
* A scan may block a device that was trusted after the scan had read the baseline: exactly when a save in between has
  brought in an entry for it that is still there (`BaselineProtocol.BlockHitsTrustedIff`,
  `BaselineProtocol.TrustedDeviceMayBeBlocked`), so never while the stamp is the one it read
  (`BaselineProtocol.BlockOfTrustedDeviceIsStale`).
* A failed block is not held back for 60 seconds from its failure. A prompt may wait for 120 seconds
  (src/kernel/intervention.rs:44), and all failures of a pass carry the clock reading from before its attempts, so one
  that comes late is attempted again at once (`ArmorExamples.SlowPromptIsRepeated`). It is attempted again exactly when
  60 seconds have passed since that reading (`ArmorRetry.AttemptedAgainIff`), if nobody clears the list, writes a stale
  one or finds the device unplugged, and the block does not fail again.
* A scan prunes the list of failed blocks without the lock. Between its reading and its write another scan may record a
  failure, which is lost, or prune an unplugged device, which is revived (`ArmorRetry.EntryIsDroppedIff`,
  `ArmorRetry.EntryComesUpIff`, `ArmorExamples.StalePruneDropsAFailure`, `ArmorExamples.StalePruneRevivesAHold`). That
  unplugging ends the hold is proved for every interleaving without such a stale write
  (`ArmorRetry.UnpluggingClearsTheHold`).

## Model

| member | source | states |
|---|---|---|
| Jpeg.StripJpegMetadata | src/engine/opsec.rs:176-263 | The index loop computes filter-then-print for every input: it fails with exactly the error of the grammar walk, or returns the start-of-image marker followed by the printed stream without its metadata segments. |
| Jpeg.SkipFill | src/engine/opsec.rs:182-190 | The fill-byte loop stops at the marker code, the first byte that is not 0xFF. |
| Jpeg.SkipScan | src/engine/opsec.rs:216-235 | The scan loop stops in front of the first marker that is neither a stuffed zero nor a restart marker, fill bytes included, or at most one byte before the end. |
| Jpeg.CopyScan | src/engine/opsec.rs:202-238 | Copying one scan leaves the result of the whole walk unchanged, for a delimited scan, a scan that runs to the end of the data and each error. |
| Jpeg.CopySegment | src/engine/opsec.rs:240-262 | Copying or dropping one length-prefixed segment leaves the result of the whole walk unchanged, each error included. |
| Jpeg.ParseIsSound | src/engine/opsec.rs:176-263 | Every accepted input is the print of the stream it parses to, byte for byte, and that stream is well-formed in the marker grammar. |
| Jpeg.ParseIsComplete | src/engine/opsec.rs:176-263 | Every well-formed stream is what its print parses to: nothing well-formed is refused and the reading is unique. |
| Jpeg.AcceptedIffWellFormed | src/engine/opsec.rs:176-263 | The accepted inputs are exactly the prints of well-formed streams. |
| Jpeg.WrittenSegment | src/engine/opsec.rs:240-262 | Every segment, with a payload of any content behind a two-byte big-endian length, is removed if it is APP1, APP3 to APP13, APP15, a comment, an APP2 that is no ICC profile or an APP14 that is not Adobe, and kept byte for byte otherwise. |
| Jpeg.WrittenMarker | src/engine/opsec.rs:240-243 | TEM and the eight restart markers are kept. |
| Jpeg.WrittenScan | src/engine/opsec.rs:202-238 | A scan with any header and any entropy-coded data, in front of a marker that does not belong to it, is kept byte for byte. |
| Jpeg.WrittenOpenScan | src/engine/opsec.rs:229-233 | A scan without a marker behind it is kept to the end of the file. |
| Jpeg.WrittenEnd | src/engine/opsec.rs:195-201 | Everything behind the end-of-image marker is removed. |
| Jpeg.ScrubKeeps | src/engine/opsec.rs:169-262 | Exactly the units that are no metadata are kept, in order, and every scan with all its bytes. |
| Jpeg.AbsorbPrints | src/engine/opsec.rs:202-238 | Reading restart markers and 0x00 segments that now follow scan data as part of that data moves no byte. |
| Jpeg.AbsorbWellFormedIff | src/engine/opsec.rs:202-238 | The stream that results fits the grammar exactly when no marker lies in the payload of a 0x00 segment that a second walk takes for scan data. |
| Jpeg.AbsorbIsCanonical | src/engine/opsec.rs:202-262 | If it does, it has no fill bytes, no trailer and no metadata. |
| Jpeg.RewalkIff | src/engine/opsec.rs:176-263 | Walking the output again finds the kept units, those behind a scan absorbed into it, if and only if there is no such stray marker in the input. |
| Jpeg.NoZeroMarkerSuffices | src/engine/opsec.rs:246-262 | An input without any 0x00 marker at segment position has no stray marker. |
| Jpeg.FixedPointIff | src/engine/opsec.rs:176-263 | Scrubbing leaves an accepted file as it is if and only if it begins with a start-of-image marker and its walk meets no fill byte, no metadata and no trailer. |
| Jpeg.IdempotentIff | src/engine/opsec.rs:176-263 | For every accepted input: scrubbing twice is scrubbing once if and only if the bytes to be kept, walked on their own, are not refused and hold no fill byte, no metadata segment and no trailer. |
| Jpeg.StripIsIdempotent | src/engine/opsec.rs:176-263 | From the input alone: without a stray marker the second walk finds no metadata segment, and scrubbing again returns the same bytes. |
| Jpeg.StrayZeroBreaksIdempotence | src/engine/opsec.rs:202-262 | A concrete file with a stray marker whose scrubbed form still shows a metadata segment on the second walk and shrinks when scrubbed again. |
| Png.StripPngMetadata | src/engine/opsec.rs:266-288 | For every input of at least eight bytes the loop returns the signature, the chunks that are not tEXt, zTXt, iTXt or eXIf, and the incomplete tail. |
| Png.WalkIsSound | src/engine/opsec.rs:269-287 | The walk splits the data behind the signature into whole chunks and a tail that begins with no whole chunk, losing nothing. |
| Png.WalkIsComplete | src/engine/opsec.rs:269-287 | Any list of chunks written behind each other with any tail is found again by the walk. |
| Png.WrittenChunk | src/engine/opsec.rs:266-288 | A chunk with any type, content and CRC behind a four-byte big-endian length is removed if its type spells tEXt, zTXt, iTXt or eXIf and kept byte for byte otherwise, and the rest is scrubbed as if it were not there. |
| Png.OutputWalk | src/engine/opsec.rs:266-288 | The chunk walk of the output is the walk of the input without the four metadata types, with the same tail and signature. |
| Png.StripIsIdempotent | src/engine/opsec.rs:266-288 | Scrubbing twice is scrubbing once, and no metadata chunk is left. |
| Png.StripConservesLength | src/engine/opsec.rs:266-288 | The output is shorter by exactly the total length of the dropped chunks. |
| UsbTrust.MatchesIsPreorder | src/usb.rs:93-114 | Vouching is reflexive and transitive on fingerprints. |
| UsbTrust.VouchesIff | src/usb.rs:93-114 | An entry vouches for exactly the devices with its ids, up to the case of ASCII letters, with its serial number if it has one, and with its interfaces if it knows them. |
| UsbTrust.CloneWithKeyboardIsFlagged | src/usb.rs:172-186 | A device that copies the ids of a model and adds a keyboard interface gets the verdict for a gained HID interface, if the stored entries of the model know their interfaces and none of them is HID. |
| UsbTrust.FlaggedIff | src/usb.rs:172-186 | Exactly when a device is flagged for a gained HID interface: no entry vouches for it, some entry has its model, it has an interface of class 03 and no entry of its model has one. |
| UsbTrust.TrustStore.constructor | src/usb.rs:118-130 | A store begins with the given entries. |
| UsbTrust.TrustStore.Learn | src/usb.rs:204-222 | The inner loop over the connected devices finds what a legacy entry is replaced with, and whether it vouches for any device with known interfaces. |
| UsbTrust.TrustStore.UpgradeLegacy | src/usb.rs:195-231 | The loop that removes from and appends to the list it walks terminates, leaves the entries that stay followed by the learned ones, and returns true exactly when the store changed. |
| UsbTrust.TrustStore.Trust | src/usb.rs:235-244 | The new store is the migrated one if migrating for the device changes anything, and otherwise gains the device unless an entry vouches for it; the result says whether the store changed. |
| UsbTrust.TrustedAfterMigration | src/usb.rs:195-231 | Closed form: trusted after a migration are exactly the devices matched by an old full entry, by a settled connected device that a legacy entry vouched for, or by a legacy entry that matches nothing connected. |
| UsbTrust.MigrationIgnoresOrder | src/usb.rs:195-231 | The trusted set depends on neither the order of the stored entries nor that of the connected devices. |
| UsbTrust.MigrationNeverWidens | src/usb.rs:188-231 | Whatever is trusted after a migration was trusted before. |
| UsbTrust.MigrationKeepsConnected | src/usb.rs:188-231 | Every connected device with known interfaces that was trusted is vouched for by a full entry afterwards. |
| UsbTrust.MigrationChangesIff | src/usb.rs:195-231 | The store changes exactly when a legacy entry vouches for a connected device with known interfaces. |
| UsbTrust.MigrationIsIdempotent | src/usb.rs:195-231 | A second migration with the same devices changes nothing. |
| UsbTrust.TrustIsExact | src/usb.rs:233-244 | Trusting a device trusts it, trusts nothing it does not itself match, and keeps what full entries cover. |
| UsbTrust.TrustKeepsUnknownIff | src/usb.rs:233-244 | Exactly when a device with unknown interfaces is trusted after a call of trust. |
| UsbTrust.TrustIsIdempotent | src/usb.rs:235-244 | A second call for the same device changes nothing. |
| UsbTrust.MergeIntoBaseline | src/engine/badusb.rs:470-489 | The merge migrates with the settled devices, then trusts each device that is blocked or settled, one by one, and counts the calls that changed the store. |
| UsbTrust.MergeCovers | src/engine/badusb.rs:460-489 | After a merge each judged device with known interfaces is covered by a full entry, and earlier coverage is kept. |
| UsbTrust.MergeIsExact | src/engine/badusb.rs:470-489 | A merge trusts nothing but what was trusted and what some judged device itself matches. |
| UsbTrust.MergeTrustsIff | src/engine/badusb.rs:470-489 | Exactly when a judged device, blocked or settled, is trusted after a merge: its interfaces are known, or two bits, which start from the entries no settled device replaces and are followed through the observed devices, say so. |
| UsbTrust.RecordedDeviceStaysTrustedIff | src/engine/badusb.rs:470-489 | The same for any device without interfaces, observed or not. |
| UsbTrust.BlockedDeviceMayBeAbsorbed | src/engine/badusb.rs:470-489 | A concrete merge after which a blocked device is not trusted, because a settled unit of its model took the entry with it. |
| UsbTrust.LoadedKeepsFullEntries | src/usb.rs:137-147 | Loading keeps every entry with a non-empty interface set. |
| UsbTrust.EmptyInterfaceSetHeals | src/usb.rs:137-147 | An entry saved with an empty interface set is read as unknown, vouches for the real device again, and is replaced by its full fingerprint. |
| UsbTrust.FullEntriesSurvive | src/usb.rs:188-244 | No upgrade, trust or merge removes a full entry. |
| UsbTrust.CoveredForever | src/usb.rs:172-244 | A device covered by a full entry has the verdict Trusted after any later sequence of operations. |
| BadUsbScan.UpgradeFromSettled | src/engine/badusb.rs:117-131 | The migration of a pass uses exactly the devices settled at its first reading. |
| BadUsbScan.ScanPass | src/engine/badusb.rs:92-204 | One pass, from the loaded baseline and the readings: the store it ends with, whether a device is still enumerating, its block targets, and whether it wants to save; a corrupt baseline yields no target and no save. |
| BadUsbScan.TargetSpelledOut | src/engine/badusb.rs:432-447 | A device is a target exactly when no entry vouches for it and it is neither blocked nor enumerating, its bus id does not begin with "usb", and its interfaces are not all of class 09. |
| BadUsbScan.WantsSaveIff | src/engine/badusb.rs:117-204 | A pass wants to save exactly when a settled device replaces an entry without interfaces, or there is no baseline and no device is half-enumerated or blocked. |
| BadUsbScan.TargetIff | src/engine/badusb.rs:144-193 | A device is a block target exactly when it is judged, not blocked, neither root hub nor hub, and left out by the closed form of the migrated store. |
| BadUsbScan.TargetIffNotInLoadedBaseline | src/engine/badusb.rs:117-193 | For a device settled at the first reading that is exactly when the loaded baseline does not vouch for it: the migration in the pass locks nothing out. |
| BadUsbScan.LateSettlerMayBeTargeted | src/engine/badusb.rs:122-131 | A concrete pass that targets a vouched-for device which settled only after the migration had chosen its devices. |
| BadUsbScan.FirstBaselineCoversSnapshot | src/engine/badusb.rs:154-204 | A first baseline that is saved covers every device of its snapshot with known interfaces. |
| BadUsbScan.FirstBaselineVouchesIff | src/engine/badusb.rs:154-204 | Exactly which devices of its snapshot it vouches for: those with known interfaces, and those without that no later unit of their model absorbed. |
| BadUsbScan.FirstBaselineMayMissADevice | src/engine/badusb.rs:154-204 | A concrete first baseline that is saved and does not vouch for a device of its snapshot. |
| BadUsbScan.FirstBaselineIsExact | src/engine/badusb.rs:154-204 | It trusts only what some device of the snapshot matches. |
| BaselineProtocol.InvStep | src/engine/badusb.rs:98-131 | Every step of every scan and trust-all run keeps the invariant: what an actor read is current unless the stamp tells otherwise, and phases that hold the lock agree with the lock. |
| BaselineProtocol.StepIsSerial | src/engine/badusb.rs:201-230 | In any interleaving each change of the file is that of one whole scan or one whole trust-all run on the file as it is; a stale first save is that of one whole scan without a file. |
| BaselineProtocol.EntryIsDroppedIff | src/engine/badusb.rs:98-230 | Over any run: a step drops an entry with a non-empty interface set if and only if it saves the first baseline of a scan that found no file although there is one by now, and its snapshot does not contain the entry. |
| BaselineProtocol.NoLostTrust | src/engine/badusb.rs:98-230 | An entry with a non-empty interface set that was once saved is in every later baseline of the run unless a stale first save comes between. |
| BaselineProtocol.NoLostTrustOnceThereIsAFile | src/engine/badusb.rs:98-230 | In a run that starts with a baseline file no such entry is ever lost, in every interleaving. |
| BaselineProtocol.CalmRunHasNoStaleFirstSave | src/engine/badusb.rs:98-100 | With the exists test and the first reading of the stamp in one step there is no stale first save. |
| BaselineProtocol.SaveInTheWindowIsLost | src/engine/badusb.rs:98-100 | A concrete interleaving in which a save between those two readings is overwritten. |
| BaselineProtocol.LockIsExclusive | src/engine/badusb.rs:371-388 | At most one actor is saving, blocking or restoring at any moment. |
| BaselineProtocol.LockIsGivenUp | src/engine/badusb.rs:371-388 | Whoever finishes gives the lock up. |
| BaselineProtocol.NothingBlockedDuringTrustAll | src/engine/badusb.rs:491-545 | No device is de-authorized while a trust-all run holds the lock. |
| BaselineProtocol.BlockedIff | src/engine/badusb.rs:231-255 | Over every run: a device is de-authorized exactly when the last step that blocked it, restored it or found it unplugged blocked it, or there is none and it was de-authorized at the start. |
| BaselineProtocol.BlockIsJustified | src/engine/badusb.rs:218-255 | Over every run: a scan blocks only with USB Armor on at its last judgement, holding the lock, and only a device it saw there that is neither blocked, enumerating, a root hub nor a hub. |
| BaselineProtocol.LocksIff | src/engine/badusb.rs:212-223 | A scan takes the lock exactly when it is free and the scan has something to save, or a target with USB Armor on; otherwise it is over. |
| BaselineProtocol.SavesIff | src/engine/badusb.rs:224-230 | With the lock, a scan goes on to save exactly when it wants to and the stamp is the one it read. |
| BaselineProtocol.BlockOfTrustedDeviceIsStale | src/engine/badusb.rs:231-255 | A scan blocks a settled device that the file vouches for only if the file was saved since the scan read its stamp. |
| BaselineProtocol.BlockHitsTrustedIff | src/engine/badusb.rs:98-255 | When a scan blocks a settled device, the file vouches for it if and only if a save since the scan loaded the file brought in an entry that matches the device and is still there. |
| BaselineProtocol.TrustedDeviceMayBeBlocked | src/engine/badusb.rs:231-255 | A concrete interleaving in which it does: the device is trusted between the reading of the file and the lock. |
| DeclinedList.ListFile.constructor | src/engine/badusb.rs:390-404 | The file may hold any text. |
| DeclinedList.ListFile.Save | src/engine/badusb.rs:427-430 | A write that succeeds makes the file hold exactly the given entries; one that fails leaves it alone. |
| DeclinedList.ListFile.Read | src/engine/badusb.rs:399-411 | Whatever the file holds, a reading keeps the still connected entries inside the window, in order, and asks for a write if it leaves anything out. |
| DeclinedList.ListFile.Load | src/engine/badusb.rs:399-411 | Loading prunes the file to them if the write succeeds. |
| DeclinedList.ContentsOfSaved | src/engine/badusb.rs:413-430 | A written file holds exactly the entries written, for all keys without a line feed and 64-bit times. |
| DeclinedList.LoadOfSaved | src/engine/badusb.rs:399-430 | Saving then loading a list returns exactly its still connected, in-window entries. |
| DeclinedList.CrLfLine | src/engine/badusb.rs:399-411 | A line that ends with a carriage return and a line feed is read without either. |
| DeclinedList.ContentsAreStorable | src/engine/badusb.rs:413-425 | Whatever a file holds can be written back without loss. |
| ArmorRetry.BlockTargets | src/engine/badusb.rs:239-251 | The loop over the targets: which it attempts, the list with the failures, and whether the list changed. |
| ArmorRetry.RunPass | src/engine/badusb.rs:206-260 | One undisturbed pass over the file, with any of its three writes failing: which targets it attempts and what the file holds afterwards. |
| ArmorRetry.BlockUpToIff | src/engine/badusb.rs:231-255 | A pass attempts a device exactly when it is a target, not blocked already and not on the list, and records exactly the failed attempts. |
| ArmorRetry.InvStep | src/engine/badusb.rs:206-260 | Every step of every scan and trust-all run keeps the invariant of the interleaved passes. |
| ArmorRetry.AttemptNeedsArmor | src/engine/badusb.rs:212-233 | Over every run: whoever has got as far as the attempts found USB Armor on and the lock free when it last tried the lock, and has a target. |
| ArmorRetry.LocksIff | src/engine/badusb.rs:212-223 | A scan goes on to its attempts exactly when the lock is free, USB Armor is on and it has a target; if it only wants to save, it takes the lock and gives it up again. |
| ArmorRetry.EntryIsDroppedIff | src/engine/badusb.rs:206-260 | Over any interleaving: a step drops an entry if and only if it clears the list, or it writes back a list that was read when the entry was not in it, or the device is unplugged or the window over for its actor. |
| ArmorRetry.EntryComesUpIff | src/engine/badusb.rs:206-260 | A step brings an entry up if and only if it records the failure, or it writes back a list that was read when the entry was still in it. |
| ArmorRetry.EntryHasOrigin | src/engine/badusb.rs:206-260 | Every entry was there from the start or records a failed attempt. |
| ArmorRetry.StaleListsComeFromUnlockedPrunes | src/engine/badusb.rs:209-209 | A stale list is written by a prune without the lock, or by a lock holder whose list such a prune changed. |
| ArmorRetry.FailedBlockIsHeldBack | src/engine/badusb.rs:239-255 | In any interleaving: once its pass has recorded it, a failed block is not attempted again until 60 seconds after the clock reading its pass made before its attempts, as long as nobody clears the list, writes a stale one, or prunes it having found the device unplugged. |
| ArmorRetry.DueBlockIsAttempted | src/engine/badusb.rs:239-255 | In every interleaving a target whose failures all carry a time at least 60 seconds before the reading of the pass is attempted when the pass gets to it. |
| ArmorRetry.AttemptedAgainIff | src/engine/badusb.rs:239-255 | Both halves for one recorded failure: with no clearing, no stale write, no prune of the unplugged device and no further failure since, a pass that gets to the device attempts it if and only if its clock reading is at least 60 seconds past the one the failing pass made before its attempts. |
| ArmorExamples.SlowPromptIsRepeated | src/engine/badusb.rs:239-255 | A concrete run with nobody else at work: an attempt that fails after 120 seconds is recorded with the time from before, and the next scan attempts it again one second later. |
| ArmorRetry.UnpluggingClearsTheHold | src/engine/badusb.rs:206-260 | In any interleaving without a stale write: after a prune that found the device gone, every pass that reads the list later attempts the device, unless a failure for it was recorded in between or made by the pass itself. |
| ArmorExamples.StalePruneDropsAFailure | src/engine/badusb.rs:206-210 | A concrete interleaving in which a block is attempted again one second after its failure was recorded. |
| ArmorExamples.StalePruneRevivesAHold | src/engine/badusb.rs:206-210 | A concrete interleaving in which a replugged device stays held back. |
| PidPinning.StepKeeps | src/kernel/intervention.rs:200-259 | Every step of every engine, helper and of the rest of the system keeps the invariant: if the pinned process is alive, all answers so far came from it. |
| PidPinning.AliveIsConfirmed | src/kernel/intervention.rs:216-241 | When a signal finds the pinned process alive, that process gave all answers, passed the gate and has the start time asked for. |
| PidPinning.HelperIsForThePinned | src/kernel/intervention.rs:388-398 | The argument handed to the helper is read back as the process id and start time of the pinned process. |
| PidPinning.SignalSafety | src/kernel/intervention.rs:403-625 | In every interleaving with exits and reused ids, a process that receives STOP, TERM, KILL or CONT is the one that passed the safety gate, and its start time is the approved one. |
| PidPinning.NoCriticalProcessIsSignalled | src/kernel/intervention.rs:250-371 | Over every run: whoever gets a signal answered with an id above 2, with a command line, and under no name of the table of critical processes, or with a readable executable that is neither listed under that name nor such a path with " (deleted)" behind it. |
| PidPinning.RefusedIff | src/kernel/intervention.rs:342-420 | Over every run: an engine has refused exactly when its id is at most 2 or its last answer is a reason to; a process under a critical name with any other executable passes. |
| PidPinning.SendIff | src/kernel/intervention.rs:216-241 | One call of the kernel delivers STOP, TERM or CONT as the operation says, or KILL at the end of a termination, to the pinned process if it is alive and the engine permitted, and nothing otherwise; then the helper follows exactly for want of permission. |
| PidPinning.HandOffSafety | src/kernel/intervention.rs:1270-1286 | End to end: what the root helper signals is the process that the unprivileged engine pinned and cleared, with the start time the user approved. |
| PidPinning.ReplacementIsNotSignalled | src/kernel/intervention.rs:197-241 | A process started after the engine pinned its target is never signalled by it or its helper, even under the same id. |
| PidPinning.SignalsFollowTheScript | src/kernel/intervention.rs:463-625 | Freezing sends at most one STOP, thawing at most one CONT, terminating nothing, a TERM, or a TERM and then a KILL. |
| PidPinning.KillIsLastResort | src/kernel/intervention.rs:530-546 | A kill follows only behind a TERM and eleven probes that found the process alive, unless one of them found it gone. |
| PidPinning.ProbeIff | src/kernel/intervention.rs:530-546 | One probe: as long as the process is found alive there are ten, then a last one, and the kill follows exactly if that one finds it alive. |
| PidPinning.SignalIsDelivered | src/kernel/intervention.rs:403-625 | The other way round: from any state, a call on a live process with an id above 2 that is no kernel thread and not critical delivers exactly the signal of the operation to it, if nobody interferes and the engine is permitted. |
| PidPinning.KillIsDelivered | src/kernel/intervention.rs:530-546 | A process that was asked to terminate and stays alive is killed after the remaining probes. |
| PidPinning.HolderOfId | src/kernel/intervention.rs:194-197 | Over every run: a process id belongs to the process started under it last, if that has not exited since. |
| ProcStat.StartTimeIsField22 | src/kernel/intervention.rs:381-387 | The start time is field 22 whatever the command name holds, spaces and parentheses included. |
| ProcStat.ShortLineIsRefused | src/kernel/intervention.rs:381-387 | A line with fewer fields has no start time. |
| ProcStat.NoNameIsRefused | src/kernel/intervention.rs:378-384 | A line without a closing parenthesis has no start time. |
| ProcStat.IdentityRoundTrip | src/kernel/intervention.rs:388-398 | A printed identity is read back exactly for every 32-bit id and 64-bit start time, white space around it aside. |
| ProcStat.BarePidRoundTrip | src/kernel/intervention.rs:445-451 | A bare process id is a target without a start time. |
| ProcStat.BrokenIdentityIsRefused | src/kernel/intervention.rs:445-451 | A malformed identity is refused and never taken for a bare id. |
| Text.WordsOfSpaced | src/kernel/intervention.rs:381-387 | Splitting at white space recovers words printed with spaces between them. |
| Text.TrimOfPadded | src/kernel/intervention.rs:395-396 | Trimming removes exactly the white space around a word. |
| Text.SpaceIff | src/kernel/intervention.rs:381-387 | White space is the 25 characters with that property in the Unicode character database. |
| Decimal.ParseOfPrint | src/kernel/intervention.rs:388-398 | A printed number is read back exactly when it fits the type. |
| Decimal.ParseU64OfPrint | src/kernel/intervention.rs:388-398 | A printed number is read as 64 bits without a sign exactly up to 18446744073709551615. |
| Decimal.ParseI32OfPrint | src/kernel/intervention.rs:388-398 | A printed number is read as 32 bits with a sign exactly from -2147483648 to 2147483647, and a minus sign is printed for negative ones only. |
| Daemon.Monitor.constructor | src/engine/daemon.rs:97-104 | The loop starts with a report due and nothing else. |
| Daemon.Monitor.Iterate | src/engine/daemon.rs:106-152 | One turn of the loop: the new schedule and counters, whether it scans, and the devices it reports. |
| Daemon.Monitor.Notify | src/engine/daemon.rs:170-203 | The remembered set becomes the untrusted devices, and the reported ones are those not remembered before, in order. |
| Daemon.NeverLate | src/engine/daemon.rs:106-152 | In every run no turn starts later than its report or check time plus twice the slack, and a check is never set later than 3 s after its burst began. |
| Daemon.BurstIsOpenIff | src/engine/daemon.rs:111-148 | A burst is open exactly when a USB event was read since the last scan. |
| Daemon.ScheduleInBurst | src/engine/daemon.rs:144-149 | In a burst the check is due 750 ms after its last event or 3 s after its first, whichever is earlier. |
| Daemon.BurstDoesNotWait | src/engine/daemon.rs:106-149 | A burst is scanned exactly when that moment or the next report has come, and no turn passes it by more than twice the slack. |
| Daemon.EventLeadsToScan | src/engine/daemon.rs:106-149 | Once a USB event is read, no run gets past 3 s plus twice the slack without a scan. |
| Daemon.ScansKeepComing | src/engine/daemon.rs:109-131 | Scans follow each other within the 20 s report interval plus twice the slack. |
| Daemon.QuietScanIff | src/engine/daemon.rs:109-131 | Without an event, a scan follows exactly at the next report, 20 s after the last scan, or one second after a scan that found a device enumerating with fewer than 15 such scans in a row before it. |
| Daemon.RechecksAreBounded | src/engine/daemon.rs:115-123 | The counter is the number of rechecks scheduled in a row without an event, and never exceeds 15. |
| Daemon.GivesUpAfterFifteen | src/engine/daemon.rs:115-123 | After 15 rechecks in a row the next scan waits for the report. |
| Daemon.ReportedIffNew | src/engine/daemon.rs:170-203 | A scan reports a device exactly when it is untrusted and was not at the scan before. |
| CivilDate.DateIsRight | src/engine/report.rs:88-101 | For every day since 1970-01-01 the computed date is valid in the Gregorian calendar and has exactly that day number. |
| CivilDate.DaysAreConsecutive | src/engine/report.rs:88-101 | Consecutive days have consecutive calendar dates. |
| CivilDate.EveryDateIsReached | src/engine/report.rs:88-101 | A valid date is the date of exactly the day it numbers. |
| CivilDate.DayNumberIsInjective | src/engine/report.rs:88-101 | The calendar numbers different dates differently. |
| CivilDate.TimestampIsRight | src/engine/report.rs:88-109 | Date and time of day are in range and give the seconds back. |
| CivilDate.UtcTextShows | src/engine/report.rs:102-109 | Read by position as RFC 3339 lays it out, the text gives back year, month, day, hour, minute and second. |
| CivilDate.UtcTextIsInjective | src/engine/report.rs:88-109 | The texts of two different seconds differ. |
| Sha256.PadMessage | src/kernel/self_defense.rs:50-56 | The padding loop ends and produces the padded message of FIPS 180-4, section 5.1.1. |
| Sha256.ZeroCountIsLeast | src/kernel/self_defense.rs:50-55 | It adds the least number of zeros that leaves room for the length. |
| Sha256.PaddedLength | src/kernel/self_defense.rs:50-58 | A padded message is a whole number of 64-byte blocks. |
| Sha256.PaddingIsInjective | src/kernel/self_defense.rs:50-56 | Different messages below 2^61 bytes have different paddings. |
| Sha256.InitialHashIsSquareRoots | src/kernel/self_defense.rs:26-29 | The initial hash value is the fractional parts of the square roots of the first eight primes. |
| Sha256.ConstantsAreCubeRoots | src/kernel/self_defense.rs:31-43 | Each of the 64 round constants is the first 32 bits of the fractional part of the cube root of the prime beside it in the table. |
| Sha256.TableListsThePrimes | src/kernel/self_defense.rs:31-43 | Those numbers are the first 64 primes in order: number t is a prime with exactly t primes below it. |
| Sha256.FillSchedule | src/kernel/self_defense.rs:59-73 | The array filled in place holds the recursively defined message schedule of section 6.2.2. |
| Sha256.Compress | src/kernel/self_defense.rs:75-108 | The rotation of eight registers through 64 rounds adds the recursively defined rounds to the hash value. |
| Sha256.Render | src/kernel/self_defense.rs:110-115 | The text is the eight words in hexadecimal, in order. |
| Sha256.Sha256Hex | src/kernel/self_defense.rs:25-115 | The program returns the text of the hash value folded over all blocks of the padded message. |
| Sha256.HexIsInjective | src/kernel/self_defense.rs:110-115 | The text determines the words. |
| Sha256.DigestText | src/kernel/self_defense.rs:110-115 | A digest is 64 lower-case hexadecimal digits and determines the hash value. |
| Sha256.DigestNumbers | src/kernel/self_defense.rs:110-115 | Characters 8k to 8k + 7 of a digest, read in base 16, are word k of the hash value. |
| Sha256Example.DigestOfAbc | src/main.rs:497-500 | The digest of "abc" is ba7816bf...f20015ad, by way of every word of the schedule and every register. |
| Tripwire.Canary.constructor | src/engine/tripwire.rs:24-32 | A canary starts from whatever the directory holds. |
| Tripwire.Canary.PrimarySeal | src/engine/tripwire.rs:24-57 | A scan touches nothing once the pair is marked, and says intact exactly when the readable token has the digest the hash file names. |
| Tripwire.Canary.Reset | src/engine/tripwire.rs:155-168 | A reset writes a new pair and the marker. |
| Tripwire.OnlyOthersWrite | src/engine/tripwire.rs:31-46 | Over any run: once marked the pair stays marked, and scans alone change nothing. |
| Tripwire.DeletedTokenStaysMissing | src/engine/tripwire.rs:43-46 | A deleted token is reported missing by every scan until a reset or somebody else puts one back. |
| Tripwire.DeletedHashStaysMissing | src/engine/tripwire.rs:43-46 | So is a deleted hash file. |
| Tripwire.ScanTellsTampering | src/engine/tripwire.rs:24-57 | While the hash file is left alone, a scan says intact exactly when the token file, as the last other program left it or as it was set up, is readable, at most 4096 bytes long and has the digest of the one that was set up, and missing exactly when it was left deleted. |
| Tripwire.FirstScanSetsUp | src/engine/tripwire.rs:33-42 | The first scan sets the pair up and finds it intact. |
| Tripwire.UpgradeKeepsThePair | src/engine/tripwire.rs:33-57 | An existing pair without the marker is kept as it is, and intact exactly when both files are readable, the token has at most 4096 bytes and the hash file at most 128, and its text is the digest of the token, white space around it aside. |
| Tripwire.ResetSetsUp | src/engine/tripwire.rs:155-168 | After a reset the next scan says intact, whatever was there before. |
| Nmcli.SplitNameTypeDevice | src/engine/ghost_mac.rs:140-154 | The loop returns the three fields of the line, and none exactly when the unescaped colons are not two. |
| Nmcli.SplitOfPrinted | src/engine/ghost_mac.rs:138-154 | Splitting fields printed with escapes gives them back, whatever they hold. |
| Nmcli.PrintingUndoesSplittingIff | src/engine/ghost_mac.rs:138-154 | Printing the fields gives the line back exactly when every backslash in it escapes a colon or a backslash. |

## Left out

- Jpeg.StripIsIdempotent: the condition on the input is sufficient for the bytes and not necessary, since a marker in the payload of a 0x00 segment may happen to begin something that survives; Jpeg.IdempotentIff has the exact condition, on the walk of the bytes to be kept.
- BaselineProtocol.BlockOfTrustedDeviceIsStale: goes one way, since the file may have been saved without trusting the device; BaselineProtocol.BlockHitsTrustedIff has the exact condition.
- UsbTrust.MergeCovers: covers devices with known interfaces; UsbTrust.MergeTrustsIff covers all.
- UsbTrust.CloneWithKeyboardIsFlagged: says nothing when a stored entry of the model is itself HID or does not know its interfaces; the verdict is then another.
- PidPinning.SignalSafety: assumes that a pidfd was obtained; the `kill(2)` fallback for kernels without pidfd, and for an id that is free when the pidfd is opened, is not modelled.
- ArmorRetry.RunPass: one undisturbed pass by its writes; how long its attempts take is part of the interleaved runs only, where an attempt may end at any later time.
- A list of failed blocks that cannot be read at all (over 64 KiB, or not a regular file): readings succeed.
- Daemon.Monitor.Iterate: the endless loop is a run of such turns; the channel to the report thread and the integrity refresh are not modelled.
- Tripwire.Canary.PrimarySeal: the hash file is given by its text and its size, so the lossy UTF-8 decoding is outside the model.
- File handling around the cores (temporary files, renames, permissions): the models see its success or failure.
- The JSON form of the baseline and the version 1 format: only the rule that an empty interface set is read as unknown is modelled.
- Stamps that collide and clocks that step back: each save gives a fresh stamp, and clock readings do not decrease.
- A lock file that cannot be opened: opening succeeds, only taking the lock may fail.
- Report texts, summaries, item strings and the decoy file of the tripwire: presentation without state of its own.
- Network quarantine, blackout, socket, DNS, CVE and authentication modules: wrappers around other programs.
- The heuristics for suspicious processes and sockets: string tables and thresholds without state or structure.
