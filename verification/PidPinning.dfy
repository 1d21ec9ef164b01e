/**
  Signals under reuse of process ids (src/kernel/intervention.rs, lines 197-241, 342-371, 403-420, 463-625 and
  1270-1286).

  Freezing, terminating or thawing a process opens a pidfd, inspects `/proc/<pid>` and only then sends the signal;
  without the rights for that, it hands `<pid>:<starttime>` to a helper that runs as root and repeats the whole
  sequence. Any number of such engines run at once, and between any two of their steps processes may exit and their
  ids may be reused.

  Assumptions: a reused id belongs to a process with a strictly later start time, and a pidfd was obtained.
 */
module PidPinning {
  import opened Common
  import Decimal
  import ProcStat
  import opened Runs
  import Text

  // ---------------------------------------------------------------------------
  // The gate
  // ---------------------------------------------------------------------------

  /** The answers `/proc/<pid>` may give; `None` where a file is unreadable. */
  datatype Answer =
    | Exists(found: bool)
    | Cmdline(content: Option<seq<byte>>)
    | Comm(text: Option<string>)
    | Exe(path: Option<string>)
    | Stat(start: Option<nat>)

  /** The names under which critical system processes run, with the executables they ship as. */
  function ImmuneProcesses(): map<string, seq<string>> {
    map[
      "systemd" := ["/usr/lib/systemd/systemd", "/lib/systemd/systemd"],
      "systemd-journal" := ["/usr/lib/systemd/systemd-journald", "/lib/systemd/systemd-journald"],
      "systemd-logind" := ["/usr/lib/systemd/systemd-logind", "/lib/systemd/systemd-logind"],
      "systemd-udevd" := [
        "/usr/lib/systemd/systemd-udevd", "/lib/systemd/systemd-udevd", "/usr/bin/udevadm", "/bin/udevadm"
      ],
      "polkitd" := ["/usr/lib/polkit-1/polkitd", "/usr/libexec/polkitd"],
      "dbus-daemon" := ["/usr/bin/dbus-daemon", "/bin/dbus-daemon"],
      "dbus-broker" := ["/usr/bin/dbus-broker"],
      "Hyprland" := ["/usr/bin/Hyprland", "/usr/bin/hyprland"],
      "waybar" := ["/usr/bin/waybar"],
      "quickshell" := ["/usr/bin/quickshell", "/usr/bin/qs"],
      "sshd" := ["/usr/bin/sshd", "/usr/sbin/sshd"],
      "sentinel-engine" := ["/usr/bin/sentinel-engine"]
    ]
  }

  /** The suffix of the link to an executable that was replaced while it runs. */
  const DELETED := " (deleted)"

  predicate IsExpectedExecutable(exe: string, expected: seq<string>) {
    var n := |exe| - |DELETED|;
    (if n >= 0 && exe[n..] == DELETED then exe[..n] else exe) in expected
  }

  predicate HasImmuneName(comm: Option<string>) {
    comm.Some? && Text.Trim(comm.value) in ImmuneProcesses()
  }

  /** With an immune name, the executable decides; one that cannot be read counts as the expected one. */
  predicate IsImmune(comm: Option<string>, exe: Option<string>) {
    HasImmuneName(comm) && (exe.None? || IsExpectedExecutable(exe.value, ImmuneProcesses()[Text.Trim(comm.value)]))
  }

  // ---------------------------------------------------------------------------
  // The gate as it is promised
  // ---------------------------------------------------------------------------

  /** A critical system process shows a name of the table and an executable listed under that name, which may have been
      replaced while it runs, or an executable that cannot be read. */
  predicate IsCritical(comm: Option<string>, exe: Option<string>) {
    && comm.Some? && Text.Trim(comm.value) in ImmuneProcesses()
    && (exe.None? || exists p :: p in ImmuneProcesses()[Text.Trim(comm.value)]
                                 && (exe.value == p || exe.value == p + " (deleted)"))
  }

  lemma ImmuneIff(comm: Option<string>, exe: Option<string>)
    ensures HasImmuneName(comm) <==> comm.Some? && Text.Trim(comm.value) in ImmuneProcesses()
    ensures IsImmune(comm, exe) <==> IsCritical(comm, exe)
  {
    hide ImmuneProcesses, IsExpectedExecutable;
    if HasImmuneName(comm) && exe.Some? {
      ListedPathsAreClean(Text.Trim(comm.value));
      ExpectedIff(exe.value, ImmuneProcesses()[Text.Trim(comm.value)]);
    }
  }

  /** No listed path ends like the link to a replaced executable. */
  predicate IsClean(paths: seq<string>) {
    forall p :: p in paths ==> p != "" && p[|p| - 1] != ')'
  }

  lemma ListedPathsAreClean(name: string)
    requires name in ImmuneProcesses()
    ensures IsClean(ImmuneProcesses()[name])
  {
  }

  lemma ExpectedIff(exe: string, expected: seq<string>)
    requires IsClean(expected)
    ensures IsExpectedExecutable(exe, expected) <==>
              exists p :: p in expected && (exe == p || exe == p + " (deleted)")
  {
    var n := |exe| - |DELETED|;
    if n >= 0 && exe[n..] == DELETED {
      assert exe == exe[..n] + " (deleted)";
      assert exe[|exe| - 1] == DELETED[|DELETED| - 1] == ')';
      forall p | p in expected && exe == p + " (deleted)"
        ensures p == exe[..n]
      {
        assert (p + " (deleted)")[..n] == p;
      }
    } else {
      forall p | p in expected
        ensures exe != p + " (deleted)"
      {
        assert (p + " (deleted)")[|p|..] == DELETED;
      }
    }
  }

  // ---------------------------------------------------------------------------
  // The world
  // ---------------------------------------------------------------------------

  /** A process; `id` tells it from every other process there ever was. */
  datatype Process = Process(id: nat, pid: int, start: nat)

  datatype Operation = Freeze | Terminate | Thaw

  datatype Signal = Stop | Term | Kill | Continue

  /** An answer, and the process that gave it. The engine sees the answer only. */
  datatype Reading = Reading(from: Option<Process>, answer: Answer)

  datatype Phase =
    | Opening
    | CheckingExistence | ReadingCmdline | ReadingComm | ReadingExe | ReadingStat
    | Signalling
    | Polling(probes: nat) | LastProbe | Killing
    | Escalating | Delegated
    | Refused | Failed | Done

  /** One call of freeze, terminate or thaw. A helper has a parent and sends no further helper. */
  datatype Engine = Engine(
    op: Operation,
    pid: int,
    expected: Option<nat>,
    parent: Option<nat>,
    phase: Phase,
    pinned: Option<Process>,
    readings: seq<Reading>)

  datatype Delivery = Delivery(engine: nat, signal: Signal, target: Process)

  datatype World = World(
    born: set<Process>,
    alive: map<int, Process>,
    engines: seq<Engine>,
    delivered: seq<Delivery>)

  const START := World({}, map[], [], [])

  predicate IsAlive(w: World, p: Process) {
    p.pid in w.alive && w.alive[p.pid] == p
  }

  function Answerer(w: World, pid: int): Option<Process> {
    if pid in w.alive then Some(w.alive[pid]) else None
  }

  // ---------------------------------------------------------------------------
  // The steps of an engine
  // ---------------------------------------------------------------------------

  /** How often `terminate` asks whether the process is gone before it asks a last time. */
  const PROBES: nat := 10

  function NewEngine(op: Operation, pid: int, expected: Option<nat>, parent: Option<nat>): Engine {
    Engine(op, pid, expected, parent, if pid <= 2 then Refused else Opening, None, [])
  }

  predicate Asks(phase: Phase, a: Answer) {
    match phase
    case CheckingExistence => a.Exists?
    case ReadingCmdline => a.Cmdline?
    case ReadingComm => a.Comm?
    case ReadingExe => a.Exe?
    case ReadingStat => a.Stat?
    case _ => false
  }

  /** The answers that are possible while `from` has the process id. */
  predicate CanAnswer(from: Option<Process>, a: Answer) {
    match a
    case Exists(found) => from.None? ==> !found
    case Cmdline(content) => from.None? ==> content.None?
    case Comm(text) => from.None? ==> text.None?
    case Exe(path) => from.None? ==> path.None?
    case Stat(start) => start.Some? ==> from.Some? && start.value == from.value.start
  }

  /** What the engine does next after the answer `a`. */
  function AfterAnswer(e: Engine, a: Answer): Phase
    requires Asks(e.phase, a) && (a.Exe? ==> |e.readings| == 3 && e.readings[2].answer.Comm?)
  {
    match a
    case Exists(found) => if found then ReadingCmdline else Refused
    case Cmdline(content) => if content == Some([]) then Refused else ReadingComm
    case Comm(text) => if HasImmuneName(text) then ReadingExe else ReadingStat
    case Exe(path) => if IsImmune(e.readings[2].answer.text, path) then Refused else ReadingStat
    case Stat(start) => if start.None? || (e.expected.Some? && e.expected != start) then Refused else Signalling
  }

  function AfterRead(w: World, e: Engine, a: Answer): Engine
    requires Asks(e.phase, a) && (a.Exe? ==> |e.readings| == 3 && e.readings[2].answer.Comm?)
  {
    e.(phase := AfterAnswer(e, a), readings := e.readings + [Reading(Answerer(w, e.pid), a)])
  }

  function FirstSignal(op: Operation): Signal {
    match op
    case Freeze => Stop
    case Terminate => Term
    case Thaw => Continue
  }

  /** The pinned process is gone: the kernel says so. It is there, but not ours: ask the helper. */
  function AfterSignal(w: World, e: Engine, permitted: bool): (r: (Engine, Option<Signal>))
    requires e.phase.Signalling? && e.pinned.Some?
  {
    if !IsAlive(w, e.pinned.value) then (e.(phase := Failed), None)
    else if !permitted then (e.(phase := Escalating), None)
    else (e.(phase := if e.op == Terminate then Polling(0) else Done), Some(FirstSignal(e.op)))
  }

  function AfterKill(w: World, e: Engine, permitted: bool): (r: (Engine, Option<Signal>))
    requires e.phase.Killing? && e.pinned.Some?
  {
    (e.(phase := Done), if IsAlive(w, e.pinned.value) && permitted then Some(Kill) else None)
  }

  function AfterProbe(w: World, e: Engine, permitted: bool): Engine
    requires (e.phase.Polling? || e.phase.LastProbe?) && e.pinned.Some?
  {
    var seen := IsAlive(w, e.pinned.value) && permitted;
    if e.phase.LastProbe? then e.(phase := if seen then Killing else Done)
    else e.(phase := if seen && e.phase.probes + 1 < PROBES then Polling(e.phase.probes + 1) else LastProbe)
  }

  /** The start time an engine read, once it has passed the gate. */
  function StartRead(e: Engine): nat
    requires e.readings != [] && var a := e.readings[|e.readings| - 1].answer; a.Stat? && a.start.Some?
  {
    e.readings[|e.readings| - 1].answer.start.value
  }

  /** The helper parses its argument before it does anything else. */
  function Helpers(e: Engine, i: nat, start: nat): seq<Engine> {
    match ProcStat.ParseIdentityArg(ProcStat.IdentityArg(e.pid, start))
    case Some((pid, s)) => [NewEngine(e.op, pid, Some(s), Some(i))]
    case None => []
  }

  // ---------------------------------------------------------------------------
  // The steps of the world
  // ---------------------------------------------------------------------------

  datatype Event =
    | Spawn(process: Process)
    | Exit(pid: int)
    | Launch(op: Operation, pid: int, expected: Option<nat>)
    | Open(i: nat)
    | Read(i: nat, answer: Answer)
    | Send(i: nat, permitted: bool)
    | Probe(i: nat, permitted: bool)
    | Escalate(i: nat, available: bool)

  predicate Enabled(w: World, ev: Event) {
    match ev
    case Spawn(p) =>
      && p.pid !in w.alive && p.start < Decimal.U64_LIMIT
      && forall q :: q in w.born ==> q.id != p.id && (q.pid == p.pid ==> q.start < p.start)
    case Exit(pid) => pid in w.alive
    case Launch(op, pid, expected) => -Decimal.I32_LIMIT <= pid < Decimal.I32_LIMIT
    case Open(i) => i < |w.engines| && w.engines[i].phase.Opening? && w.engines[i].pid in w.alive
    case Read(i, a) =>
      && i < |w.engines| && var e := w.engines[i];
      && Asks(e.phase, a) && CanAnswer(Answerer(w, e.pid), a)
      && (a.Exe? ==> |e.readings| == 3 && e.readings[2].answer.Comm?)
    case Send(i, _) =>
      i < |w.engines| && var e := w.engines[i]; (e.phase.Signalling? || e.phase.Killing?) && e.pinned.Some?
    case Probe(i, _) =>
      i < |w.engines| && var e := w.engines[i]; (e.phase.Polling? || e.phase.LastProbe?) && e.pinned.Some?
    case Escalate(i, _) =>
      && i < |w.engines| && var e := w.engines[i];
      && e.phase.Escalating? && e.readings != []
      && var a := e.readings[|e.readings| - 1].answer; a.Stat? && a.start.Some?
  }

  function Delivered(i: nat, r: (Engine, Option<Signal>)): seq<Delivery> {
    if r.1.Some? && r.0.pinned.Some? then [Delivery(i, r.1.value, r.0.pinned.value)] else []
  }

  function After(w: World, ev: Event): World
    requires Enabled(w, ev)
  {
    match ev
    case Spawn(p) => w.(born := w.born + {p}, alive := w.alive[p.pid := p])
    case Exit(pid) => w.(alive := w.alive - {pid})
    case Launch(op, pid, expected) => w.(engines := w.engines + [NewEngine(op, pid, expected, None)])
    case Open(i) =>
      var e := w.engines[i];
      w.(engines := w.engines[i := e.(phase := CheckingExistence, pinned := Some(w.alive[e.pid]))])
    case Read(i, a) => w.(engines := w.engines[i := AfterRead(w, w.engines[i], a)])
    case Send(i, permitted) =>
      var e := w.engines[i];
      var r := if e.phase.Killing? then AfterKill(w, e, permitted) else AfterSignal(w, e, permitted);
      w.(engines := w.engines[i := r.0], delivered := w.delivered + Delivered(i, r))
    case Probe(i, permitted) => w.(engines := w.engines[i := AfterProbe(w, w.engines[i], permitted)])
    case Escalate(i, available) =>
      var e := w.engines[i];
      if e.parent.Some? || !available then w.(engines := w.engines[i := e.(phase := Failed)])
      else w.(engines := w.engines[i := e.(phase := Delegated)] + Helpers(e, i, StartRead(e)))
  }

  ghost predicate IsRun(worlds: seq<World>, events: seq<Event>) {
    && |worlds| == |events| + 1 && worlds[0] == START
    && forall k :: 0 <= k < |events| ==> Enabled(worlds[k], events[k]) && worlds[k + 1] == After(worlds[k], events[k])
  }

  // ---------------------------------------------------------------------------
  // What every step keeps
  // ---------------------------------------------------------------------------

  /** The gate, read off the answers: not init or a kernel thread, and not an immune daemon; with a start time. */
  predicate GatePassed(pid: int, r: seq<Reading>) {
    && pid > 2 && |r| >= 4
    && r[0].answer == Exists(true)
    && r[1].answer.Cmdline? && r[1].answer.content != Some([])
    && r[2].answer.Comm?
    && (if HasImmuneName(r[2].answer.text)
        then |r| == 5 && r[3].answer.Exe? && !IsCritical(r[2].answer.text, r[3].answer.path)
        else |r| == 4)
    && r[|r| - 1].answer.Stat? && r[|r| - 1].answer.start.Some?
  }

  predicate AllBy(r: seq<Reading>, p: Process) {
    forall k :: 0 <= k < |r| ==> r[k].from == Some(p)
  }

  /** Every answer came from the pinned process, it passed the gate, and its start time is the one asked for. */
  predicate Confirmed(e: Engine) {
    && e.pinned.Some? && AllBy(e.readings, e.pinned.value) && GatePassed(e.pid, e.readings)
    && e.pinned.value.pid == e.pid
    && StartRead(e) == e.pinned.value.start
    && (e.expected.Some? ==> e.expected.value == e.pinned.value.start)
  }

  /** What an engine refuses, read off its last answer: a process that is gone or changed, a kernel thread, a critical
      process, and the two first process ids at once. */
  predicate IsRefusal(e: Engine) {
    || e.pid <= 2
    || (e.readings != []
        && match e.readings[|e.readings| - 1].answer
           case Exists(found) => !found
           case Cmdline(content) => content == Some([])
           case Comm(_) => false
           case Exe(path) =>
             |e.readings| == 4 && e.readings[2].answer.Comm? && IsCritical(e.readings[2].answer.text, path)
           case Stat(start) => start.None? || (e.expected.Some? && e.expected != start))
  }

  /** The answers so far fit the phase. */
  predicate Trace(e: Engine) {
    var r := e.readings;
    match e.phase
    case Opening => r == [] && e.pid > 2 && e.pinned.None?
    case CheckingExistence => r == []
    case ReadingCmdline => |r| == 1 && r[0].answer == Exists(true)
    case ReadingComm =>
      |r| == 2 && r[0].answer == Exists(true) && r[1].answer.Cmdline? && r[1].answer.content != Some([])
    case ReadingExe =>
      && |r| == 3 && r[0].answer == Exists(true) && r[1].answer.Cmdline? && r[1].answer.content != Some([])
      && r[2].answer.Comm? && HasImmuneName(r[2].answer.text)
    case ReadingStat =>
      && |r| >= 3 && r[0].answer == Exists(true) && r[1].answer.Cmdline? && r[1].answer.content != Some([])
      && r[2].answer.Comm?
      && (if HasImmuneName(r[2].answer.text)
          then |r| == 4 && r[3].answer.Exe? && !IsCritical(r[2].answer.text, r[3].answer.path)
          else |r| == 3)
    case Signalling => GatePassed(e.pid, r) && (e.expected.Some? ==> e.expected.value == StartRead(e))
    case Refused => IsRefusal(e)
    case Failed => GatePassed(e.pid, r) && (e.expected.Some? ==> e.expected.value == StartRead(e))
    case _ => Confirmed(e)
  }

  predicate EngineInv(w: World, e: Engine) {
    && -Decimal.I32_LIMIT <= e.pid < Decimal.I32_LIMIT
    && Trace(e)
    && (e.pinned.Some? ==> e.pinned.value in w.born && e.pinned.value.pid == e.pid > 2)
    && (e.pinned.None? ==> e.phase.Opening? || e.phase.Refused?)
    && (forall k :: 0 <= k < |e.readings| ==> CanAnswer(e.readings[k].from, e.readings[k].answer))
    && (e.pinned.Some? && IsAlive(w, e.pinned.value) ==> AllBy(e.readings, e.pinned.value))
  }

  /** A helper works for a parent that waits for it, on the process the parent pinned. */
  predicate HelperInv(engines: seq<Engine>, i: nat)
    requires i < |engines|
  {
    engines[i].parent.Some? ==>
      && engines[i].parent.value < i
      && var (e, p) := (engines[i], engines[engines[i].parent.value]);
      && p.phase.Delegated? && p.parent.None? && p.pinned.Some?
      && e.op == p.op && e.pid == p.pid && e.expected == Some(p.pinned.value.start)
  }

  predicate WorldInv(w: World) {
    && (forall p, q :: p in w.born && q in w.born && p.pid == q.pid && p.start == q.start ==> p == q)
    && (forall pid :: pid in w.alive ==> w.alive[pid] in w.born && w.alive[pid].pid == pid)
    && (forall p :: p in w.born ==> p.start < Decimal.U64_LIMIT)
  }

  predicate Delivers(phase: Phase) {
    phase.Polling? || phase.LastProbe? || phase.Killing? || phase.Done?
  }

  predicate DeliveryInv(engines: seq<Engine>, d: Delivery) {
    && d.engine < |engines| && var e := engines[d.engine];
    && e.pinned == Some(d.target) && Delivers(e.phase)
  }

  /** The signals engine `i` has sent, in order. */
  function SentBy(delivered: seq<Delivery>, i: nat): seq<Signal> {
    if delivered == [] then []
    else
      var n := |delivered| - 1;
      SentBy(delivered[..n], i) + if delivered[n].engine == i then [delivered[n].signal] else []
  }

  /** What an engine in this phase may have sent. */
  predicate ScriptInv(e: Engine, sent: seq<Signal>) {
    if e.phase.Polling? || e.phase.LastProbe? || e.phase.Killing? then e.op == Terminate && sent == [Term]
    else if e.phase.Done? then sent == [FirstSignal(e.op)] || (e.op == Terminate && sent == [Term, Kill])
    else sent == []
  }

  ghost predicate Inv(w: World) {
    && WorldInv(w)
    && (forall i :: 0 <= i < |w.engines| ==> EngineInv(w, w.engines[i]))
    && (forall i :: 0 <= i < |w.engines| ==> HelperInv(w.engines, i))
    && (forall i :: 0 <= i < |w.delivered| ==> DeliveryInv(w.engines, w.delivered[i]))
    && (forall i :: 0 <= i < |w.engines| ==> ScriptInv(w.engines[i], SentBy(w.delivered, i)))
  }

  /** The processes that live on are those that lived before: nothing comes back to life. */
  ghost predicate NothingRevived(w: World, v: World) {
    w.born <= v.born && forall p :: p in w.born && IsAlive(v, p) ==> IsAlive(w, p)
  }

  lemma EngineKept(w: World, v: World, e: Engine)
    requires EngineInv(w, e) && NothingRevived(w, v)
    ensures EngineInv(v, e)
  {
    hide Trace, AllBy, CanAnswer;
  }

  lemma OpenKeeps(w: World, e: Engine)
    requires WorldInv(w) && EngineInv(w, e) && e.phase.Opening? && e.pid in w.alive
    ensures EngineInv(w, e.(phase := CheckingExistence, pinned := Some(w.alive[e.pid])))
  {
  }

  lemma ReadKeeps(w: World, e: Engine, a: Answer)
    requires EngineInv(w, e) && Asks(e.phase, a) && CanAnswer(Answerer(w, e.pid), a)
    requires a.Exe? ==> |e.readings| == 3 && e.readings[2].answer.Comm?
    ensures EngineInv(w, AfterRead(w, e, a))
  {
    ReadKeepsTrace(w, e, a);
    hide Trace, AfterAnswer, Asks, CanAnswer;
    var f := AfterRead(w, e, a);
    assert forall k :: 0 <= k < |e.readings| ==> f.readings[k] == e.readings[k];
    NobodyAsksBeforePinning(e, a);
  }

  lemma NobodyAsksBeforePinning(e: Engine, a: Answer)
    requires Asks(e.phase, a)
    ensures !e.phase.Opening? && !e.phase.Refused?
  {
  }

  lemma ReadKeepsTrace(w: World, e: Engine, a: Answer)
    requires Trace(e) && e.pid > 2 && Asks(e.phase, a)
    requires a.Exe? ==> |e.readings| == 3 && e.readings[2].answer.Comm?
    ensures Trace(AfterRead(w, e, a))
  {
    hide HasImmuneName, IsImmune, IsCritical, Confirmed, Answerer;
    if a.Exe? {
      ExeKeepsTrace(w, e, a);
    } else if a.Stat? {
      StatKeepsTrace(w, e, a);
    } else {
      var f := AfterRead(w, e, a);
      assert |f.readings| == |e.readings| + 1;
      assert forall k :: 0 <= k < |e.readings| ==> f.readings[k] == e.readings[k];
    }
  }

  lemma ExeKeepsTrace(w: World, e: Engine, a: Answer)
    requires Trace(e) && a.Exe? && Asks(e.phase, a) && |e.readings| == 3 && e.readings[2].answer.Comm?
    ensures Trace(AfterRead(w, e, a))
  {
    ImmuneIff(e.readings[2].answer.text, a.path);
    hide HasImmuneName, IsImmune, IsCritical, Confirmed, Answerer, GatePassed;
    assert e.phase.ReadingExe?;
    var f := AfterRead(w, e, a);
    assert |f.readings| == 4 && f.readings[3].answer == a;
    assert forall k :: 0 <= k < 3 ==> f.readings[k] == e.readings[k];
  }

  lemma StatKeepsTrace(w: World, e: Engine, a: Answer)
    requires Trace(e) && e.pid > 2 && a.Stat? && Asks(e.phase, a)
    ensures Trace(AfterRead(w, e, a))
  {
    hide HasImmuneName, IsImmune, IsCritical, Confirmed, Answerer;
    assert e.phase.ReadingStat?;
    var f := AfterRead(w, e, a);
    assert |f.readings| == |e.readings| + 1 && f.readings[|e.readings|].answer == a;
    assert forall k :: 0 <= k < |e.readings| ==> f.readings[k] == e.readings[k];
  }

  /** A signal that the kernel accepts or denies finds the pinned process alive, so it was alive all along. */
  lemma AliveIsConfirmed(w: World, e: Engine)
    requires EngineInv(w, e) && e.phase.Signalling? && e.pinned.Some? && IsAlive(w, e.pinned.value)
    ensures Confirmed(e)
  {
    hide HasImmuneName, IsImmune;
    var n := |e.readings| - 1;
    assert e.readings[n].from == Some(e.pinned.value);
    assert CanAnswer(e.readings[n].from, e.readings[n].answer);
  }

  lemma SendKeeps(w: World, e: Engine, permitted: bool)
    requires EngineInv(w, e) && (e.phase.Signalling? || e.phase.Killing?) && e.pinned.Some?
    ensures EngineInv(w, (if e.phase.Killing? then AfterKill(w, e, permitted) else AfterSignal(w, e, permitted)).0)
  {
    hide GatePassed, AllBy;
    if e.phase.Signalling? && IsAlive(w, e.pinned.value) {
      AliveIsConfirmed(w, e);
    }
  }

  lemma ProbeKeeps(w: World, e: Engine, permitted: bool)
    requires EngineInv(w, e) && (e.phase.Polling? || e.phase.LastProbe?) && e.pinned.Some?
    ensures EngineInv(w, AfterProbe(w, e, permitted))
  {
    hide GatePassed, AllBy;
  }

  /** Round trip of the identity: the helper is started for the pinned process and no other. */
  lemma HelperIsForThePinned(w: World, e: Engine, i: nat)
    requires WorldInv(w) && EngineInv(w, e) && e.phase.Escalating?
    ensures Confirmed(e)
    ensures Helpers(e, i, StartRead(e)) == [NewEngine(e.op, e.pid, Some(e.pinned.value.start), Some(i))]
  {
    hide GatePassed, AllBy, ProcStat.ParseIdentityArg, ProcStat.IdentityArg;
    var s := e.pinned.value.start;
    ProcStat.IdentityRoundTrip("", e.pid, s, "");
    assert "" + ProcStat.IdentityArg(e.pid, s) + "" == ProcStat.IdentityArg(e.pid, s);
  }

  // ---------------------------------------------------------------------------
  // Every step of the world keeps the invariant
  // ---------------------------------------------------------------------------

  lemma {:induction false} SentByOthers(delivered: seq<Delivery>, d: Delivery, i: nat)
    ensures SentBy(delivered + [d], i) == SentBy(delivered, i) + if d.engine == i then [d.signal] else []
  {
    assert (delivered + [d])[..|delivered|] == delivered;
  }

  lemma {:induction false} NothingSent(delivered: seq<Delivery>, i: nat)
    requires forall k :: 0 <= k < |delivered| ==> delivered[k].engine != i
    ensures SentBy(delivered, i) == []
    decreases |delivered|
  {
    if delivered != [] {
      NothingSent(delivered[..|delivered| - 1], i);
    }
  }

  lemma WorldChangeKeeps(w: World, v: World)
    requires Inv(w) && WorldInv(v) && NothingRevived(w, v) && v.engines == w.engines && v.delivered == w.delivered
    ensures Inv(v)
  {
    hide EngineInv, HelperInv, DeliveryInv, ScriptInv, WorldInv, NothingRevived, SentBy;
    forall i | 0 <= i < |w.engines|
      ensures EngineInv(v, v.engines[i])
    {
      EngineKept(w, v, w.engines[i]);
    }
  }

  /** One engine moves on, and possibly sends a signal. */
  lemma MoveKeeps(w: World, i: nat, f: Engine, sent: Option<Signal>, v: World)
    requires Inv(w) && i < |w.engines| && EngineInv(w, f)
    requires var e := w.engines[i];
      && f.op == e.op && f.pid == e.pid && f.expected == e.expected && f.parent == e.parent
      && (e.pinned.Some? ==> f.pinned == e.pinned) && !e.phase.Delegated?
      && (Delivers(e.phase) ==> Delivers(f.phase))
    requires sent.Some? ==> f.pinned.Some? && Delivers(f.phase)
    requires ScriptInv(f, SentBy(w.delivered, i) + if sent.Some? then [sent.value] else [])
    requires v == w.(engines := w.engines[i := f], delivered := w.delivered + Delivered(i, (f, sent)))
    ensures Inv(v)
  {
    hide EngineInv, ScriptInv, WorldInv, SentBy;
    EnginesKept(w, v);
    forall k | 0 <= k < |w.engines|
      ensures HelperInv(v.engines, k)
    {
      assert HelperInv(w.engines, k);
    }
    forall k | 0 <= k < |v.delivered|
      ensures DeliveryInv(v.engines, v.delivered[k])
    {
      if k < |w.delivered| {
        assert DeliveryInv(w.engines, w.delivered[k]);
        DeliveredEngineIsPinned(w, k);
      } else {
        assert v.delivered[k] == Delivery(i, sent.value, f.pinned.value);
      }
    }
    forall k | 0 <= k < |w.engines|
      ensures ScriptInv(v.engines[k], SentBy(v.delivered, k))
    {
      assert ScriptInv(w.engines[k], SentBy(w.delivered, k));
      assert SentBy(w.delivered, k) + [] == SentBy(w.delivered, k);
      if sent.Some? {
        SentByOthers(w.delivered, Delivery(i, sent.value, f.pinned.value), k);
        assert v.delivered == w.delivered + [Delivery(i, sent.value, f.pinned.value)];
      } else {
        assert v.delivered == w.delivered;
      }
    }
  }

  lemma DeliveredEngineIsPinned(w: World, k: nat)
    requires Inv(w) && k < |w.delivered|
    ensures w.delivered[k].engine < |w.engines|
    ensures w.engines[w.delivered[k].engine].pinned == Some(w.delivered[k].target)
  {
    hide EngineInv, ScriptInv, WorldInv, HelperInv;
    assert DeliveryInv(w.engines, w.delivered[k]);
  }

  lemma EnginesKept(w: World, v: World)
    requires v.born == w.born && v.alive == w.alive
    ensures WorldInv(w) ==> WorldInv(v)
    ensures forall e :: EngineInv(w, e) ==> EngineInv(v, e)
  {
    forall e | EngineInv(w, e)
      ensures EngineInv(v, e)
    {
      EngineKept(w, v, e);
    }
  }

  /** One more engine starts. */
  lemma AppendKeeps(w: World, e: Engine, v: World)
    requires Inv(w) && EngineInv(w, e) && (e.phase.Opening? || e.phase.Refused?)
    requires HelperInv(w.engines + [e], |w.engines|)
    requires v == w.(engines := w.engines + [e])
    ensures Inv(v)
  {
    hide EngineInv, WorldInv, SentBy;
    EnginesKept(w, v);
    forall k | 0 <= k < |v.engines|
      ensures HelperInv(v.engines, k)
    {
      if k < |w.engines| {
        assert HelperInv(w.engines, k);
      }
    }
    forall k | 0 <= k < |w.delivered|
      ensures DeliveryInv(v.engines, v.delivered[k])
      ensures w.delivered[k].engine != |w.engines|
    {
      assert DeliveryInv(w.engines, w.delivered[k]);
    }
    NothingSent(w.delivered, |w.engines|);
    forall k | 0 <= k < |v.engines|
      ensures ScriptInv(v.engines[k], SentBy(v.delivered, k))
    {
      if k < |w.engines| {
        assert ScriptInv(w.engines[k], SentBy(w.delivered, k));
      }
    }
  }

  lemma NewEngineInv(w: World, op: Operation, pid: int, expected: Option<nat>, parent: Option<nat>)
    requires -Decimal.I32_LIMIT <= pid < Decimal.I32_LIMIT
    ensures EngineInv(w, NewEngine(op, pid, expected, parent))
  {
  }

  lemma SpawnKeeps(w: World, p: Process, v: World)
    requires Inv(w) && Enabled(w, Spawn(p)) && v == After(w, Spawn(p))
    ensures Inv(v)
  {
    hide EngineInv, HelperInv, DeliveryInv, ScriptInv, SentBy;
    WorldChangeKeeps(w, v);
  }

  lemma ExitKeeps(w: World, pid: int, v: World)
    requires Inv(w) && Enabled(w, Exit(pid)) && v == After(w, Exit(pid))
    ensures Inv(v)
  {
    hide EngineInv, HelperInv, DeliveryInv, ScriptInv, SentBy;
    WorldChangeKeeps(w, v);
  }

  lemma EscalateKeeps(w: World, i: nat, available: bool, v: World)
    requires Inv(w) && Enabled(w, Escalate(i, available)) && v == After(w, Escalate(i, available))
    ensures Inv(v)
  {
    hide WorldInv, SentBy, GatePassed, AllBy, Helpers;
    var e := w.engines[i];
    assert EngineInv(w, e) && ScriptInv(e, SentBy(w.delivered, i));
    var f := e.(phase := if e.parent.Some? || !available then Failed else Delegated);
    var u := w.(engines := w.engines[i := f]);
    assert SentBy(w.delivered, i) + [] == SentBy(w.delivered, i);
    assert w.delivered + [] == w.delivered;
    HelperIsForThePinned(w, e, i);
    MoveKeeps(w, i, f, None, u);
    if f.phase.Delegated? {
      var h := NewEngine(e.op, e.pid, Some(e.pinned.value.start), Some(i));
      NewEngineInv(u, e.op, e.pid, Some(e.pinned.value.start), Some(i));
      AppendKeeps(u, h, v);
    }
  }

  /** One engine moves on without sending anything. */
  lemma QuietMoveKeeps(w: World, i: nat, f: Engine, v: World)
    requires Inv(w) && i < |w.engines| && EngineInv(w, f) && v == w.(engines := w.engines[i := f])
    requires var e := w.engines[i];
      && f.op == e.op && f.pid == e.pid && f.expected == e.expected && f.parent == e.parent
      && (e.pinned.Some? ==> f.pinned == e.pinned) && !e.phase.Delegated?
      && (Delivers(e.phase) ==> Delivers(f.phase))
    requires ScriptInv(f, SentBy(w.delivered, i))
    ensures Inv(v)
  {
    hide Inv, EngineInv, ScriptInv, SentBy, Delivers;
    assert SentBy(w.delivered, i) + [] == SentBy(w.delivered, i);
    assert w.delivered + [] == w.delivered;
    MoveKeeps(w, i, f, None, v);
  }

  lemma EngineIsValid(w: World, i: nat)
    requires Inv(w) && i < |w.engines|
    ensures WorldInv(w) && EngineInv(w, w.engines[i]) && ScriptInv(w.engines[i], SentBy(w.delivered, i))
  {
    hide WorldInv, EngineInv, ScriptInv, HelperInv, DeliveryInv;
  }

  lemma OpenStepKeeps(w: World, i: nat, v: World)
    requires Inv(w) && Enabled(w, Open(i)) && v == After(w, Open(i))
    ensures Inv(v)
  {
    hide Inv, WorldInv, SentBy, GatePassed, AllBy;
    EngineIsValid(w, i);
    var e := w.engines[i];
    OpenKeeps(w, e);
    hide EngineInv;
    QuietMoveKeeps(w, i, e.(phase := CheckingExistence, pinned := Some(w.alive[e.pid])), v);
  }

  lemma ReadStepKeeps(w: World, i: nat, a: Answer, v: World)
    requires Inv(w) && Enabled(w, Read(i, a)) && v == After(w, Read(i, a))
    ensures Inv(v)
  {
    hide Inv, WorldInv, SentBy, GatePassed, AllBy, HasImmuneName, IsImmune, CanAnswer;
    EngineIsValid(w, i);
    ReadKeeps(w, w.engines[i], a);
    hide EngineInv;
    QuietMoveKeeps(w, i, AfterRead(w, w.engines[i], a), v);
  }

  lemma SendStepKeeps(w: World, i: nat, permitted: bool, v: World)
    requires Inv(w) && Enabled(w, Send(i, permitted)) && v == After(w, Send(i, permitted))
    ensures Inv(v)
  {
    hide Inv, EngineInv, WorldInv, SentBy, IsAlive;
    EngineIsValid(w, i);
    var e := w.engines[i];
    SendKeeps(w, e, permitted);
    var r := if e.phase.Killing? then AfterKill(w, e, permitted) else AfterSignal(w, e, permitted);
    assert SentBy(w.delivered, i) + [] == SentBy(w.delivered, i);
    assert w.delivered + [] == w.delivered;
    MoveKeeps(w, i, r.0, r.1, v);
  }

  lemma ProbeStepKeeps(w: World, i: nat, permitted: bool, v: World)
    requires Inv(w) && Enabled(w, Probe(i, permitted)) && v == After(w, Probe(i, permitted))
    ensures Inv(v)
  {
    hide Inv, EngineInv, WorldInv, SentBy, IsAlive;
    EngineIsValid(w, i);
    ProbeKeeps(w, w.engines[i], permitted);
    QuietMoveKeeps(w, i, AfterProbe(w, w.engines[i], permitted), v);
  }

  lemma LaunchedHasNoParent(engines: seq<Engine>, e: Engine)
    requires e.parent.None?
    ensures HelperInv(engines + [e], |engines|)
  {
  }

  lemma {:induction false} StepKeeps(w: World, ev: Event)
    requires Inv(w) && Enabled(w, ev)
    ensures Inv(After(w, ev))
  {
    hide WorldInv, SentBy, GatePassed, AllBy, Helpers, Trace, CanAnswer, HelperInv, DeliveryInv, NothingRevived;
    var v := After(w, ev);
    match ev {
      case Spawn(p) => SpawnKeeps(w, p, v);
      case Exit(pid) => ExitKeeps(w, pid, v);
      case Launch(op, pid, expected) =>
        NewEngineInv(w, op, pid, expected, None);
        LaunchedHasNoParent(w.engines, NewEngine(op, pid, expected, None));
        AppendKeeps(w, NewEngine(op, pid, expected, None), v);
      case Escalate(i, available) => EscalateKeeps(w, i, available, v);
      case Open(i) => OpenStepKeeps(w, i, v);
      case Read(i, a) => ReadStepKeeps(w, i, a, v);
      case Send(i, permitted) => SendStepKeeps(w, i, permitted, v);
      case Probe(i, permitted) => ProbeStepKeeps(w, i, permitted, v);
    }
  }

  lemma {:induction false} InvHolds(worlds: seq<World>, events: seq<Event>, k: nat)
    requires IsRun(worlds, events) && k <= |events|
    ensures Inv(worlds[k])
  {
    if k > 0 {
      InvHolds(worlds, events, k - 1);
      StepKeeps(worlds[k - 1], events[k - 1]);
    }
  }

  /** A process starts under this id, or the one that has it exits. */
  predicate Concerns(ev: Event, pid: int) {
    (ev.Spawn? && ev.process.pid == pid) || (ev.Exit? && ev.pid == pid)
  }

  /** The last event before `k` that concerns the id. */
  function LastConcern(events: seq<Event>, k: nat, pid: int): (r: Option<nat>)
    requires k <= |events|
    ensures r.Some? ==> r.value < k && Concerns(events[r.value], pid)
    ensures forall j :: (if r.Some? then r.value + 1 else 0) <= j < k ==> !Concerns(events[j], pid)
  {
    if k == 0 then None
    else if Concerns(events[k - 1], pid) then Some(k - 1)
    else LastConcern(events, k - 1, pid)
  }

  /** Which process has an id: the one that was started under it last, if it has not exited since. */
  lemma {:induction false} HolderOfId(worlds: seq<World>, events: seq<Event>, k: nat, pid: int)
    requires IsRun(worlds, events) && k <= |events|
    ensures var r := LastConcern(events, k, pid);
      if r.Some? && events[r.value].Spawn?
      then pid in worlds[k].alive && worlds[k].alive[pid] == events[r.value].process
      else pid !in worlds[k].alive
  {
    if k > 0 {
      HolderOfId(worlds, events, k - 1, pid);
      assert Enabled(worlds[k - 1], events[k - 1]) && worlds[k] == After(worlds[k - 1], events[k - 1]);
      HolderStep(worlds[k - 1], events[k - 1], pid);
      hide After, Enabled;
    }
  }

  lemma HolderStep(w: World, ev: Event, pid: int)
    requires Enabled(w, ev)
    ensures var v := After(w, ev);
      if ev.Spawn? && ev.process.pid == pid then pid in v.alive && v.alive[pid] == ev.process
      else if ev.Exit? && ev.pid == pid then pid !in v.alive
      else (pid in v.alive <==> pid in w.alive) && (pid in w.alive ==> v.alive[pid] == w.alive[pid])
  {
    hide HasImmuneName, IsImmune, StartRead, CanAnswer, ProcStat.ParseIdentityArg, ProcStat.IdentityArg;
  }

  // ---------------------------------------------------------------------------
  // Signal safety
  // ---------------------------------------------------------------------------

  lemma DeliveredIsConfirmed(w: World, d: Delivery)
    requires Inv(w) && d in w.delivered
    ensures d.engine < |w.engines|
    ensures var e := w.engines[d.engine]; Confirmed(e) && e.pinned == Some(d.target) && d.target in w.born
  {
    hide GatePassed, AllBy, WorldInv, ScriptInv, HelperInv;
    var n :| 0 <= n < |w.delivered| && w.delivered[n] == d;
    assert DeliveryInv(w.engines, d);
    assert EngineInv(w, w.engines[d.engine]);
  }

  /** In every interleaving, a process that receives a signal is the one that gave every answer the gate was decided on,
      and its start time is the approved one. */
  lemma SignalSafety(worlds: seq<World>, events: seq<Event>, k: nat, d: Delivery)
    requires IsRun(worlds, events) && k <= |events| && d in worlds[k].delivered
    ensures d.engine < |worlds[k].engines|
    ensures var e := worlds[k].engines[d.engine];
      && d.target.pid == e.pid
      && GatePassed(e.pid, e.readings) && AllBy(e.readings, d.target)
      && StartRead(e) == d.target.start
      && (e.expected.Some? ==> e.expected.value == d.target.start)
  {
    hide Inv, AllBy;
    InvHolds(worlds, events, k);
    DeliveredIsConfirmed(worlds[k], d);
  }

  /** In every interleaving, no signal reaches init, a kernel thread or a critical process: whoever gets one has
      answered under no name of the table, or with a readable executable that is not listed under that name. */
  lemma NoCriticalProcessIsSignalled(worlds: seq<World>, events: seq<Event>, k: nat, d: Delivery)
    requires IsRun(worlds, events) && k <= |events| && d in worlds[k].delivered
    ensures d.engine < |worlds[k].engines| && d.target.pid > 2
    ensures var r := worlds[k].engines[d.engine].readings;
      && |r| >= 4 && AllBy(r, d.target) && r[0].answer == Exists(true)
      && r[1].answer.Cmdline? && r[1].answer.content != Some([])
      && r[2].answer.Comm?
      && (r[2].answer.text.Some? && Text.Trim(r[2].answer.text.value) in ImmuneProcesses() ==>
            && r[3].answer.Exe? && r[3].answer.path.Some?
            && forall p :: p in ImmuneProcesses()[Text.Trim(r[2].answer.text.value)] ==>
                 r[3].answer.path.value != p && r[3].answer.path.value != p + " (deleted)")
  {
    SignalSafety(worlds, events, k, d);
    var r := worlds[k].engines[d.engine].readings;
    hide IsRun, ImmuneProcesses, AllBy;
    if HasImmuneName(r[2].answer.text) {
      ImmuneIff(r[2].answer.text, r[3].answer.path);
    } else {
      ImmuneIff(r[2].answer.text, None);
    }
  }

  /** And nothing else is refused: over every run, an engine has refused exactly when its last answer is a reason to. In
      particular a process under a listed name with any other executable passes. */
  lemma RefusedIff(worlds: seq<World>, events: seq<Event>, k: nat, i: nat)
    requires IsRun(worlds, events) && k <= |events| && i < |worlds[k].engines|
    ensures worlds[k].engines[i].phase.Refused? <==> IsRefusal(worlds[k].engines[i])
  {
    hide WorldInv, DeliveryInv, HelperInv, ScriptInv, SentBy;
    InvHolds(worlds, events, k);
    var e := worlds[k].engines[i];
    assert EngineInv(worlds[k], e);
    hide Inv, AllBy, CanAnswer;
    NotRefused(e);
  }

  lemma NotRefused(e: Engine)
    requires Trace(e) && (e.pid > 2 || e.phase.Refused?)
    ensures e.phase.Refused? <==> IsRefusal(e)
  {
    hide AllBy, HasImmuneName, IsCritical;
  }

  /** End to end: what the root helper signals is the very process the unprivileged engine pinned and cleared, whatever
      exited and was replaced while the password prompt was open. */
  lemma HandOffSafety(worlds: seq<World>, events: seq<Event>, k: nat, d: Delivery)
    requires IsRun(worlds, events) && k <= |events| && d in worlds[k].delivered
    requires d.engine < |worlds[k].engines| && worlds[k].engines[d.engine].parent.Some?
    ensures worlds[k].engines[d.engine].parent.value < |worlds[k].engines|
    ensures var p := worlds[k].engines[worlds[k].engines[d.engine].parent.value];
      && p.pinned == Some(d.target)
      && GatePassed(p.pid, p.readings) && AllBy(p.readings, d.target)
      && (p.expected.Some? ==> p.expected.value == d.target.start)
      && p.op == worlds[k].engines[d.engine].op
  {
    hide Inv, AllBy, GatePassed, WorldInv;
    InvHolds(worlds, events, k);
    DeliveredIsConfirmed(worlds[k], d);
    ParentIsConfirmed(worlds[k], d.engine);
    var e := worlds[k].engines[d.engine];
    SameProcess(worlds[k], d.target, worlds[k].engines[e.parent.value].pinned.value);
  }

  lemma ParentIsConfirmed(w: World, i: nat)
    requires Inv(w) && i < |w.engines| && w.engines[i].parent.Some?
    ensures w.engines[i].parent.value < |w.engines|
    ensures var (e, p) := (w.engines[i], w.engines[w.engines[i].parent.value]);
      && Confirmed(p) && p.pinned.value in w.born
      && e.op == p.op && e.pid == p.pid && e.expected == Some(p.pinned.value.start)
  {
    hide GatePassed, AllBy, WorldInv, ScriptInv, DeliveryInv;
    assert HelperInv(w.engines, i);
    assert EngineInv(w, w.engines[w.engines[i].parent.value]);
  }

  lemma SameProcess(w: World, p: Process, q: Process)
    requires Inv(w) && p in w.born && q in w.born && p.pid == q.pid && p.start == q.start
    ensures p == q
  {
    hide EngineInv, ScriptInv, DeliveryInv, HelperInv;
  }

  /** Who came later is safe: a process that was started after the user's engine had pinned its target gets no signal
      from that engine or from its helper, even if it has the same process id. */
  lemma ReplacementIsNotSignalled(
      worlds: seq<World>, events: seq<Event>, j: nat, k: nat, i: nat, d: Delivery, replacement: Process)
    requires IsRun(worlds, events) && j <= k <= |events|
    requires i < |worlds[j].engines| && worlds[j].engines[i].pinned.Some? && replacement !in worlds[j].born
    requires d in worlds[k].delivered && d.engine < |worlds[k].engines|
    requires d.engine == i || worlds[k].engines[d.engine].parent == Some(i)
    ensures d.target != replacement
  {
    hide Inv, AllBy, GatePassed, WorldInv, Confirmed;
    InvHolds(worlds, events, j);
    PinnedIsBorn(worlds[j], i);
    PinnedForGood(worlds, events, j, k, i);
    if d.engine == i {
      InvHolds(worlds, events, k);
      DeliveredIsConfirmed(worlds[k], d);
    } else {
      HandOffSafety(worlds, events, k, d);
    }
  }

  lemma PinnedIsBorn(w: World, i: nat)
    requires Inv(w) && i < |w.engines| && w.engines[i].pinned.Some?
    ensures w.engines[i].pinned.value in w.born
  {
    hide Trace, AllBy, CanAnswer, WorldInv, ScriptInv, DeliveryInv, HelperInv;
    assert EngineInv(w, w.engines[i]);
  }

  lemma {:induction false} PinnedForGood(worlds: seq<World>, events: seq<Event>, j: nat, k: nat, i: nat)
    requires IsRun(worlds, events) && j <= k <= |events|
    requires i < |worlds[j].engines| && worlds[j].engines[i].pinned.Some?
    ensures i < |worlds[k].engines| && worlds[k].engines[i].pinned == worlds[j].engines[i].pinned
  {
    hide Inv, Enabled, After;
    if j < k {
      PinnedForGood(worlds, events, j, k - 1, i);
      InvHolds(worlds, events, k - 1);
      assert Enabled(worlds[k - 1], events[k - 1]) && worlds[k] == After(worlds[k - 1], events[k - 1]);
      StepKeepsPinned(worlds[k - 1], events[k - 1], i);
    }
  }

  lemma StepKeepsPinned(w: World, ev: Event, i: nat)
    requires Inv(w) && Enabled(w, ev) && i < |w.engines| && w.engines[i].pinned.Some?
    ensures i < |After(w, ev).engines| && After(w, ev).engines[i].pinned == w.engines[i].pinned
  {
    hide AllBy, CanAnswer, WorldInv, ScriptInv, DeliveryInv, HelperInv, HasImmuneName, IsImmune, GatePassed, Helpers;
    assert EngineInv(w, w.engines[i]);
  }

  /** Freezing stops, thawing continues, each at most once; only termination sends two signals, the second a kill. */
  lemma SignalsFollowTheScript(worlds: seq<World>, events: seq<Event>, k: nat, i: nat)
    requires IsRun(worlds, events) && k <= |events| && i < |worlds[k].engines|
    ensures var sent := SentBy(worlds[k].delivered, i);
      match worlds[k].engines[i].op
      case Freeze => sent == [] || sent == [Stop]
      case Terminate => sent == [] || sent == [Term] || sent == [Term, Kill]
      case Thaw => sent == [] || sent == [Continue]
  {
    hide EngineInv, WorldInv, DeliveryInv, HelperInv;
    InvHolds(worlds, events, k);
    assert ScriptInv(worlds[k].engines[i], SentBy(worlds[k].delivered, i));
  }

  /** What one call of the kernel does: a permitted signal reaches the pinned process if it is still there, and nobody
      else; without permission the helper is next, and if the process is gone there is nothing left to do. */
  lemma SendIff(worlds: seq<World>, events: seq<Event>, k: nat, i: nat, permitted: bool)
    requires IsRun(worlds, events) && k < |events| && events[k] == Send(i, permitted)
    ensures i < |worlds[k].engines| == |worlds[k + 1].engines| && worlds[k].engines[i].pinned.Some?
    ensures var (e, f) := (worlds[k].engines[i], worlds[k + 1].engines[i]); var p := e.pinned.value;
      var there := p.pid in worlds[k].alive && worlds[k].alive[p.pid] == p;
      var signal := if e.phase.Killing? then Kill else match e.op case Freeze => Stop case Terminate => Term
                                                                case Thaw => Continue;
      && worlds[k + 1].delivered
         == worlds[k].delivered + (if there && permitted then [Delivery(i, signal, p)] else [])
      && (e.phase.Signalling? ==> (f.phase.Escalating? <==> there && !permitted) && (f.phase.Failed? <==> !there))
  {
    assert Enabled(worlds[k], events[k]);
  }

  /** One probe: while the process is found alive there are ten, and then a last one, which decides about the kill. */
  lemma ProbeIff(worlds: seq<World>, events: seq<Event>, k: nat, i: nat, permitted: bool)
    requires IsRun(worlds, events) && k < |events| && events[k] == Probe(i, permitted)
    ensures i < |worlds[k].engines| == |worlds[k + 1].engines| && worlds[k].engines[i].pinned.Some?
    ensures var (before, after) := (worlds[k].engines[i].phase, worlds[k + 1].engines[i].phase);
      var p := worlds[k].engines[i].pinned.value;
      var alive := permitted && p.pid in worlds[k].alive && worlds[k].alive[p.pid] == p;
      match before
      case Polling(n) => after == if alive && n < 9 then Polling(n + 1) else LastProbe
      case _ => before.LastProbe? && after == if alive then Killing else Done
  {
    assert Enabled(worlds[k], events[k]);
  }

  // ---------------------------------------------------------------------------
  // The kill comes last
  // ---------------------------------------------------------------------------

  /** How often engine `i` has asked by step `k` whether the process it asked to terminate is gone. */
  function Probes(events: seq<Event>, k: nat, i: nat): nat
    requires k <= |events|
  {
    if k == 0 then 0 else Probes(events, k - 1, i) + if events[k - 1].Probe? && events[k - 1].i == i then 1 else 0
  }

  /** One of these questions had no for an answer. */
  ghost predicate FoundGone(worlds: seq<World>, events: seq<Event>, k: nat, i: nat)
    requires k <= |events| && k <= |worlds|
  {
    exists j :: 0 <= j < k && AsksInVain(worlds[j], events[j], i)
  }

  predicate AsksInVain(w: World, ev: Event, i: nat) {
    && ev.Probe? && ev.i == i && i < |w.engines| && w.engines[i].pinned.Some?
    && !(ev.permitted && IsAlive(w, w.engines[i].pinned.value))
  }

  predicate ProbesFit(phase: Phase, probes: nat, gone: bool) {
    match phase
    case Polling(n) => probes == n < 10 && !gone
    case LastProbe => probes == 10 || gone
    case Killing => probes == 11 || gone
    case Done => true
    case _ => probes == 0 && !gone
  }

  lemma {:induction false} ProbesAreCounted(worlds: seq<World>, events: seq<Event>, k: nat, i: nat)
    requires IsRun(worlds, events) && k <= |events|
    ensures if i < |worlds[k].engines|
            then ProbesFit(worlds[k].engines[i].phase, Probes(events, k, i), FoundGone(worlds, events, k, i))
            else Probes(events, k, i) == 0 && !FoundGone(worlds, events, k, i)
  {
    hide Enabled, After, AsksInVain, ProbesFit;
    if k > 0 {
      ProbesAreCounted(worlds, events, k - 1, i);
      assert Enabled(worlds[k - 1], events[k - 1]) && worlds[k] == After(worlds[k - 1], events[k - 1]);
      FoundGoneStep(worlds, events, k - 1, i);
      ProbeStep(worlds[k - 1], events[k - 1], i, Probes(events, k - 1, i), FoundGone(worlds, events, k - 1, i));
    }
  }

  lemma FoundGoneStep(worlds: seq<World>, events: seq<Event>, k: nat, i: nat)
    requires k < |events| && k < |worlds|
    ensures FoundGone(worlds, events, k + 1, i)
        <==> FoundGone(worlds, events, k, i) || AsksInVain(worlds[k], events[k], i)
  {
    hide AsksInVain;
  }

  lemma ProbeStep(w: World, ev: Event, i: nat, probes: nat, gone: bool)
    requires Enabled(w, ev)
    requires if i < |w.engines| then ProbesFit(w.engines[i].phase, probes, gone) else probes == 0 && !gone
    ensures var v := After(w, ev); var n := probes + if ev.Probe? && ev.i == i then 1 else 0;
      if i < |v.engines| then ProbesFit(v.engines[i].phase, n, gone || AsksInVain(w, ev, i))
      else n == 0 && !gone && !AsksInVain(w, ev, i)
  {
    hide IsAlive, HasImmuneName, IsImmune, StartRead, CanAnswer, ProcStat.ParseIdentityArg, ProcStat.IdentityArg;
  }

  /** A process that was asked to terminate is killed only after its TERM, and after it was found alive eleven times,
      unless it was found gone in between. */
  lemma KillIsLastResort(worlds: seq<World>, events: seq<Event>, k: nat, i: nat, permitted: bool)
    requires IsRun(worlds, events) && k < |events| && events[k] == Send(i, permitted)
    requires i < |worlds[k].engines| && worlds[k].engines[i].phase.Killing?
    ensures SentBy(worlds[k].delivered, i) == [Term]
    ensures Probes(events, k, i) == 11 || FoundGone(worlds, events, k, i)
  {
    ProbesAreCounted(worlds, events, k, i);
    InvHolds(worlds, events, k);
    hide IsRun, EngineInv, WorldInv, DeliveryInv, HelperInv, FoundGone, Probes, SentBy;
    assert ScriptInv(worlds[k].engines[i], SentBy(worlds[k].delivered, i));
  }

  // ---------------------------------------------------------------------------
  // Who may be signalled is signalled
  // ---------------------------------------------------------------------------

  predicate CanHappen(w: World, ev: Event) {
    Enabled(w, ev)
  }

  function NextWorld(w: World, ev: Event): World {
    if CanHappen(w, ev) then After(w, ev) else w
  }

  /** The answers process `p` gives when nobody interferes; the executable is asked for under a critical name only. */
  function AnswersOf(p: Process, cmdline: Option<seq<byte>>, comm: Option<string>, exe: Option<string>): seq<Answer> {
    [Exists(true), Cmdline(cmdline), Comm(comm)]
    + (if comm.Some? && Text.Trim(comm.value) in ImmuneProcesses() then [Exe(exe)] else [])
    + [Stat(Some(p.start))]
  }

  function Asked(i: nat, answers: seq<Answer>): seq<Event> {
    seq(|answers|, k requires 0 <= k < |answers| => Read(i, answers[k]))
  }

  /** One call on a live process that is no kernel thread and not critical, with permission and with nobody interfering:
      the process is pinned, answers, and gets exactly the signal of the operation. */
  lemma SignalIsDelivered(
    w: World, op: Operation, p: Process, expected: Option<nat>,
    cmdline: Option<seq<byte>>, comm: Option<string>, exe: Option<string>) returns (events: seq<Event>)
    requires p.pid in w.alive && w.alive[p.pid] == p && 2 < p.pid < Decimal.I32_LIMIT
    requires expected == None || expected == Some(p.start)
    requires cmdline != Some([]) && !IsCritical(comm, exe)
    ensures var i := |w.engines|;
      events == [Launch(op, p.pid, expected), Open(i)] + Asked(i, AnswersOf(p, cmdline, comm, exe)) + [Send(i, true)]
    ensures Legal(CanHappen, NextWorld, w, events)
    ensures var v := Final(NextWorld, w, events);
      var signal := match op case Freeze => Stop case Terminate => Term case Thaw => Continue;
      v.delivered == w.delivered + [Delivery(|w.engines|, signal, p)] && v.alive == w.alive
  {
    var i := |w.engines|;
    var first := Pinned(w, op, p, expected);
    var answers := AnswersOf(p, cmdline, comm, exe);
    var u := Final(NextWorld, w, first);
    hide Legal, Final, StatesOf, CanHappen, NextWorld, IsCritical, ImmuneProcesses;
    Answered(u, i, p, cmdline, comm, exe);
    Concatenated(CanHappen, NextWorld, w, first, Asked(i, answers));
    SentTo(Final(NextWorld, u, Asked(i, answers)), i, p);
    Then(CanHappen, NextWorld, w, first + Asked(i, answers), Send(i, true));
    events := first + Asked(i, answers) + [Send(i, true)];
  }

  /** Engine `i` works on the live process `p` and has got these answers. */
  predicate At(w: World, i: nat, p: Process, phase: Phase, n: nat) {
    && i < |w.engines| && w.engines[i].pinned == Some(p) && w.engines[i].pid == p.pid
    && w.engines[i].phase == phase && |w.engines[i].readings| == n
    && (w.engines[i].expected == None || w.engines[i].expected == Some(p.start))
    && IsAlive(w, p)
  }

  lemma Pinned(w: World, op: Operation, p: Process, expected: Option<nat>) returns (events: seq<Event>)
    requires p.pid in w.alive && w.alive[p.pid] == p && 2 < p.pid < Decimal.I32_LIMIT
    requires expected == None || expected == Some(p.start)
    ensures var i := |w.engines|; events == [Launch(op, p.pid, expected), Open(i)]
    ensures Legal(CanHappen, NextWorld, w, events)
    ensures var (i, v) := (|w.engines|, Final(NextWorld, w, events));
      && At(v, i, p, CheckingExistence, 0) && v.engines[i].op == op && v.delivered == w.delivered && v.alive == w.alive
  {
    NoSteps(CanHappen, NextWorld, w);
    hide Legal, Final, StatesOf;
    events := [];
    Then(CanHappen, NextWorld, w, events, Launch(op, p.pid, expected));
    events := events + [Launch(op, p.pid, expected)];
    Then(CanHappen, NextWorld, w, events, Open(|w.engines|));
    events := events + [Open(|w.engines|)];
  }

  /** What an answer leaves alone. */
  predicate SameElsewhere(v: World, w: World, i: nat) {
    && v.delivered == w.delivered && v.alive == w.alive
    && i < |w.engines| == |v.engines| && v.engines[i].op == w.engines[i].op
  }

  lemma Answers(w: World, i: nat, p: Process, phase: Phase, n: nat, a: Answer)
    requires At(w, i, p, phase, n) && Asks(phase, a) && (a.Stat? ==> a.start == Some(p.start))
    requires a.Exe? ==> n == 3 && w.engines[i].readings[2].answer.Comm?
    ensures CanHappen(w, Read(i, a))
    ensures var v := NextWorld(w, Read(i, a));
      && SameElsewhere(v, w, i) && At(v, i, p, AfterAnswer(w.engines[i], a), n + 1)
      && v.engines[i].readings[..n] == w.engines[i].readings && v.engines[i].readings[n].answer == a
  {
    hide HasImmuneName, IsImmune;
  }

  lemma Answered(w: World, i: nat, p: Process, cmdline: Option<seq<byte>>, comm: Option<string>, exe: Option<string>)
    requires At(w, i, p, CheckingExistence, 0) && cmdline != Some([]) && !IsCritical(comm, exe)
    ensures var events := Asked(i, AnswersOf(p, cmdline, comm, exe));
      && Legal(CanHappen, NextWorld, w, events)
      && var v := Final(NextWorld, w, events);
      SameElsewhere(v, w, i) && exists n :: At(v, i, p, Signalling, n)
  {
    ImmuneIff(comm, exe);
    hide Legal, Final, StatesOf, CanHappen, NextWorld, At, IsImmune, IsCritical, ImmuneProcesses, SameElsewhere;
    var events := NameAnswered(w, i, p, cmdline, comm);
    if HasImmuneName(comm) {
      ExeAnswered(Final(NextWorld, w, events), i, p, comm, exe);
      Then(CanHappen, NextWorld, w, events, Read(i, Exe(exe)));
      SameStill(w, Final(NextWorld, w, events), NextWorld(Final(NextWorld, w, events), Read(i, Exe(exe))), i);
      events := events + [Read(i, Exe(exe))];
    }
    var v := Final(NextWorld, w, events);
    StatAnswered(v, i, p, |events|);
    Then(CanHappen, NextWorld, w, events, Read(i, Stat(Some(p.start))));
    SameStill(w, v, NextWorld(v, Read(i, Stat(Some(p.start)))), i);
    events := events + [Read(i, Stat(Some(p.start)))];
    assert events == Asked(i, AnswersOf(p, cmdline, comm, exe));
  }

  lemma SameStill(w: World, v: World, u: World, i: nat)
    requires SameElsewhere(v, w, i) && SameElsewhere(u, v, i)
    ensures SameElsewhere(u, w, i)
  {
  }

  /** The first three answers. */
  lemma NameAnswered(w: World, i: nat, p: Process, cmdline: Option<seq<byte>>, comm: Option<string>)
    returns (events: seq<Event>)
    requires At(w, i, p, CheckingExistence, 0) && cmdline != Some([])
    ensures events == [Read(i, Exists(true)), Read(i, Cmdline(cmdline)), Read(i, Comm(comm))]
    ensures Legal(CanHappen, NextWorld, w, events)
    ensures var v := Final(NextWorld, w, events);
      && SameElsewhere(v, w, i) && At(v, i, p, if HasImmuneName(comm) then ReadingExe else ReadingStat, 3)
      && v.engines[i].readings[2].answer == Comm(comm)
  {
    hide Legal, Final, StatesOf, CanHappen, NextWorld, HasImmuneName, At, SameElsewhere;
    NoSteps(CanHappen, NextWorld, w);
    events := [];
    ExistsAnswered(w, i, p);
    Then(CanHappen, NextWorld, w, events, Read(i, Exists(true)));
    events := events + [Read(i, Exists(true))];
    var v := Final(NextWorld, w, events);
    CmdlineAnswered(v, i, p, cmdline);
    Then(CanHappen, NextWorld, w, events, Read(i, Cmdline(cmdline)));
    events := events + [Read(i, Cmdline(cmdline))];
    SameStill(w, v, Final(NextWorld, w, events), i);
    var u := Final(NextWorld, w, events);
    CommAnswered(u, i, p, comm);
    Then(CanHappen, NextWorld, w, events, Read(i, Comm(comm)));
    events := events + [Read(i, Comm(comm))];
    SameStill(w, u, Final(NextWorld, w, events), i);
  }

  lemma ExistsAnswered(w: World, i: nat, p: Process)
    requires At(w, i, p, CheckingExistence, 0)
    ensures CanHappen(w, Read(i, Exists(true)))
    ensures var v := NextWorld(w, Read(i, Exists(true))); SameElsewhere(v, w, i) && At(v, i, p, ReadingCmdline, 1)
  {
    hide CanHappen, NextWorld;
    Answers(w, i, p, CheckingExistence, 0, Exists(true));
  }

  lemma CmdlineAnswered(w: World, i: nat, p: Process, cmdline: Option<seq<byte>>)
    requires At(w, i, p, ReadingCmdline, 1) && cmdline != Some([])
    ensures CanHappen(w, Read(i, Cmdline(cmdline)))
    ensures var v := NextWorld(w, Read(i, Cmdline(cmdline))); SameElsewhere(v, w, i) && At(v, i, p, ReadingComm, 2)
  {
    hide CanHappen, NextWorld;
    Answers(w, i, p, ReadingCmdline, 1, Cmdline(cmdline));
  }

  lemma CommAnswered(w: World, i: nat, p: Process, comm: Option<string>)
    requires At(w, i, p, ReadingComm, 2)
    ensures CanHappen(w, Read(i, Comm(comm)))
    ensures var v := NextWorld(w, Read(i, Comm(comm)));
      && SameElsewhere(v, w, i) && At(v, i, p, if HasImmuneName(comm) then ReadingExe else ReadingStat, 3)
      && v.engines[i].readings[2].answer == Comm(comm)
  {
    hide CanHappen, NextWorld, HasImmuneName;
    Answers(w, i, p, ReadingComm, 2, Comm(comm));
  }

  lemma ExeAnswered(w: World, i: nat, p: Process, comm: Option<string>, exe: Option<string>)
    requires At(w, i, p, ReadingExe, 3) && w.engines[i].readings[2].answer == Comm(comm) && !IsImmune(comm, exe)
    ensures CanHappen(w, Read(i, Exe(exe)))
    ensures var v := NextWorld(w, Read(i, Exe(exe))); SameElsewhere(v, w, i) && At(v, i, p, ReadingStat, 4)
  {
    hide CanHappen, NextWorld, IsImmune;
    Answers(w, i, p, ReadingExe, 3, Exe(exe));
  }

  lemma StatAnswered(w: World, i: nat, p: Process, n: nat)
    requires At(w, i, p, ReadingStat, n)
    ensures CanHappen(w, Read(i, Stat(Some(p.start))))
    ensures var v := NextWorld(w, Read(i, Stat(Some(p.start))));
      SameElsewhere(v, w, i) && At(v, i, p, Signalling, n + 1)
  {
    hide CanHappen, NextWorld;
    Answers(w, i, p, ReadingStat, n, Stat(Some(p.start)));
  }

  lemma SentTo(w: World, i: nat, p: Process)
    requires exists n :: At(w, i, p, Signalling, n)
    ensures CanHappen(w, Send(i, true))
    ensures var v := NextWorld(w, Send(i, true));
      var signal := match w.engines[i].op case Freeze => Stop case Terminate => Term case Thaw => Continue;
      v.delivered == w.delivered + [Delivery(i, signal, p)] && v.alive == w.alive
  {
  }

  /** A process that was asked to terminate and stays alive is probed until the engine gives up waiting, and killed. */
  lemma {:induction false} KillIsDelivered(w: World, i: nat, p: Process, probes: nat, n: nat)
    returns (events: seq<Event>)
    requires At(w, i, p, Polling(probes), n) && probes < 10
    ensures |events| == 12 - probes && events[|events| - 1] == Send(i, true)
    ensures forall k :: 0 <= k < |events| - 1 ==> events[k] == Probe(i, true)
    ensures Legal(CanHappen, NextWorld, w, events)
    ensures Final(NextWorld, w, events).delivered == w.delivered + [Delivery(i, Kill, p)]
    decreases 10 - probes
  {
    var ask := Probe(i, true);
    var v := NextWorld(w, ask);
    if probes < 9 {
      Probed(w, i, p, probes, n);
      hide Legal, Final, CanHappen, NextWorld, At;
      var rest := KillIsDelivered(v, i, p, probes + 1, n);
      events := [ask] + rest;
      LegalCons(w, ask, rest);
    } else {
      LastProbed(w, i, p, n);
      hide CanHappen, NextWorld, At;
      var u := NextWorld(v, ask);
      NoSteps(CanHappen, NextWorld, NextWorld(u, Send(i, true)));
      LegalCons(u, Send(i, true), []);
      LegalCons(v, ask, [Send(i, true)] + []);
      LegalCons(w, ask, [ask] + ([Send(i, true)] + []));
      events := [ask] + ([ask] + ([Send(i, true)] + []));
    }
  }

  lemma LegalCons(w: World, ev: Event, rest: seq<Event>)
    requires CanHappen(w, ev) && Legal(CanHappen, NextWorld, NextWorld(w, ev), rest)
    ensures Legal(CanHappen, NextWorld, w, [ev] + rest)
    ensures Final(NextWorld, w, [ev] + rest) == Final(NextWorld, NextWorld(w, ev), rest)
  {
    hide CanHappen, NextWorld;
    assert ([ev] + rest)[1..] == rest;
  }

  lemma Probed(w: World, i: nat, p: Process, probes: nat, n: nat)
    requires At(w, i, p, Polling(probes), n) && probes < 9
    ensures CanHappen(w, Probe(i, true))
    ensures var v := NextWorld(w, Probe(i, true)); At(v, i, p, Polling(probes + 1), n) && v.delivered == w.delivered
  {
  }

  lemma LastProbed(w: World, i: nat, p: Process, n: nat)
    requires At(w, i, p, Polling(9), n)
    ensures var (ask, kill) := (Probe(i, true), Send(i, true));
      && CanHappen(w, ask)
      && var v := NextWorld(w, ask);
      && CanHappen(v, ask)
      && var u := NextWorld(v, ask);
      && CanHappen(u, kill) && NextWorld(u, kill).delivered == w.delivered + [Delivery(i, Kill, p)]
  {
  }
}
