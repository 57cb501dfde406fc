/** The desktop shell's side of the control channel to the monitor
    process: parsing the monitor's `EVT <kind> <rest>` lines, the
    last-value-wins snapshot of backend status, its replay to a newly
    attached UI, the shared backend state across spawn, attach and
    shutdown, and the command lines sent to the monitor. */
module Backend {
  import opened Wrappers
  import Text

  // ---------------------------------------------------------------------
  // Event lines
  // ---------------------------------------------------------------------

  /** A parsed line: its kind and the `raw` member of its data. */
  datatype BackendEvent = BackendEvent(kind: string, raw: string)

  const EvtPrefix: string := "EVT "

  /** The first space at or after `i`, or `|s|`. */
  function NextSpace(s: string, i: nat): (k: nat)
    requires i <= |s|
    ensures i <= k <= |s|
    ensures k < |s| ==> s[k] == ' '
    ensures forall j :: i <= j < k ==> s[j] != ' '
    decreases |s| - i
  {
    if i == |s| || s[i] == ' ' then i else NextSpace(s, i + 1)
  }

  /** `parse_monitor_line`. The trimmed line must start with "EVT "; it is
      split at the first two spaces: the kind is the second piece and the
      data is the trimmed third piece, or empty when there is none. */
  function ParseMonitorLine(line: string): (r: Option<BackendEvent>)
    ensures r.Some? <==> Text.StartsWith(Text.Trim(line), EvtPrefix)
    ensures r.Some? ==> ' ' !in r.value.kind && Text.Trim(r.value.raw) == r.value.raw
  {
    var t := Text.Trim(line);
    if !Text.StartsWith(t, EvtPrefix) then None
    else
      var k := NextSpace(t, |EvtPrefix|);
      var rest := if k < |t| then t[k + 1..] else "";
      Text.TrimIdempotent(rest);
      Some(BackendEvent(t[|EvtPrefix|..k], Text.Trim(rest)))
  }

  /** Where the pieces of a parsed line come from: the trimmed line is
      "EVT ", the kind, and then either nothing or a space and the text the
      data is trimmed from. */
  lemma ParseMonitorLineShape(line: string)
    requires ParseMonitorLine(line).Some?
    ensures var t := Text.Trim(line);
            var e := ParseMonitorLine(line).value;
            var n := |EvtPrefix| + |e.kind|;
            && n <= |t| && t[..n] == EvtPrefix + e.kind
            && (n == |t| ==> e.raw == "")
            && (n < |t| ==> t[n] == ' ' && e.raw == Text.Trim(t[n + 1..]))
  {
    var t := Text.Trim(line);
    var k := NextSpace(t, |EvtPrefix|);
    assert t[..k] == t[..|EvtPrefix|] + t[|EvtPrefix|..k];
    if k == |t| {
      Text.TrimOfTrimmed("");
    }
  }

  /** The kinds the monitor emits are single words; the data carries no
      surrounding whitespace. */
  predicate WellFormedEvent(e: BackendEvent) {
    && e.kind != []
    && (forall i :: 0 <= i < |e.kind| ==> !Text.IsWhiteSpace(e.kind[i]))
    && Text.Trim(e.raw) == e.raw
  }

  /** The line an event is written as: "EVT", the kind and the data, one
      space apart, with no trailing space when the data is empty. */
  function EventLine(e: BackendEvent): string {
    if e.raw == "" then EvtPrefix + e.kind else EvtPrefix + e.kind + " " + e.raw
  }

  /** The first space is found where it is. */
  lemma NextSpaceAt(s: string, i: nat, k: nat)
    requires i <= k <= |s|
    requires k < |s| ==> s[k] == ' '
    requires forall j :: i <= j < k ==> s[j] != ' '
    ensures NextSpace(s, i) == k
  {
  }

  /** An event's line has nothing to trim. */
  lemma EventLineTrimmed(e: BackendEvent)
    requires WellFormedEvent(e)
    ensures Text.Trim(EventLine(e)) == EventLine(e)
  {
    var line := EventLine(e);
    assert line[0] == 'E';
    if e.raw != "" {
      Text.TrimShape(e.raw);
      assert line[|line| - 1] == e.raw[|e.raw| - 1];
    } else {
      assert line[|line| - 1] == e.kind[|e.kind| - 1];
    }
    Text.TrimOfTrimmed(line);
  }

  /** The kind of an event's line ends at the first space after "EVT ". */
  lemma EventLineKindEnds(e: BackendEvent)
    requires WellFormedEvent(e)
    ensures var line := EventLine(e);
            var n := |EvtPrefix| + |e.kind|;
            && n <= |line| && line[..|EvtPrefix|] == EvtPrefix && line[|EvtPrefix|..n] == e.kind
            && NextSpace(line, |EvtPrefix|) == n
  {
    var line := EventLine(e);
    var n := |EvtPrefix| + |e.kind|;
    EventLineRest(e);
    forall j | |EvtPrefix| <= j < n
      ensures line[j] != ' '
    {
      assert line[j] == e.kind[j - |EvtPrefix|];
      assert !Text.IsWhiteSpace(e.kind[j - |EvtPrefix|]);
    }
    NextSpaceAt(line, |EvtPrefix|, n);
  }

  /** What follows the kind: nothing, or a space and the data. */
  lemma EventLineRest(e: BackendEvent)
    ensures var line := EventLine(e);
            var n := |EvtPrefix| + |e.kind|;
            && n <= |line| && line[..n] == EvtPrefix + e.kind
            && (e.raw == "" <==> n == |line|)
            && (e.raw != "" ==> line[n] == ' ' && line[n + 1..] == e.raw)
  {
  }

  /** Parsing recovers every well-formed event from its line. */
  lemma ParseEventLine(e: BackendEvent)
    requires WellFormedEvent(e)
    ensures ParseMonitorLine(EventLine(e)) == Some(e)
  {
    EventLineTrimmed(e);
    EventLineKindEnds(e);
    EventLineRest(e);
  }

  // ---------------------------------------------------------------------
  // The snapshot
  // ---------------------------------------------------------------------

  const InputReady: string := "INPUT_READY"
  const ScanProgress: string := "SCAN_PROGRESS"
  const Registered: string := "REGISTERED"
  const SensApplied: string := "SENS_APPLIED"

  /** The latest status of the backend, replayed to a UI that attaches
      late. */
  datatype BackendSnapshot = BackendSnapshot(
    inputReady: bool,
    scanProgressRaw: Option<string>,
    registeredRaw: Option<string>,
    sensAppliedRaw: Option<string>)

  function DefaultSnapshot(): BackendSnapshot {
    BackendSnapshot(false, None, None, None)
  }

  /** The stored data of the three kinds that carry one. */
  function Stored(snap: BackendSnapshot, kind: string): Option<string> {
    if kind == ScanProgress then snap.scanProgressRaw
    else if kind == Registered then snap.registeredRaw
    else if kind == SensApplied then snap.sensAppliedRaw
    else None
  }

  predicate StoresTrimmed(snap: BackendSnapshot) {
    && (snap.scanProgressRaw.Some? ==> Text.Trim(snap.scanProgressRaw.value) == snap.scanProgressRaw.value)
    && (snap.registeredRaw.Some? ==> Text.Trim(snap.registeredRaw.value) == snap.registeredRaw.value)
    && (snap.sensAppliedRaw.Some? ==> Text.Trim(snap.sensAppliedRaw.value) == snap.sensAppliedRaw.value)
  }

  /** `update_snapshot`: INPUT_READY sets the flag; the three data kinds
      store their trimmed data; anything else is ignored. */
  function UpdateSnapshot(snap: BackendSnapshot, evt: BackendEvent): (r: BackendSnapshot)
    ensures StoresTrimmed(snap) ==> StoresTrimmed(r)
  {
    var raw := Text.Trim(evt.raw);
    Text.TrimIdempotent(evt.raw);
    if evt.kind == InputReady then snap.(inputReady := true)
    else if evt.kind == ScanProgress then snap.(scanProgressRaw := Some(raw))
    else if evt.kind == Registered then snap.(registeredRaw := Some(raw))
    else if evt.kind == SensApplied then snap.(sensAppliedRaw := Some(raw))
    else snap
  }

  /** The snapshot after a sequence of events, the last one latest. */
  function ApplyEvents(snap: BackendSnapshot, events: seq<BackendEvent>): BackendSnapshot
    decreases |events|
  {
    if events == [] then snap
    else UpdateSnapshot(ApplyEvents(snap, events[..|events| - 1]), events[|events| - 1])
  }

  /** The trimmed data of the last event of `kind`, if any. */
  function LastRawOf(events: seq<BackendEvent>, kind: string): Option<string>
    decreases |events|
  {
    if events == [] then None
    else if events[|events| - 1].kind == kind then Some(Text.Trim(events[|events| - 1].raw))
    else LastRawOf(events[..|events| - 1], kind)
  }

  predicate HasKind(events: seq<BackendEvent>, kind: string) {
    exists i :: 0 <= i < |events| && events[i].kind == kind
  }

  predicate DataKind(kind: string) {
    kind == ScanProgress || kind == Registered || kind == SensApplied
  }

  /** Last value wins: each stored datum is that of the latest event of its
      kind, or the starting one when there was none. */
  lemma {:induction false} LastValueWins(snap: BackendSnapshot, events: seq<BackendEvent>, kind: string)
    requires DataKind(kind)
    ensures Stored(ApplyEvents(snap, events), kind) ==
              if LastRawOf(events, kind).Some? then LastRawOf(events, kind) else Stored(snap, kind)
    decreases |events|
  {
    if events != [] {
      LastValueWins(snap, events[..|events| - 1], kind);
    }
  }

  /** The readiness flag, once set, stays set: it is set exactly when it
      was at the start or some event said INPUT_READY. */
  lemma {:induction false} ReadinessSticks(snap: BackendSnapshot, events: seq<BackendEvent>)
    ensures ApplyEvents(snap, events).inputReady <==> snap.inputReady || HasKind(events, InputReady)
    decreases |events|
  {
    if events != [] {
      ReadinessSticks(snap, events[..|events| - 1]);
      HasKindSnoc(events, InputReady);
    }
  }

  lemma HasKindSnoc(events: seq<BackendEvent>, kind: string)
    requires events != []
    ensures HasKind(events, kind) <==>
              HasKind(events[..|events| - 1], kind) || events[|events| - 1].kind == kind
  {
    var init := events[..|events| - 1];
    if HasKind(init, kind) {
      var i :| 0 <= i < |init| && init[i].kind == kind;
      assert events[i].kind == kind;
    }
    if HasKind(events, kind) && events[|events| - 1].kind != kind {
      var i :| 0 <= i < |events| && events[i].kind == kind;
      assert init[i].kind == kind;
    }
  }

  lemma ApplyOne(snap: BackendSnapshot, e: BackendEvent)
    ensures ApplyEvents(snap, [e]) == UpdateSnapshot(snap, e)
  {
    assert [e][..0] == [];
  }

  lemma {:induction false} ApplyEventsAppend(snap: BackendSnapshot, a: seq<BackendEvent>, b: seq<BackendEvent>)
    ensures ApplyEvents(snap, a + b) == ApplyEvents(ApplyEvents(snap, a), b)
    decreases |b|
  {
    if b == [] {
      assert a + b == a;
    } else {
      ApplyEventsAppend(snap, a, b[..|b| - 1]);
      assert (a + b)[..|a + b| - 1] == a + b[..|b| - 1];
    }
  }

  /** The replay position of each kind. */
  function Rank(kind: string): nat {
    if kind == InputReady then 0
    else if kind == ScanProgress then 1
    else if kind == SensApplied then 2
    else 3
  }

  /** `emit_snapshot`: one event per present field, in the order
      INPUT_READY, SCAN_PROGRESS, SENS_APPLIED, REGISTERED. */
  function EmitSnapshot(snap: BackendSnapshot): (r: seq<BackendEvent>)
    ensures forall i, j :: 0 <= i < j < |r| ==> Rank(r[i].kind) < Rank(r[j].kind)
  {
    (if snap.inputReady then [BackendEvent(InputReady, "")] else []) +
    (if snap.scanProgressRaw.Some? then [BackendEvent(ScanProgress, snap.scanProgressRaw.value)] else []) +
    (if snap.sensAppliedRaw.Some? then [BackendEvent(SensApplied, snap.sensAppliedRaw.value)] else []) +
    (if snap.registeredRaw.Some? then [BackendEvent(Registered, snap.registeredRaw.value)] else [])
  }

  /** A UI that starts from the default snapshot and applies the replayed
      events ends up with exactly the backend's snapshot. */
  lemma ReplayRestoresSnapshot(snap: BackendSnapshot)
    requires StoresTrimmed(snap)
    ensures ApplyEvents(DefaultSnapshot(), EmitSnapshot(snap)) == snap
  {
    ReplayOverwrites(DefaultSnapshot(), snap);
  }

  /** Replaying onto any view sets readiness if the snapshot has it and
      overwrites each datum the snapshot holds, leaving the others. */
  lemma ReplayOverwrites(start: BackendSnapshot, snap: BackendSnapshot)
    requires StoresTrimmed(snap)
    ensures ApplyEvents(start, EmitSnapshot(snap)) ==
              BackendSnapshot(
                start.inputReady || snap.inputReady,
                if snap.scanProgressRaw.Some? then snap.scanProgressRaw else start.scanProgressRaw,
                if snap.registeredRaw.Some? then snap.registeredRaw else start.registeredRaw,
                if snap.sensAppliedRaw.Some? then snap.sensAppliedRaw else start.sensAppliedRaw)
  {
    var p0: seq<BackendEvent> := if snap.inputReady then [BackendEvent(InputReady, "")] else [];
    var p1: seq<BackendEvent> := if snap.scanProgressRaw.Some? then [BackendEvent(ScanProgress, snap.scanProgressRaw.value)] else [];
    var p2: seq<BackendEvent> := if snap.sensAppliedRaw.Some? then [BackendEvent(SensApplied, snap.sensAppliedRaw.value)] else [];
    var p3: seq<BackendEvent> := if snap.registeredRaw.Some? then [BackendEvent(Registered, snap.registeredRaw.value)] else [];
    var s0 := ApplyEvents(start, p0);
    if p0 != [] { ApplyOne(start, p0[0]); }
    assert s0 == start.(inputReady := start.inputReady || snap.inputReady);
    ApplyEventsAppend(start, p0, p1);
    var s1 := ApplyEvents(s0, p1);
    if p1 != [] { ApplyOne(s0, p1[0]); }
    assert s1 == s0.(scanProgressRaw := if snap.scanProgressRaw.Some? then snap.scanProgressRaw else start.scanProgressRaw);
    ApplyEventsAppend(start, p0 + p1, p2);
    var s2 := ApplyEvents(s1, p2);
    if p2 != [] { ApplyOne(s1, p2[0]); }
    assert s2 == s1.(sensAppliedRaw := if snap.sensAppliedRaw.Some? then snap.sensAppliedRaw else start.sensAppliedRaw);
    ApplyEventsAppend(start, p0 + p1 + p2, p3);
    var s3 := ApplyEvents(s2, p3);
    if p3 != [] { ApplyOne(s2, p3[0]); }
    assert s3 == s2.(registeredRaw := if snap.registeredRaw.Some? then snap.registeredRaw else start.registeredRaw);
  }

  // ---------------------------------------------------------------------
  // The shared backend state
  // ---------------------------------------------------------------------

  /** What `try_wait` says of a spawned child. */
  datatype TryWait = Exited | StillRunning | WaitFailed

  /** `BackendState`: the child process and its stdin (as process
      handles), whether the UI is attached, and the snapshot. */
  datatype Shared = Shared(child: Option<int>, childStdin: Option<int>, attached: bool, snapshot: BackendSnapshot)

  function DefaultShared(): Shared {
    Shared(None, None, false, DefaultSnapshot())
  }

  /** One operation's outcome: the new state, the answer, the events sent to
      the UI and the lines written to the monitor. */
  datatype Outcome = Outcome(state: Shared, result: Result<(), string>, emitted: seq<BackendEvent>, written: seq<string>)

  /** A child and its stdin are stored and dropped together. */
  predicate Paired(b: Shared) {
    b.child.Some? <==> b.childStdin.Some?
  }

  /** `spawn_monitor`. A child that has not exited (or cannot be asked)
      means nothing is done; an exited one is dropped. Then the snapshot is
      reset, and `launch` is the child process the spawn yields, or the
      error of resolving the path, spawning or capturing its pipes. */
  function Spawn(b: Shared, wait: TryWait, launch: Result<int, string>): (o: Outcome)
    ensures o.emitted == [] && o.written == [] && o.state.attached == b.attached
    ensures b.child.Some? && wait != Exited ==> o.state == b && o.result == Ok(())
    ensures !(b.child.Some? && wait != Exited) ==>
              && o.state.snapshot == DefaultSnapshot()
              && (launch.Ok? ==> o.result == Ok(()) && o.state.child == Some(launch.value)
                                 && o.state.childStdin == Some(launch.value))
              && (launch.Err? ==> o.result == Err(launch.error) && o.state.child.None? && o.state.childStdin.None?)
  {
    if b.child.Some? && wait != Exited then Outcome(b, Ok(()), [], [])
    else
      var b1 := b.(child := None, childStdin := None, snapshot := DefaultSnapshot());
      match launch
      case Err(e) => Outcome(b1, Err(e), [], [])
      case Ok(p) => Outcome(b1.(child := Some(p), childStdin := Some(p)), Ok(()), [], [])
  }

  /** `handle_monitor_event`: every event updates the snapshot; it is
      forwarded to the UI only once the UI is attached. */
  function HandleEvent(b: Shared, evt: BackendEvent): (o: Outcome)
    ensures o.state == b.(snapshot := UpdateSnapshot(b.snapshot, evt)) && o.result == Ok(())
    ensures o.emitted == (if b.attached then [evt] else []) && o.written == []
  {
    Outcome(b.(snapshot := UpdateSnapshot(b.snapshot, evt)), Ok(()), if b.attached then [evt] else [], [])
  }

  /** The first half of `backend_init`: spawn if needed (its error is
      returned as is), then, under the lock, attach and take a copy of the
      snapshot to replay once the lock is released. */
  function Attach(b: Shared, wait: TryWait, launch: Result<int, string>): (r: (Outcome, BackendSnapshot))
    ensures r.0.result == Spawn(b, wait, launch).result && r.0.emitted == [] && r.0.written == []
    ensures r.0.result.Ok? ==> r.0.state == Spawn(b, wait, launch).state.(attached := true) && r.1 == r.0.state.snapshot
    ensures r.0.result.Err? ==> r.0.state == Spawn(b, wait, launch).state
  {
    var s := Spawn(b, wait, launch);
    if s.result.Err? then (s, s.state.snapshot)
    else
      var b1 := s.state.(attached := true);
      (Outcome(b1, Ok(()), [], []), b1.snapshot)
  }

  /** `backend_init` with nothing handled between attaching and replaying
      the copy: the two halves taken as one step. */
  function Init(b: Shared, wait: TryWait, launch: Result<int, string>): (o: Outcome) {
    var a := Attach(b, wait, launch);
    if a.0.result.Err? then a.0
    else a.0.(emitted := EmitSnapshot(a.1))
  }

  /** `send_cmd`: fails with "backend not running" without a stdin;
      `writeError` is the error writing the line would raise. */
  function SendCmd(b: Shared, line: string, writeError: Option<string>): (o: Outcome)
    ensures o.state == b && o.emitted == []
    ensures b.childStdin.None? ==> o.result == Err("backend not running") && o.written == []
    ensures b.childStdin.Some? ==> (o.result.Ok? <==> writeError.None?) && (o.result.Ok? ==> o.written == [line])
  {
    if b.childStdin.None? then Outcome(b, Err("backend not running"), [], [])
    else if writeError.Some? then Outcome(b, Err("failed to send command: " + writeError.value), [], [])
    else Outcome(b, Ok(()), [], [line])
  }

  /** `shutdown_monitor`: the child and stdin are taken out of the shared
      state; a present stdin is told to quit. */
  function Shutdown(b: Shared): (o: Outcome)
    ensures o.state == b.(child := None, childStdin := None) && o.result == Ok(()) && o.emitted == []
    ensures o.written == if b.childStdin.Some? then [QuitLine] else []
  {
    Outcome(b.(child := None, childStdin := None), Ok(()), [], if b.childStdin.Some? then [QuitLine] else [])
  }

  /** While a child is still running, spawning again changes nothing; once
      it has exited (or there was none), the snapshot is reset before the
      new child starts, and a failed spawn leaves no child. */
  lemma SpawnRule(b: Shared, wait: TryWait, launch: Result<int, string>)
    ensures b.child.Some? && wait == StillRunning ==> Spawn(b, wait, launch) == Outcome(b, Ok(()), [], [])
    ensures b.child.None? || wait == Exited ==>
              && Spawn(b, wait, launch).state.snapshot == DefaultSnapshot()
              && Paired(Spawn(b, wait, launch).state)
              && (Spawn(b, wait, launch).result.Ok? <==> launch.Ok?)
  {
  }

  /** Every operation keeps the child and its stdin paired. */
  lemma OperationsKeepPaired(b: Shared, wait: TryWait, launch: Result<int, string>, evt: BackendEvent,
                             line: string, writeError: Option<string>)
    requires Paired(b)
    ensures Paired(Spawn(b, wait, launch).state) && Paired(Init(b, wait, launch).state)
    ensures Paired(HandleEvent(b, evt).state) && Paired(SendCmd(b, line, writeError).state)
    ensures Paired(Shutdown(b).state)
  {
  }

  /** After shutdown no command reaches a monitor. */
  lemma NothingRunsAfterShutdown(b: Shared, line: string, writeError: Option<string>)
    ensures SendCmd(Shutdown(b).state, line, writeError).result == Err("backend not running")
  {
  }

  /** The UI is in step with the backend: replaying what it was sent since
      it attached gives the backend's snapshot. */
  predicate InSync(b: Shared, uiView: seq<BackendEvent>) {
    b.attached ==> ApplyEvents(DefaultSnapshot(), uiView) == b.snapshot
  }

  /** A successful `backend_init` puts the UI in step with the snapshot. */
  lemma InitSyncs(b: Shared, wait: TryWait, launch: Result<int, string>)
    requires StoresTrimmed(b.snapshot)
    ensures var o := Init(b, wait, launch);
            o.result.Ok? ==> o.state.attached && InSync(o.state, o.emitted)
  {
    var s := Spawn(b, wait, launch);
    if s.result.Ok? {
      ReplayRestoresSnapshot(s.state.snapshot);
    }
  }

  /** As written, the replay is sent after the lock is released, and the
      reader thread forwards events after releasing it too. An event handled
      between attaching and replaying reaches the UI before the older copy
      does, so the UI ends on the copied datum while the snapshot holds the
      new one. */
  lemma InitRaceLeavesStaleView(b: Shared, wait: TryWait, launch: Result<int, string>, evt: BackendEvent)
    requires StoresTrimmed(b.snapshot) && Attach(b, wait, launch).0.result.Ok?
    requires evt.kind == ScanProgress
    requires Attach(b, wait, launch).1.scanProgressRaw.Some?
    requires Attach(b, wait, launch).1.scanProgressRaw != Some(Text.Trim(evt.raw))
    ensures var a := Attach(b, wait, launch);
            var h := HandleEvent(a.0.state, evt);
            var uiView := h.emitted + EmitSnapshot(a.1);
            && h.state.snapshot.scanProgressRaw == Some(Text.Trim(evt.raw))
            && ApplyEvents(DefaultSnapshot(), uiView).scanProgressRaw == a.1.scanProgressRaw
            && !InSync(h.state, uiView)
  {
    var a := Attach(b, wait, launch);
    var h := HandleEvent(a.0.state, evt);
    ApplyEventsAppend(DefaultSnapshot(), [evt], EmitSnapshot(a.1));
    ApplyOne(DefaultSnapshot(), evt);
    ReplayOverwrites(UpdateSnapshot(DefaultSnapshot(), evt), a.1);
  }

  /** Forwarded events keep the UI in step with the snapshot. */
  lemma HandleKeepsSync(b: Shared, uiView: seq<BackendEvent>, evt: BackendEvent)
    requires InSync(b, uiView)
    ensures InSync(HandleEvent(b, evt).state, uiView + HandleEvent(b, evt).emitted)
  {
    if b.attached {
      assert (uiView + [evt])[..|uiView|] == uiView;
    }
  }

  // ---------------------------------------------------------------------
  // Commands
  // ---------------------------------------------------------------------

  /** The commands the UI sends; the sensitivity is carried as the text
      Rust's float formatting gives it. */
  datatype Command = Power(on: bool) | Feature(on: bool) | SetSensitivity(valueText: string) | FullReset | Quit

  const QuitLine: string := "QUIT"

  /** The line each command is written as. */
  function CommandLine(c: Command): (line: string)
    ensures c.SetSensitivity? ==> line == "SET_SENS " + c.valueText
    ensures !c.SetSensitivity? ==> line in {"POWER ON", "POWER OFF", "FEATURE ON", "FEATURE OFF", "RESET", QuitLine}
  {
    match c
    case Power(on) => if on then "POWER ON" else "POWER OFF"
    case Feature(on) => if on then "FEATURE ON" else "FEATURE OFF"
    case SetSensitivity(v) => "SET_SENS " + v
    case FullReset => "RESET"
    case Quit => QuitLine
  }

  /** Different commands are different lines, and a command is one line
      (the value text has no line break), so the monitor can tell them
      apart. */
  lemma CommandLinesDistinct(a: Command, b: Command)
    requires a.SetSensitivity? ==> '\n' !in a.valueText
    ensures CommandLine(a) == CommandLine(b) ==> a == b
    ensures '\n' !in CommandLine(a)
  {
    var la, lb := CommandLine(a), CommandLine(b);
    if la == lb {
      assert la[0] == lb[0];
      if a.SetSensitivity? && b.SetSensitivity? {
        assert a.valueText == la[9..] == lb[9..] == b.valueText;
      }
    }
    if a.SetSensitivity? {
      assert forall i :: 9 <= i < |la| ==> la[i] == a.valueText[i - 9];
    }
  }

  // ---------------------------------------------------------------------
  // The managed state
  // ---------------------------------------------------------------------

  /** The state shared behind the mutex; each method is one locked step. */
  class BackendState {
    var child: Option<int>
    var childStdin: Option<int>
    var attached: bool
    var snapshot: BackendSnapshot
    /** Events sent to the UI since it last attached. */
    ghost var uiView: seq<BackendEvent>
    /** Lines written to the monitor's stdin. */
    ghost var written: seq<string>

    function State(): Shared
      reads this
    {
      Shared(child, childStdin, attached, snapshot)
    }

    ghost predicate Valid()
      reads this
    {
      Paired(State()) && StoresTrimmed(snapshot)
    }

    /** The UI is in step with the snapshot. */
    ghost predicate Synced()
      reads this
    {
      InSync(State(), uiView)
    }

    /** `BackendState::default()`. */
    constructor ()
      ensures Valid() && Synced() && State() == DefaultShared() && uiView == [] && written == []
    {
      child, childStdin, attached := None, None, false;
      snapshot := DefaultSnapshot();
      uiView, written := [], [];
    }

    method SpawnMonitor(wait: TryWait, launch: Result<int, string>) returns (r: Result<(), string>)
      requires Valid()
      modifies this
      ensures Valid()
      ensures State() == Spawn(old(State()), wait, launch).state && r == Spawn(old(State()), wait, launch).result
      ensures written == old(written) && uiView == old(uiView)
    {
      if child.Some? {
        match wait
        case Exited =>
          child := None;
          childStdin := None;
        case StillRunning => return Ok(());
        case WaitFailed => return Ok(());
      }
      snapshot := DefaultSnapshot();
      if launch.Err? {
        return Err(launch.error);
      }
      childStdin := Some(launch.value);
      child := Some(launch.value);
      return Ok(());
    }

    method HandleMonitorEvent(evt: BackendEvent)
      requires Valid()
      modifies this
      ensures Valid() && (old(Synced()) ==> Synced())
      ensures State() == HandleEvent(old(State()), evt).state
      ensures uiView == old(uiView) + HandleEvent(old(State()), evt).emitted && written == old(written)
    {
      if Synced() {
        HandleKeepsSync(State(), uiView, evt);
      }
      snapshot := UpdateSnapshot(snapshot, evt);
      if attached {
        uiView := uiView + [evt];
      } else {
        assert uiView == old(uiView) + [];
      }
    }

    /** One line read from the monitor's stdout. */
    method OnMonitorLine(line: string)
      requires Valid()
      modifies this
      ensures Valid() && (old(Synced()) ==> Synced())
      ensures var e := ParseMonitorLine(line);
              e.None? ==> State() == old(State()) && uiView == old(uiView)
      ensures var e := ParseMonitorLine(line);
              e.Some? ==> State() == HandleEvent(old(State()), e.value).state
                          && uiView == old(uiView) + HandleEvent(old(State()), e.value).emitted
    {
      var evt := ParseMonitorLine(line);
      if evt.Some? {
        HandleMonitorEvent(evt.value);
      }
    }

    method BackendInit(wait: TryWait, launch: Result<int, string>) returns (r: Result<(), string>)
      requires Valid()
      modifies this
      ensures r == Init(old(State()), wait, launch).result && State() == Init(old(State()), wait, launch).state
      ensures Valid() && written == old(written)
      ensures r.Ok? ==> Synced() && uiView == Init(old(State()), wait, launch).emitted
      ensures r.Err? ==> uiView == old(uiView)
    {
      r := SpawnMonitor(wait, launch);
      if r.Err? {
        return;
      }
      var copy := AttachUi();
      EmitReplay(copy);
      InitSyncs(old(State()), wait, launch);
    }

    /** The locked part of `backend_init` after the spawn: attach and copy
        the snapshot. The UI's view starts over. */
    method AttachUi() returns (copy: BackendSnapshot)
      requires Valid()
      modifies this
      ensures Valid() && State() == old(State()).(attached := true) && copy == snapshot
      ensures uiView == [] && written == old(written)
    {
      attached := true;
      copy := snapshot;
      uiView := [];
    }

    /** `emit_snapshot`, run after the lock is released. */
    method EmitReplay(copy: BackendSnapshot)
      modifies this
      ensures State() == old(State()) && written == old(written)
      ensures uiView == old(uiView) + EmitSnapshot(copy)
    {
      uiView := uiView + EmitSnapshot(copy);
    }

    method SendCmdLine(line: string, writeError: Option<string>) returns (r: Result<(), string>)
      requires Valid()
      modifies this
      ensures Valid() && State() == old(State()) && uiView == old(uiView)
      ensures r == SendCmd(old(State()), line, writeError).result
      ensures written == old(written) + SendCmd(old(State()), line, writeError).written
    {
      if childStdin.None? {
        return Err("backend not running");
      }
      if writeError.Some? {
        return Err("failed to send command: " + writeError.value);
      }
      written := written + [line];
      return Ok(());
    }

    /** The `backend_*` commands. */
    method SendCommand(c: Command, writeError: Option<string>) returns (r: Result<(), string>)
      requires Valid()
      modifies this
      ensures Valid() && State() == old(State()) && uiView == old(uiView)
      ensures r == SendCmd(old(State()), CommandLine(c), writeError).result
      ensures written == old(written) + SendCmd(old(State()), CommandLine(c), writeError).written
    {
      r := SendCmdLine(CommandLine(c), writeError);
    }

    method ShutdownMonitor()
      requires Valid()
      modifies this
      ensures Valid() && (old(Synced()) ==> Synced())
      ensures State() == Shutdown(old(State())).state && uiView == old(uiView)
      ensures written == old(written) + Shutdown(old(State())).written
    {
      var stdin := childStdin;
      child, childStdin := None, None;
      if stdin.Some? {
        written := written + [QuitLine];
      } else {
        assert written == old(written) + [];
      }
    }
  }
}
