/** The single-device auto-click monitor: raw mouse input is watched on a
    message thread, the left button is pressed on the first motion while the
    feature is on, and the polling loop releases it once the mouse has been
    idle for more than the stop threshold. Caps Lock switches the feature,
    'q' quits. */
module MouseMonitor {
  import opened Wrappers
  import opened Effects

  /** Idle time, in milliseconds, after which the held button is released. */
  const StopThresholdMs: int := 150

  /** A `DWORD` tick count from GetTickCount. */
  type Dword = x: int | 0 <= x < 0x1_0000_0000

  /** Unsigned 32-bit subtraction, which wraps around. */
  function DwordSub(a: Dword, b: Dword): Dword {
    (a - b) % 0x1_0000_0000
  }

  // ---------------------------------------------------------------------
  // Decoding of the raw deltas carried in ulExtraInformation
  // ---------------------------------------------------------------------

  /** Pre-acceleration deltas: the two C `short` halves of the payload, kept
      as their 16-bit patterns (the handler only tests them against zero,
      which does not depend on the sign). */
  datatype RawDelta = RawDelta(x: bv16, y: bv16)

  /** Low half is X, high half is Y. */
  function DecodeExtraInfo(extraInfo: bv32): RawDelta
  {
    RawDelta((extraInfo & 0xFFFF) as bv16, ((extraInfo >> 16) & 0xFFFF) as bv16)
  }

  /** `(u16)y << 16 | (u16)x`, the packing the decoder undoes. */
  function PackExtraInfo(d: RawDelta): bv32
  {
    ((d.y as bv32) << 16) | (d.x as bv32)
  }

  /** Decoding is a bijection between 32-bit payloads and pairs of halves. */
  lemma DecodeThenPack(extraInfo: bv32)
    ensures PackExtraInfo(DecodeExtraInfo(extraInfo)) == extraInfo
  {
  }

  lemma PackThenDecode(d: RawDelta)
    ensures DecodeExtraInfo(PackExtraInfo(d)) == d
  {
  }

  /** A payload is nonzero exactly when one of its decoded halves is, so the
      `extraInfo != 0` test in the validity check adds nothing. */
  lemma NonzeroPayloadIffNonzeroDelta(extraInfo: bv32)
    ensures extraInfo != 0 <==> (DecodeExtraInfo(extraInfo).x != 0 || DecodeExtraInfo(extraInfo).y != 0)
  {
  }

  // ---------------------------------------------------------------------
  // The globals and the two handlers that update them
  // ---------------------------------------------------------------------

  /** One WM_INPUT delivery, as far as GetRawInputData lets the handler see it. */
  datatype RawInput =
    | MouseInput(absolute: bool, lastX: int, lastY: int, extraInfo: bv32)
    | OtherDeviceInput
    | ReadFailed

  /** The process-wide variables; `lastCapsState` is the loop's local copy of
      the Caps Lock toggle, kept across iterations. */
  datatype MonitorState = MonitorState(
    running: bool,
    featureEnabled: bool,
    isMouseDown: bool,
    lastMoveTime: Dword,
    moveCount: int,
    lastRawX: bv16,
    lastRawY: bv16,
    extraInfoValid: bool,
    lastCapsState: bool)

  /** The state when the polling loop starts; the feature starts off even when
      Caps Lock is already on. */
  function Initial(capsOn: bool): MonitorState {
    MonitorState(true, false, false, 0, 0, 0, 0, false, capsOn)
  }

  /** The monitor's safety invariant against the trace of synthesized input:
      presses and releases alternate, the button is only flagged down while
      the feature is on, a held button is always flagged, and while the loop
      runs the flag is exactly what the trace leaves held. After quit the
      flag may be stale, since quitting releases without clearing it. */
  predicate Consistent(s: MonitorState, trace: seq<Effect>) {
    && (s.isMouseDown ==> s.featureEnabled)
    && ButtonState(trace).Some?
    && (s.running ==> ButtonState(trace).value == s.isMouseDown)
    && (ButtonState(trace).value ==> s.isMouseDown)
  }

  /** Whether a relative event counts as motion: the raw deltas once the
      latch is set, the accelerated deltas before. */
  function HasMoved(extraInfoValid: bool, input: RawInput): bool
    requires input.MouseInput?
  {
    var d := DecodeExtraInfo(input.extraInfo);
    if extraInfoValid then d.x != 0 || d.y != 0 else input.lastX != 0 || input.lastY != 0
  }

  /** The validity check on the payload: a nonzero payload with a nonzero
      decoded delta sets the latch and records the raw delta. */
  function Latch(s: MonitorState, extraInfo: bv32): MonitorState {
    var d := DecodeExtraInfo(extraInfo);
    if extraInfo != 0 && (d.x != 0 || d.y != 0)
    then s.(extraInfoValid := true, lastRawX := d.x, lastRawY := d.y)
    else s
  }

  /** A counted motion: bump the counter, stamp the time, and press the
      button when the feature is on and it is not already down. */
  function Motion(s: MonitorState, now: Dword): (MonitorState, seq<Effect>) {
    var s1 := s.(moveCount := s.moveCount + 1, lastMoveTime := now);
    if s1.featureEnabled && !s1.isMouseDown then (s1.(isMouseDown := true), [LeftDown])
    else (s1, [])
  }

  /** The WM_INPUT branch of the window procedure. It does not look at
      `running`: the message thread tests that flag only between messages,
      so a message it was already waiting for is still handled after quit. */
  function OnInput(s: MonitorState, input: RawInput, now: Dword): (MonitorState, seq<Effect>) {
    if !input.MouseInput? || input.absolute then (s, [])
    else
      var s1 := Latch(s, input.extraInfo);
      if HasMoved(s1.extraInfoValid, input) then Motion(s1, now) else (s1, [])
  }

  function IsQuitKey(key: Option<char>): bool {
    key == Some('q') || key == Some('Q')
  }

  /** The Caps Lock edge check: on a change the feature follows the toggle,
      and switching it off clears the down flag. */
  function CapsEdge(s: MonitorState, capsOn: bool): MonitorState {
    if capsOn == s.lastCapsState then s
    else if capsOn then s.(lastCapsState := true, featureEnabled := true)
    else s.(lastCapsState := false, featureEnabled := false, isMouseDown := false)
  }

  /** The release the Caps Lock edge check synthesizes, if any. */
  function CapsEdgeEffects(s: MonitorState, capsOn: bool): seq<Effect> {
    if capsOn != s.lastCapsState && !capsOn && s.isMouseDown then [LeftUp] else []
  }

  /** The idle-release condition: the unsigned 32-bit difference of tick
      counts, which wraps, strictly above the threshold. */
  predicate IdleExpired(s: MonitorState, now: Dword) {
    s.featureEnabled && s.isMouseDown && DwordSub(now, s.lastMoveTime) > StopThresholdMs
  }

  /** One iteration of the polling loop in `main`: quit key, Caps Lock edge,
      then the idle-release check. `key` is the character `_getch` returns
      when `_kbhit` reports one, `capsOn` the Caps Lock toggle, `now` the
      tick count. */
  function Tick(s: MonitorState, key: Option<char>, capsOn: bool, now: Dword): (MonitorState, seq<Effect>)
    requires s.running
  {
    if IsQuitKey(key) then
      (s.(running := false), if s.isMouseDown then [LeftUp] else [])
    else
      var s1 := CapsEdge(s, capsOn);
      if IdleExpired(s1, now) then (s1.(isMouseDown := false), CapsEdgeEffects(s, capsOn) + [LeftUp])
      else (s1, CapsEdgeEffects(s, capsOn))
  }

  // ---------------------------------------------------------------------
  // Properties of the two handlers
  // ---------------------------------------------------------------------

  /** Both handlers keep the invariant. */
  lemma {:induction false} OnInputKeepsConsistent(s: MonitorState, trace: seq<Effect>, input: RawInput, now: Dword)
    requires Consistent(s, trace)
    ensures Consistent(OnInput(s, input, now).0, trace + OnInput(s, input, now).1)
  {
    var e := OnInput(s, input, now).1;
    ButtonStateAppend(trace, e);
    if e != [] {
      assert e[..0] == [];
      assert trace + [] == trace;
    }
  }

  lemma TickKeepsConsistent(s: MonitorState, trace: seq<Effect>, key: Option<char>, capsOn: bool, now: Dword)
    requires s.running && Consistent(s, trace)
    ensures Consistent(Tick(s, key, capsOn, now).0, trace + Tick(s, key, capsOn, now).1)
  {
    if IsQuitKey(key) {
      if s.isMouseDown {
        ButtonStateSnoc(trace, LeftUp);
      } else {
        assert trace + [] == trace;
      }
    } else {
      var s1, e1 := CapsEdge(s, capsOn), CapsEdgeEffects(s, capsOn);
      CapsEdgeKeepsConsistent(s, trace, capsOn);
      if IdleExpired(s1, now) {
        ButtonStateSnoc(trace + e1, LeftUp);
        assert trace + (e1 + [LeftUp]) == (trace + e1) + [LeftUp];
      }
    }
  }

  /** The Caps Lock edge check keeps the invariant on its own. */
  lemma CapsEdgeKeepsConsistent(s: MonitorState, trace: seq<Effect>, capsOn: bool)
    requires s.running && Consistent(s, trace)
    ensures CapsEdge(s, capsOn).running
    ensures Consistent(CapsEdge(s, capsOn), trace + CapsEdgeEffects(s, capsOn))
  {
    if CapsEdgeEffects(s, capsOn) == [] {
      assert trace + [] == trace;
    } else {
      ButtonStateSnoc(trace, LeftUp);
    }
  }

  /** An absolute-position event changes nothing and synthesizes nothing. */
  lemma AbsoluteIgnored(s: MonitorState, input: RawInput, now: Dword)
    requires input.MouseInput? && input.absolute
    ensures OnInput(s, input, now) == (s, [])
  {
  }

  /** The validity latch is set only by a nonzero payload on a relative
      event, and once set it is never cleared. */
  lemma {:induction false} LatchOneWay(s: MonitorState, input: RawInput, now: Dword, key: Option<char>, capsOn: bool)
    ensures var s' := OnInput(s, input, now).0;
            s'.extraInfoValid ==
              (s.extraInfoValid ||
               (input.MouseInput? && !input.absolute && input.extraInfo != 0))
    ensures s.running ==> Tick(s, key, capsOn, now).0.extraInfoValid == s.extraInfoValid
  {
    if input.MouseInput? {
      NonzeroPayloadIffNonzeroDelta(input.extraInfo);
    }
  }

  /** A counted motion bumps the counter and stamps the time; anything else
      leaves both alone. */
  lemma MotionBookkeeping(s: MonitorState, input: RawInput, now: Dword)
    ensures var s' := OnInput(s, input, now).0;
            var moved := input.MouseInput? && !input.absolute
                         && HasMoved(s'.extraInfoValid, input);
            && (moved ==> s'.moveCount == s.moveCount + 1 && s'.lastMoveTime == now)
            && (!moved ==> s'.moveCount == s.moveCount && s'.lastMoveTime == s.lastMoveTime)
  {
  }

  /** A motion presses only when the feature is on and the button is up; it
      never releases and never touches the feature flag. */
  lemma MotionPressRule(s: MonitorState, input: RawInput, now: Dword)
    ensures var r := OnInput(s, input, now);
            var s', e := r.0, r.1;
            && (e == [LeftDown] || e == [])
            && (e == [LeftDown] <==> s.featureEnabled && !s.isMouseDown && s'.moveCount != s.moveCount)
            && s'.featureEnabled == s.featureEnabled
            && (s.isMouseDown ==> s'.isMouseDown)
  {
  }

  /** Replays a sequence of raw inputs with their arrival ticks. */
  function RunInputs(s: MonitorState, inputs: seq<(RawInput, Dword)>): (MonitorState, seq<Effect>)
    decreases |inputs|
  {
    if inputs == [] then (s, [])
    else
      var first := OnInput(s, inputs[0].0, inputs[0].1);
      var rest := RunInputs(first.0, inputs[1..]);
      (rest.0, first.1 + rest.1)
  }

  /** However many motion events arrive with no loop iteration in between,
      the button is pressed at most once and never released: exactly once
      when it ends up down having started up. */
  lemma {:induction false} InputsPressAtMostOnce(s: MonitorState, inputs: seq<(RawInput, Dword)>)
    ensures var r := RunInputs(s, inputs);
            var s', e := r.0, r.1;
            && Releases(e) == 0
            && Presses(e) == (if s'.isMouseDown && !s.isMouseDown then 1 else 0)
            && s'.featureEnabled == s.featureEnabled
            && (s.isMouseDown ==> s'.isMouseDown)
    decreases |inputs|
  {
    if inputs != [] {
      var first := OnInput(s, inputs[0].0, inputs[0].1);
      var rest := RunInputs(first.0, inputs[1..]);
      MotionPressRule(s, inputs[0].0, inputs[0].1);
      InputsPressAtMostOnce(first.0, inputs[1..]);
      CountsAppend(first.1, rest.1);
      assert [LeftDown][..0] == [];
    }
  }

  /** The idle check releases exactly when the feature is on, the button is
      down and the wrapping 32-bit difference of tick counts exceeds the
      threshold (no quit key, no Caps Lock edge). */
  lemma IdleReleaseRule(s: MonitorState, key: Option<char>, now: Dword)
    requires s.running && !IsQuitKey(key)
    ensures var r := Tick(s, key, s.lastCapsState, now);
            && r.1 == (if IdleExpired(s, now) then [LeftUp] else [])
            && r.0.isMouseDown == (s.isMouseDown && !IdleExpired(s, now))
            && r.0 == s.(isMouseDown := r.0.isMouseDown)
  {
  }

  /** Examples of the wrapping difference: a motion 16 ticks before the
      counter wrapped and a tick 16 ticks after it is 32 ms of idleness, not
      a release; 256 ticks either side of the wrap is 512 ms, a release. */
  lemma WrappedTickExamples(s: MonitorState)
    requires s.running && s.featureEnabled && s.isMouseDown
    ensures s.lastMoveTime == 0xFFFF_FFF0 ==> Tick(s, None, s.lastCapsState, 0x10).0.isMouseDown
    ensures s.lastMoveTime == 0xFFFF_FF00 ==> !Tick(s, None, s.lastCapsState, 0x100).0.isMouseDown
  {
  }

  /** Caps Lock going off disables the feature and releases a held button;
      going on enables it and synthesizes nothing. */
  lemma CapsToggleRule(s: MonitorState, key: Option<char>, capsOn: bool, now: Dword)
    requires s.running && !IsQuitKey(key) && capsOn != s.lastCapsState
    ensures var r := Tick(s, key, capsOn, now);
            var s', e := r.0, r.1;
            && s'.featureEnabled == capsOn && s'.lastCapsState == capsOn
            && (!capsOn ==> !s'.isMouseDown && e == (if s.isMouseDown then [LeftUp] else []))
            && (capsOn ==> Releases(e) <= 1 && Presses(e) == 0)
  {
  }

  /** The quit key releases a held button and stops the loop, nothing else. */
  lemma QuitRule(s: MonitorState, capsOn: bool, now: Dword)
    requires s.running
    ensures var r := Tick(s, Some('q'), capsOn, now);
            var s', e := r.0, r.1;
            && !s'.running
            && e == (if s.isMouseDown then [LeftUp] else [])
            && s' == s.(running := false)
  {
  }

  // ---------------------------------------------------------------------
  // Input handled after quit
  // ---------------------------------------------------------------------

  /** A run the code allows: Caps Lock goes on, 'q' quits with the button
      up, and the motion the message thread was already waiting for then
      presses the button. The polling loop has stopped, so nothing releases
      it: no input that follows synthesizes a release either. */
  lemma {:induction false} PressAfterQuitStaysHeld(later: seq<(RawInput, Dword)>)
    ensures var t1 := Tick(Initial(false), None, true, 0);
            var t2 := Tick(t1.0, Some('q'), true, 1);
            var t3 := OnInput(t2.0, MouseInput(false, 1, 0, 0), 2);
            var t4 := RunInputs(t3.0, later);
            && !t3.0.running
            && ButtonState(t1.1 + t2.1 + t3.1) == Some(true)
            && Releases(t4.1) == 0
  {
    var t1 := Tick(Initial(false), None, true, 0);
    var t2 := Tick(t1.0, Some('q'), true, 1);
    var t3 := OnInput(t2.0, MouseInput(false, 1, 0, 0), 2);
    assert t1.1 + t2.1 + t3.1 == [LeftDown];
    assert ButtonState([LeftDown]) == Some(true) by {
      ButtonStateSnoc([], LeftDown);
    }
    InputsPressAtMostOnce(t3.0, later);
  }

  /** The window procedure as evidently intended: input that arrives once
      the loop has stopped is dropped. */
  function OnInputWhileRunning(s: MonitorState, input: RawInput, now: Dword): (MonitorState, seq<Effect>) {
    if s.running then OnInput(s, input, now) else (s, [])
  }

  /** Nothing is left held once the loop has stopped. */
  predicate ReleasedAfterQuit(s: MonitorState, trace: seq<Effect>) {
    !s.running ==> ButtonState(trace) == Some(false)
  }

  /** With input dropped after quit, the handler keeps the invariant and
      leaves the button released once the loop has stopped. */
  lemma {:induction false} GuardedInputKeepsReleased(s: MonitorState, trace: seq<Effect>, input: RawInput, now: Dword)
    requires Consistent(s, trace) && ReleasedAfterQuit(s, trace)
    ensures var r := OnInputWhileRunning(s, input, now);
            Consistent(r.0, trace + r.1) && ReleasedAfterQuit(r.0, trace + r.1)
  {
    if s.running {
      OnInputKeepsConsistent(s, trace, input, now);
    } else {
      assert trace + [] == trace;
    }
  }

  /** A polling-loop iteration that stops the loop leaves nothing held. */
  lemma {:induction false} TickKeepsReleased(s: MonitorState, trace: seq<Effect>, key: Option<char>, capsOn: bool, now: Dword)
    requires s.running && Consistent(s, trace)
    ensures var r := Tick(s, key, capsOn, now);
            Consistent(r.0, trace + r.1) && ReleasedAfterQuit(r.0, trace + r.1)
  {
    TickKeepsConsistent(s, trace, key, capsOn, now);
    if IsQuitKey(key) && s.isMouseDown {
      ButtonStateSnoc(trace, LeftUp);
    }
  }

  // ---------------------------------------------------------------------
  // The imperative monitor
  // ---------------------------------------------------------------------

  class Monitor {
    var running: bool
    var featureEnabled: bool
    var isMouseDown: bool
    var lastMoveTime: Dword
    var moveCount: int
    var lastRawX: bv16
    var lastRawY: bv16
    var extraInfoValid: bool
    var lastCapsState: bool
    /** Every SendInput call made so far. */
    ghost var trace: seq<Effect>

    function State(): MonitorState
      reads this
    {
      MonitorState(running, featureEnabled, isMouseDown, lastMoveTime, moveCount,
                   lastRawX, lastRawY, extraInfoValid, lastCapsState)
    }

    ghost predicate Valid()
      reads this
    {
      Consistent(State(), trace)
    }

    /** Globals at start-up, with the Caps Lock state read before the loop. */
    constructor (capsOn: bool)
      ensures Valid() && State() == Initial(capsOn) && trace == []
    {
      running, featureEnabled, isMouseDown := true, false, false;
      lastMoveTime, moveCount, lastRawX, lastRawY := 0, 0, 0, 0;
      extraInfoValid, lastCapsState := false, capsOn;
      trace := [];
    }

    /** The WM_INPUT branch of the window procedure. */
    method HandleRawInput(input: RawInput, now: Dword)
      requires Valid()
      modifies this
      ensures Valid()
      ensures State() == OnInput(old(State()), input, now).0
      ensures trace == old(trace) + OnInput(old(State()), input, now).1
    {
      if input.MouseInput? && !input.absolute {
        var accelX, accelY := input.lastX, input.lastY;
        var raw := DecodeExtraInfo(input.extraInfo);
        LatchPayload(input.extraInfo);
        var hasMoved;
        if extraInfoValid {
          hasMoved := raw.x != 0 || raw.y != 0;
        } else {
          hasMoved := accelX != 0 || accelY != 0;
        }
        if hasMoved {
          CountMotion(now);
        }
      }
      OnInputKeepsConsistent(old(State()), old(trace), input, now);
    }

    /** The validity check on the payload. */
    method LatchPayload(extraInfo: bv32)
      modifies this
      ensures State() == Latch(old(State()), extraInfo) && trace == old(trace)
    {
      var raw := DecodeExtraInfo(extraInfo);
      if extraInfo != 0 && (raw.x != 0 || raw.y != 0) {
        extraInfoValid := true;
        lastRawX, lastRawY := raw.x, raw.y;
      }
    }

    /** The bookkeeping and the press of a counted motion. */
    method CountMotion(now: Dword)
      modifies this
      ensures State() == Motion(old(State()), now).0
      ensures trace == old(trace) + Motion(old(State()), now).1
    {
      moveCount := moveCount + 1;
      lastMoveTime := now;
      if featureEnabled && !isMouseDown {
        trace := trace + [LeftDown];
        isMouseDown := true;
      }
    }

    /** One iteration of the polling loop in `main`. */
    method LoopIteration(key: Option<char>, capsOn: bool, now: Dword)
      requires Valid() && running
      modifies this
      ensures Valid()
      ensures State() == Tick(old(State()), key, capsOn, now).0
      ensures trace == old(trace) + Tick(old(State()), key, capsOn, now).1
    {
      if key == Some('q') || key == Some('Q') {
        if isMouseDown {
          trace := trace + [LeftUp];
        }
        running := false;
      } else {
        CheckCapsLock(capsOn);
        if featureEnabled && isMouseDown {
          var currentTime := now;
          if DwordSub(currentTime, lastMoveTime) > StopThresholdMs {
            trace := trace + [LeftUp];
            isMouseDown := false;
          }
        }

      }
      assert State() == Tick(old(State()), key, capsOn, now).0;
      assert trace == old(trace) + Tick(old(State()), key, capsOn, now).1;
      TickKeepsConsistent(old(State()), old(trace), key, capsOn, now);
    }

    /** The Caps Lock edge check of the polling loop. */
    method CheckCapsLock(capsOn: bool)
      modifies this
      ensures State() == CapsEdge(old(State()), capsOn)
      ensures trace == old(trace) + CapsEdgeEffects(old(State()), capsOn)
    {
      if capsOn != lastCapsState {
        lastCapsState := capsOn;
        featureEnabled := capsOn;
        if !featureEnabled {
          if isMouseDown {
            trace := trace + [LeftUp];
            isMouseDown := false;
          }
        }
      }
    }
  }
}
