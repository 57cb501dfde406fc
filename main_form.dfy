/** The newer settings window: a device is bound to a side by clicking that
    side's confirm button with the mouse itself, and while "press on move"
    is on, motion of the left-hand mouse holds the left button down until
    the right-hand mouse moves. While it is held, the low-level hook
    swallows every physical (not injected) mouse event, from either mouse,
    and left-hand motion is replayed as injected relative moves. */
module MainForm {
  import opened Wrappers
  import opened Effects
  import Text
  import DeviceList
  import DS = DeviceSelection
  import MouseBlocker
  import SettingsService

  type Device = DeviceList.MultiHandleDevice

  // ---------------------------------------------------------------------
  // Device search and handle sets
  // ---------------------------------------------------------------------

  /** The least index whose device id equals `id` ignoring case, or -1. */
  function DeviceIndexById(devices: seq<Device>, id: string): (k: int)
    ensures -1 <= k < |devices|
    ensures k >= 0 ==> Text.EqualsIgnoreCase(devices[k].id, id)
    ensures forall j :: 0 <= j < |devices| && (k < 0 || j < k) ==> !Text.EqualsIgnoreCase(devices[j].id, id)
  {
    Text.IndexIgnoringCase(devices, (d: Device) => d.id, id)
  }

  function DeviceById(devices: seq<Device>, id: string): Option<Device> {
    var k := DeviceIndexById(devices, id);
    if k >= 0 then Some(devices[k]) else None
  }

  /** `FindDeviceById`: the first device whose id equals `id` ignoring
      case, or None. */
  method FindDeviceById(devices: seq<Device>, id: string) returns (d: Option<Device>)
    ensures d == DeviceById(devices, id)
    ensures d.Some? ==> d.value in devices && Text.EqualsIgnoreCase(d.value.id, id)
    ensures d.None? ==> forall k :: 0 <= k < |devices| ==> !Text.EqualsIgnoreCase(devices[k].id, id)
  {
    var i := 0;
    while i < |devices|
      invariant 0 <= i <= |devices|
      invariant DeviceIndexById(devices, id) < 0 || i <= DeviceIndexById(devices, id)
    {
      if Text.EqualsIgnoreCase(devices[i].id, id) {
        return Some(devices[i]);
      }
      i := i + 1;
    }
    return None;
  }

  /** The keys of a device's handles, as the hash set `UpdateHandleSets`
      builds; empty when no device was found. */
  function HandleSet(d: Option<Device>): (hs: set<int>)
    ensures d.None? ==> hs == {}
    ensures d.Some? ==> forall h :: h in hs <==> h in d.value.handles
  {
    if d.Some? then set h | h in d.value.handles else {}
  }

  // ---------------------------------------------------------------------
  // The window's state
  // ---------------------------------------------------------------------

  /** `autoPressPressed` and `blockRightInput`. */
  datatype Press = Press(pressed: bool, blocking: bool)

  /** The fields of the window that the handlers read and write, with the
      selection object's properties and the blocker's hook handle. */
  datatype FormState = FormState(
    sel: DS.Selection,
    devices: seq<Device>,
    handleMap: map<int, Device>,
    autoPressChecked: bool,
    press: Press,
    blockerStarted: bool,
    hookHandle: int,
    leftSet: set<int>,
    rightSet: set<int>,
    lastInputHandle: int,
    confirmClickHandle: int,
    confirmLeftEnabled: bool,
    confirmRightEnabled: bool,
    applyEnabled: bool)

  function InitialForm(): FormState {
    FormState(DS.Initial(), [], map[], false, Press(false, false), false, 0, {}, {}, 0, 0, false, false, false)
  }

  /** The two sides never hold the same device: when both ids are set they
      differ even ignoring case. */
  predicate DistinctSides(sel: DS.Selection) {
    sel.leftId == "" || sel.rightId == "" || !Text.EqualsIgnoreCase(sel.leftId, sel.rightId)
  }

  /** The window's invariant against the synthesized input: presses and
      releases alternate and `autoPressPressed` says which came last; the
      right-hand mouse is blocked exactly while the button is held; the
      blocker counts as started exactly while its hook is live; and the two
      sides hold different devices. */
  predicate Coherent(s: FormState, trace: seq<Effect>) {
    && ButtonState(trace) == Some(s.press.pressed)
    && s.press.blocking == s.press.pressed
    && (s.blockerStarted <==> s.hookHandle != 0)
    && DistinctSides(s.sel)
  }

  /** The parts of the state that only motion, the toggle and closing
      change: the press state and the blocker. */
  predicate SameMachine(a: FormState, b: FormState) {
    a.press == b.press && a.hookHandle == b.hookHandle && a.blockerStarted == b.blockerStarted
  }

  // ---------------------------------------------------------------------
  // Motion
  // ---------------------------------------------------------------------

  /** The outcome of the lock-protected part of the auto-press branch. */
  datatype PressOutcome = PressOutcome(press: Press, effects: seq<Effect>, leftHit: bool)

  /** Motion from a left-hand handle presses the button unless it is held
      and blocks the right-hand mouse; motion from a right-hand handle
      releases a held button and unblocks. A handle in both sets counts as
      left-hand; an empty set matches nothing. */
  function AutoPress(p: Press, leftSet: set<int>, rightSet: set<int>, key: int): (o: PressOutcome)
    ensures o.leftHit <==> key in leftSet
    ensures o.leftHit ==> o.press == Press(true, true) && o.effects == (if p.pressed then [] else [LeftDown])
    ensures !o.leftHit && key in rightSet && p.pressed ==> o.press == Press(false, false) && o.effects == [LeftUp]
    ensures !o.leftHit && !(key in rightSet && p.pressed) ==> o.press == p && o.effects == []
  {
    var leftMatches := |leftSet| > 0 && key in leftSet;
    var rightMatches := |rightSet| > 0 && key in rightSet;
    if leftMatches then PressOutcome(Press(true, true), if !p.pressed then [LeftDown] else [], true)
    else if rightMatches && p.pressed then PressOutcome(Press(false, false), [LeftUp], false)
    else PressOutcome(p, [], false)
  }

  /** Whether motion feeds the auto-press machine: the box is checked and
      both sides have a device. */
  predicate AutoPressActive(s: FormState) {
    s.autoPressChecked && DS.HasBothDevices(s.sel)
  }

  /** `OnDeviceMoved`. The handle is always remembered. While a side is
      being detected nothing else happens (the candidate label is refreshed
      later on the window's thread). Otherwise the auto-press machine runs,
      and a left-hand motion is replayed as a relative move when blocking is
      on, the blocker is running and the motion is not zero. */
  function OnMoved(s: FormState, handle: int, dx: int, dy: int): (FormState, seq<Effect>) {
    var s1 := s.(lastInputHandle := handle);
    if s1.sel.target != DS.None || !AutoPressActive(s1) then (s1, [])
    else PressOnMove(s1, handle, dx, dy)
  }

  /** The auto-press part of `OnDeviceMoved`. */
  function PressOnMove(s: FormState, handle: int, dx: int, dy: int): (FormState, seq<Effect>) {
    var o := AutoPress(s.press, s.leftSet, s.rightSet, handle);
    var move := if o.leftHit && o.press.blocking && s.blockerStarted && (dx != 0 || dy != 0)
                then [RelativeMove(dx, dy)] else [];
    (s.(press := o.press), o.effects + move)
  }

  // ---------------------------------------------------------------------
  // Toggle, close and the blocker
  // ---------------------------------------------------------------------

  /** Releasing a held button and unblocking, then stopping the blocker:
      the "off" branch of the toggle, and (with `Dispose`, which stops) the
      close handler. */
  function StopAutoPress(s: FormState): (FormState, seq<Effect>) {
    (s.(press := Press(false, false), hookHandle := MouseBlocker.StopStep(s.hookHandle).0, blockerStarted := false),
     if s.press.pressed then [LeftUp] else [])
  }

  /** `StartMouseBlockerIfNeeded`: the new state and whether blocking is
      available. */
  function StartBlockerIfNeeded(s: FormState, setHookResult: int): (FormState, bool) {
    if s.blockerStarted then (s, true)
    else
      var st := MouseBlocker.StartStep(s.hookHandle, setHookResult);
      (s.(hookHandle := st.0, blockerStarted := st.1), st.1)
  }

  /** `UpdateHandleSets`: the handles of the devices whose ids match the
      selected ids, ignoring case. */
  function RefreshHandleSets(s: FormState): FormState {
    s.(leftSet := HandleSet(DeviceById(s.devices, s.sel.leftId)),
       rightSet := HandleSet(DeviceById(s.devices, s.sel.rightId)))
  }

  /** What follows every change of the selection or of the device list:
      the apply button follows `HasBothDevices`, and the handle sets are
      rebuilt while the box is checked. */
  function SelectionChanged(s: FormState): (r: FormState)
    ensures SameMachine(s, r) && r.sel == s.sel && r.devices == s.devices && r.handleMap == s.handleMap
    ensures r.confirmClickHandle == s.confirmClickHandle
    ensures r.applyEnabled == DS.HasBothDevices(s.sel)
  {
    var s1 := s.(applyEnabled := DS.HasBothDevices(s.sel));
    if s1.autoPressChecked then RefreshHandleSets(s1) else s1
  }

  /** `ToggleAutoPress`, run when the box changes to `checked`. Checking it
      without both devices unchecks it again, which runs the handler once
      more for the unchecked box. */
  function Toggle(s: FormState, checked: bool, setHookResult: int): (FormState, seq<Effect>) {
    if !checked then StopAutoPress(s.(autoPressChecked := false))
    else if !DS.HasBothDevices(s.sel) then StopAutoPress(s.(autoPressChecked := false))
    else (StartBlockerIfNeeded(RefreshHandleSets(s.(autoPressChecked := true)), setHookResult).0, [])
  }

  // ---------------------------------------------------------------------
  // Device list, detection and confirmation
  // ---------------------------------------------------------------------

  /** `ReloadDevices`: `enumeration` is the device list, or None when
      enumerating failed (the old list and lookup are kept). */
  function Reload(s: FormState, enumeration: Option<seq<Device>>): (r: FormState)
    ensures SameMachine(s, r) && r.sel == s.sel && r.confirmClickHandle == s.confirmClickHandle
    ensures enumeration.None? ==> r.handleMap == s.handleMap
  {
    var s1 := if enumeration.Some?
              then s.(devices := enumeration.value, handleMap := SettingsService.HandleLookup(enumeration.value))
              else s;
    SelectionChanged(s1)
  }

  /** `BeginDetection`: reload, start detecting `target`, forget its
      device, and arm only that side's confirm button. */
  function BeginRound(s: FormState, target: DS.DetectionTarget, enumeration: Option<seq<Device>>): (r: FormState)
    ensures SameMachine(s, r) && r.sel == DS.Clear(DS.Begin(s.sel, target), target)
  {
    var s1 := Reload(s, enumeration);
    var s2 := SelectionChanged(s1.(sel := DS.Clear(DS.Begin(s1.sel, target), target)));
    s2.(confirmClickHandle := 0,
        confirmRightEnabled := target == DS.Right,
        confirmLeftEnabled := target == DS.Left)
  }

  /** `ConfirmButton_MouseDown`: the mouse that pressed the button is the
      one that produced the latest raw input. */
  function ConfirmMouseDown(s: FormState): FormState {
    s.(confirmClickHandle := s.lastInputHandle)
  }

  /** The WM_INPUT branch of the window procedure: every mouse input the
      window can read, a click without motion as well as motion, records
      its device. `read` is the device handle, or None when reading the
      input fails. */
  function OnWindowInput(s: FormState, read: Option<int>): FormState {
    if read.Some? then s.(lastInputHandle := read.value) else s
  }

  function Lookup(s: FormState, handle: int): Option<Device> {
    if handle in s.handleMap then Some(s.handleMap[handle]) else None
  }

  /** The side that is not `side`. */
  function Other(side: DS.DetectionTarget): DS.DetectionTarget {
    match side
    case Left => DS.Right
    case Right => DS.Left
    case None => DS.None
  }

  /** The side other than `side` holds the device `id`. */
  predicate OtherHolds(sel: DS.Selection, side: DS.DetectionTarget, id: string) {
    || (side == DS.Left && sel.rightId != "" && Text.EqualsIgnoreCase(sel.rightId, id))
    || (side == DS.Right && sel.leftId != "" && Text.EqualsIgnoreCase(sel.leftId, id))
  }

  /** The selection after the side other than `side` drops the device
      `id`, when it holds it. */
  function DropDuplicate(sel: DS.Selection, side: DS.DetectionTarget, id: string): DS.Selection {
    if OtherHolds(sel, side, id) then DS.Clear(sel, Other(side)) else sel
  }

  /** The other side forgets the device `id` when it holds it, with the
      refresh that follows. */
  function DropDuplicateIn(s: FormState, side: DS.DetectionTarget, id: string): (r: FormState)
    ensures SameMachine(s, r) && r.sel == DropDuplicate(s.sel, side, id)
  {
    if OtherHolds(s.sel, side, id) then SelectionChanged(s.(sel := DS.Clear(s.sel, Other(side)))) else s
  }

  /** The name shown for a device: its id when the name is blank. */
  function DisplayName(d: Device): (name: string)
    ensures Text.IsBlank(d.name) ==> name == d.id
    ensures !Text.IsBlank(d.name) ==> name == d.name
  {
    if Text.IsBlank(d.name) then d.id else d.name
  }

  /** The selection after binding `id` (shown as `name`) to `side`. */
  function Bind(sel: DS.Selection, side: DS.DetectionTarget, id: string, name: string): DS.Selection {
    DS.Apply(DropDuplicate(sel, side, id), Some(id), Some(name)).1
  }

  /** Binding to the side being detected ends the round, puts the device on
      that side, and leaves the other side with its device or, when that
      was the same device, with none; so the sides stay distinct. */
  lemma BindRule(sel: DS.Selection, side: DS.DetectionTarget, id: string, name: string)
    requires side != DS.None && sel.target == side
    ensures var r := Bind(sel, side, id, name);
            var mine := if side == DS.Left then r.leftId else r.rightId;
            var other := if side == DS.Left then r.rightId else r.leftId;
            var otherBefore := if side == DS.Left then sel.rightId else sel.leftId;
            && r.target == DS.None
            && mine == id
            && (other == otherBefore || other == "")
            && (other == "" || !Text.EqualsIgnoreCase(other, id))
            && DistinctSides(r)
  {
    var r := Bind(sel, side, id, name);
    Text.EqualsIgnoreCaseEquivalence(r.leftId, r.rightId, id);
    Text.EqualsIgnoreCaseEquivalence(r.rightId, r.leftId, id);
  }

  /** The bookkeeping around binding a found device: the selection events
      refresh the apply button and handle sets, and both confirm buttons
      are disarmed. An unbound `side` (no round running) binds nothing. */
  function ConfirmDevice(s: FormState, side: DS.DetectionTarget, d: Device): (r: FormState)
    ensures SameMachine(s, r)
    ensures r.sel == if s.sel.target == DS.None then DropDuplicate(s.sel, side, d.id) else Bind(s.sel, side, d.id, DisplayName(d))
    ensures !r.confirmLeftEnabled && !r.confirmRightEnabled && r.confirmClickHandle == 0
  {
    Disarm(ApplyFound(DropDuplicateIn(s, side, d.id), d))
  }

  /** The detection result is applied, with the refresh that follows when
      it was accepted. */
  function ApplyFound(s: FormState, d: Device): (r: FormState)
    ensures SameMachine(s, r) && r.sel == DS.Apply(s.sel, Some(d.id), Some(DisplayName(d))).1
  {
    var a := DS.Apply(s.sel, Some(d.id), Some(DisplayName(d)));
    if a.0 then SelectionChanged(s.(sel := a.1)) else s
  }

  /** Both confirm buttons are disabled and the captured mouse forgotten. */
  function Disarm(s: FormState): FormState {
    s.(confirmRightEnabled := false, confirmLeftEnabled := false, confirmClickHandle := 0)
  }

  /** `ConfirmSelection(side)`. Refused unless `side` is being detected;
      with no captured mouse the list is reloaded and nothing else happens;
      an unknown handle triggers a reload and a second lookup. A known
      device is bound to `side` (named by its id when its name is blank)
      after the other side drops it, and the confirm buttons are disarmed. */
  function Confirm(s: FormState, side: DS.DetectionTarget, enumeration: Option<seq<Device>>): (r: FormState)
    ensures SameMachine(s, r)
  {
    if s.sel.target != side then s
    else if s.confirmClickHandle == 0 then Reload(s, enumeration)
    else
      var s1 := if Lookup(s, s.confirmClickHandle).Some? then s else Reload(s, enumeration);
      var device := Lookup(s1, s1.confirmClickHandle);
      if device.None? then s1
      else ConfirmDevice(s1, side, device.value)
  }

  // ---------------------------------------------------------------------
  // Every handler, and runs of them
  // ---------------------------------------------------------------------

  /** The events the window reacts to, with what the platform supplies:
      the device enumeration for reloads and the hook handle the system
      would hand out. */
  datatype FormEvent =
    | DeviceMoved(handle: int, dx: int, dy: int)
    | AutoPressToggled(checked: bool, setHookResult: int)
    | Closed
    | DetectClicked(target: DS.DetectionTarget, enumeration: Option<seq<Device>>)
    | WindowInput(read: Option<int>)
    | ConfirmPressed
    | ConfirmClicked(side: DS.DetectionTarget, enumeration: Option<seq<Device>>)
    | DevicesChanged(enumeration: Option<seq<Device>>)

  function Step(s: FormState, e: FormEvent): (FormState, seq<Effect>) {
    match e
    case DeviceMoved(h, dx, dy) => OnMoved(s, h, dx, dy)
    case AutoPressToggled(checked, res) => Toggle(s, checked, res)
    case Closed => StopAutoPress(s)
    case DetectClicked(t, en) => (BeginRound(s, t, en), [])
    case WindowInput(read) => (OnWindowInput(s, read), [])
    case ConfirmPressed => (ConfirmMouseDown(s), [])
    case ConfirmClicked(side, en) => (Confirm(s, side, en), [])
    case DevicesChanged(en) => (Reload(s, en), [])
  }

  function Run(s: FormState, events: seq<FormEvent>): (FormState, seq<Effect>)
    decreases |events|
  {
    if events == [] then (s, [])
    else
      var first := Step(s, events[0]);
      var rest := Run(first.0, events[1..]);
      (rest.0, first.1 + rest.1)
  }

  // ---------------------------------------------------------------------
  // Properties
  // ---------------------------------------------------------------------

  /** Appending at most a press, a release and a move to a coherent trace,
      in the way the handlers do, keeps the button state in step. */
  lemma PressEffects(trace: seq<Effect>, held: bool, e: seq<Effect>, now: bool)
    requires ButtonState(trace) == Some(held)
    requires (!held && now && (e == [LeftDown] || (|e| == 2 && e[0] == LeftDown && e[1].RelativeMove?)))
          || (held && !now && e == [LeftUp])
          || (held == now && (e == [] || (|e| == 1 && e[0].RelativeMove?)))
    ensures ButtonState(trace + e) == Some(now)
  {
    if e != [] {
      ButtonStateAppend(trace, e);
      if |e| == 2 {
        ButtonStateAppend(trace, e[..1]);
        assert e[..1][..0] == [];
        assert e[..1] == [LeftDown];
      } else {
        assert e[..0] == [];
      }
      assert trace + [] == trace;
    }
  }

  lemma OnMovedKeepsCoherent(s: FormState, trace: seq<Effect>, handle: int, dx: int, dy: int)
    requires Coherent(s, trace)
    ensures Coherent(OnMoved(s, handle, dx, dy).0, trace + OnMoved(s, handle, dx, dy).1)
  {
    var r := OnMoved(s, handle, dx, dy);
    PressEffects(trace, s.press.pressed, r.1, r.0.press.pressed);
  }

  lemma StopAutoPressKeepsCoherent(s: FormState, trace: seq<Effect>)
    requires Coherent(s, trace)
    ensures Coherent(StopAutoPress(s).0, trace + StopAutoPress(s).1)
  {
    PressEffects(trace, s.press.pressed, StopAutoPress(s).1, false);
  }

  lemma SelectionChangedKeepsCoherent(s: FormState, trace: seq<Effect>)
    requires Coherent(s, trace)
    ensures Coherent(SelectionChanged(s), trace)
    ensures Coherent(Reload(s, None), trace)
  {
  }

  /** Forgetting a side's device never makes the sides equal. */
  lemma ClearKeepsDistinct(sel: DS.Selection, target: DS.DetectionTarget)
    requires DistinctSides(sel)
    ensures DistinctSides(DS.Clear(sel, target))
  {
  }

  /** Confirming keeps the sides apart: the other side drops the device
      before it is bound. */
  lemma ConfirmKeepsCoherent(s: FormState, trace: seq<Effect>, side: DS.DetectionTarget, enumeration: Option<seq<Device>>)
    requires Coherent(s, trace)
    ensures Coherent(Confirm(s, side, enumeration), trace)
  {
    if s.sel.target == side && s.confirmClickHandle != 0 {
      var s1 := if Lookup(s, s.confirmClickHandle).Some? then s else Reload(s, enumeration);
      assert s1.sel == s.sel;
      var device := Lookup(s1, s1.confirmClickHandle);
      if device.Some? {
        var d := device.value;
        if side == DS.None {
          ClearKeepsDistinct(s.sel, Other(side));
        } else {
          BindRule(s.sel, side, d.id, DisplayName(d));
        }
      }
    }
  }

  lemma ToggleKeepsCoherent(s: FormState, trace: seq<Effect>, checked: bool, setHookResult: int)
    requires Coherent(s, trace)
    ensures Coherent(Toggle(s, checked, setHookResult).0, trace + Toggle(s, checked, setHookResult).1)
  {
    if !checked || !DS.HasBothDevices(s.sel) {
      StopAutoPressKeepsCoherent(s.(autoPressChecked := false), trace);
    } else {
      assert trace + [] == trace;
    }
  }

  /** Every handler keeps the window coherent with what it synthesized. */
  lemma StepKeepsCoherent(s: FormState, trace: seq<Effect>, e: FormEvent)
    requires Coherent(s, trace)
    ensures Coherent(Step(s, e).0, trace + Step(s, e).1)
  {
    assert trace + [] == trace;
    match e
    case DeviceMoved(h, dx, dy) => OnMovedKeepsCoherent(s, trace, h, dx, dy);
    case AutoPressToggled(checked, res) => ToggleKeepsCoherent(s, trace, checked, res);
    case Closed => StopAutoPressKeepsCoherent(s, trace);
    case DetectClicked(t, en) => ClearKeepsDistinct(DS.Begin(s.sel, t), t);
    case WindowInput(read) =>
    case ConfirmPressed =>
    case ConfirmClicked(side, en) => ConfirmKeepsCoherent(s, trace, side, en);
    case DevicesChanged(en) =>
  }

  /** Whatever the user and the devices do, the synthesized presses and
      releases alternate, starting with a press, the window knows whether
      the button is held, the right-hand mouse is blocked exactly while it
      is, and the sides never share a device. */
  lemma {:induction false} RunKeepsCoherent(s: FormState, trace: seq<Effect>, events: seq<FormEvent>)
    requires Coherent(s, trace)
    ensures Coherent(Run(s, events).0, trace + Run(s, events).1)
    decreases |events|
  {
    if events == [] {
      assert trace + [] == trace;
    } else {
      var first := Step(s, events[0]);
      StepKeepsCoherent(s, trace, events[0]);
      RunKeepsCoherent(first.0, trace + first.1, events[1..]);
      var rest := Run(first.0, events[1..]);
      assert trace + first.1 + rest.1 == trace + (first.1 + rest.1);
    }
  }

  /** From the opening window, the button is held at the end of any run
      exactly when one more press than release was synthesized. */
  lemma RunFromStartBalances(events: seq<FormEvent>)
    ensures var r := Run(InitialForm(), events);
            && ButtonState(r.1).Some?
            && (r.0.press.pressed ==> Presses(r.1) == Releases(r.1) + 1)
            && (!r.0.press.pressed ==> Presses(r.1) == Releases(r.1))
  {
    RunKeepsCoherent(InitialForm(), [], events);
    var r := Run(InitialForm(), events);
    assert [] + r.1 == r.1;
    AlternationCounts(r.1);
  }

  /** While a side is being detected, motion only records the handle. */
  lemma DetectionModeIsInert(s: FormState, handle: int, dx: int, dy: int)
    requires s.sel.target != DS.None
    ensures OnMoved(s, handle, dx, dy) == (s.(lastInputHandle := handle), [])
  {
  }

  /** Without the box checked or without both devices, motion synthesizes
      nothing and changes no press state. */
  lemma AutoPressNeedsToggleAndBoth(s: FormState, handle: int, dx: int, dy: int)
    requires !s.autoPressChecked || !DS.HasBothDevices(s.sel)
    ensures OnMoved(s, handle, dx, dy) == (s.(lastInputHandle := handle), [])
  {
  }

  /** Left-hand motion in auto-press mode: the button is pressed unless it
      already is, blocking is set, and the motion is replayed exactly when
      the blocker runs and the motion is not zero. This holds also for a
      handle in both sets. */
  lemma LeftHitRule(s: FormState, handle: int, dx: int, dy: int)
    requires s.sel.target == DS.None && AutoPressActive(s) && handle in s.leftSet
    ensures var r := OnMoved(s, handle, dx, dy);
            && r.0.press == Press(true, true)
            && r.1 == (if s.press.pressed then [] else [LeftDown]) +
                      (if s.blockerStarted && (dx != 0 || dy != 0) then [RelativeMove(dx, dy)] else [])
  {
  }

  /** Right-hand motion in auto-press mode (from a handle not in the left
      set) releases a held button and unblocks, and is never replayed. */
  lemma RightHitRule(s: FormState, handle: int, dx: int, dy: int)
    requires s.sel.target == DS.None && AutoPressActive(s) && handle !in s.leftSet && handle in s.rightSet
    ensures var r := OnMoved(s, handle, dx, dy);
            && r.0.press == (if s.press.pressed then Press(false, false) else s.press)
            && r.1 == (if s.press.pressed then [LeftUp] else [])
  {
  }

  /** A relative move is replayed only for a left-hand hit with blocking
      set, the blocker running and a nonzero motion. */
  lemma MoveReplayRule(s: FormState, handle: int, dx: int, dy: int)
    ensures var r := OnMoved(s, handle, dx, dy);
            RelativeMove(dx, dy) in r.1 <==>
              && s.sel.target == DS.None && AutoPressActive(s) && handle in s.leftSet
              && s.blockerStarted && (dx != 0 || dy != 0)
  {
    var r := OnMoved(s, handle, dx, dy);
    if s.sel.target == DS.None && AutoPressActive(s) && handle in s.leftSet {
      if !s.press.pressed {
        assert r.1[0] == LeftDown;
      }
    }
  }

  /** Turning the box off and closing the window both release a held button
      exactly once, unblock, and remove the hook. */
  lemma StopRule(s: FormState, setHookResult: int)
    ensures var r := Toggle(s, false, setHookResult);
            && r == StopAutoPress(s.(autoPressChecked := false))
            && r.0.press == Press(false, false) && !r.0.blockerStarted && r.0.hookHandle == 0
            && r.1 == (if s.press.pressed then [LeftUp] else [])
    ensures var r := Step(s, Closed);
            && r.0.press == Press(false, false) && !r.0.blockerStarted && r.0.hookHandle == 0
            && r.1 == (if s.press.pressed then [LeftUp] else [])
  {
  }

  /** Checking the box without both devices leaves it unchecked and the
      button released; with both, the handle sets are rebuilt and the
      blocker is running if the hook could be installed. */
  lemma ToggleOnRule(s: FormState, setHookResult: int)
    requires Coherent(s, [])
    ensures var r := Toggle(s, true, setHookResult);
            && (!DS.HasBothDevices(s.sel) ==> !r.0.autoPressChecked && !r.0.press.pressed && r.0.hookHandle == 0)
            && (DS.HasBothDevices(s.sel) ==>
                  && r.0.autoPressChecked && r.1 == []
                  && r.0.leftSet == HandleSet(DeviceById(s.devices, s.sel.leftId))
                  && r.0.rightSet == HandleSet(DeviceById(s.devices, s.sel.rightId))
                  && (r.0.blockerStarted <==> s.blockerStarted || setHookResult != 0))
  {
  }

  /** `BeginDetection(t)`: `t` is being detected, its device is forgotten,
      the other side keeps its device, and only `t`'s confirm button is
      armed, with no mouse captured yet. */
  lemma BeginDetectionRule(s: FormState, target: DS.DetectionTarget, enumeration: Option<seq<Device>>)
    requires target != DS.None
    ensures var r := BeginRound(s, target, enumeration);
            && r.sel.target == target
            && (target == DS.Left ==> r.sel.leftId == "" && r.sel.rightId == s.sel.rightId)
            && (target == DS.Right ==> r.sel.rightId == "" && r.sel.leftId == s.sel.leftId)
            && r.confirmLeftEnabled == (target == DS.Left)
            && r.confirmRightEnabled == (target == DS.Right)
            && r.confirmClickHandle == 0
            && r.press == s.press
  {
  }

  /** Confirming a side that is not being detected changes nothing. */
  lemma ConfirmRefusedRule(s: FormState, side: DS.DetectionTarget, enumeration: Option<seq<Device>>)
    requires s.sel.target != side
    ensures Confirm(s, side, enumeration) == s
  {
  }

  /** Confirming with a captured mouse whose handle is known binds that
      device to the side being detected, ends detection, clears the other
      side if it held the same device, and disarms both buttons. */
  lemma ConfirmSuccessRule(s: FormState, side: DS.DetectionTarget, enumeration: Option<seq<Device>>)
    requires side != DS.None && s.sel.target == side
    requires s.confirmClickHandle != 0 && s.confirmClickHandle in s.handleMap
    ensures var d := s.handleMap[s.confirmClickHandle];
            var r := Confirm(s, side, enumeration);
            var mine := if side == DS.Left then r.sel.leftId else r.sel.rightId;
            var other := if side == DS.Left then r.sel.rightId else r.sel.leftId;
            var otherBefore := if side == DS.Left then s.sel.rightId else s.sel.leftId;
            && r.sel.target == DS.None
            && mine == d.id
            && (other == otherBefore || other == "")
            && (other == "" || !Text.EqualsIgnoreCase(other, d.id))
            && !r.confirmLeftEnabled && !r.confirmRightEnabled && r.confirmClickHandle == 0
  {
    var d := s.handleMap[s.confirmClickHandle];
    assert Lookup(s, s.confirmClickHandle) == Some(d);
    BindRule(s.sel, side, d.id, DisplayName(d));
  }

  /** The sides never share a device, so applying the selection maps both
      mice: the right-hand one to the first profile and the left-hand one to
      the left profile. */
  lemma DistinctSidesMapBothDevices(sel: DS.Selection, c: SettingsService.Config, leftMultiplier: real, errors: string)
    requires DistinctSides(sel) && |c.profiles| == |c.accels|
    ensures var a := SettingsService.ApplyConfig(c, sel.rightId, sel.rightName, sel.leftId, sel.leftName,
                                                 leftMultiplier, errors);
            var r := a.1;
            a.0.Ok? ==>
              && SettingsService.DeviceIndexOf(r.devices, sel.rightId) >= 0
              && r.devices[SettingsService.DeviceIndexOf(r.devices, sel.rightId)].profile == c.profiles[0].name
              && SettingsService.DeviceIndexOf(r.devices, sel.leftId) >= 0
              && r.devices[SettingsService.DeviceIndexOf(r.devices, sel.leftId)].profile
                   == SettingsService.BuildLeftProfileName(c.profiles[0].name)
  {
    var a := SettingsService.ApplyConfig(c, sel.rightId, sel.rightName, sel.leftId, sel.leftName, leftMultiplier, errors);
    if a.0.Ok? {
      assert sel.leftId != "" && sel.rightId != "";
      Text.EqualsIgnoreCaseEquivalence(sel.leftId, sel.leftId, sel.leftId);
      SettingsService.ApplyMapsBothDevices(c, sel.rightId, sel.rightName, sel.leftId, sel.leftName, leftMultiplier, errors);
    }
  }

  /** `n` inputs the window cannot read. */
  function UnreadInputs(n: nat): (r: seq<FormEvent>)
    ensures |r| == n && forall i :: 0 <= i < n ==> r[i] == WindowInput(None)
  {
    seq(n, _ => WindowInput(None))
  }

  /** Inputs the window cannot read change nothing. */
  lemma {:induction false} UnreadInputsChangeNothing(s: FormState, n: nat, tail: seq<FormEvent>)
    ensures Run(s, UnreadInputs(n) + tail) == Run(s, tail)
    decreases n
  {
    if n > 0 {
      var u := UnreadInputs(n) + tail;
      assert u[0] == WindowInput(None);
      assert u[1..] == UnreadInputs(n - 1) + tail;
      assert Step(s, u[0]) == (s, []);
      UnreadInputsChangeNothing(s, n - 1, tail);
      var rest := Run(s, u[1..]);
      assert [] + rest.1 == rest.1;
    } else {
      assert UnreadInputs(n) + tail == tail;
    }
  }

  /** A press of the confirm button is credited to the mouse that produced
      the latest input the window could read, a click without motion
      included, and nothing else changes. */
  lemma ConfirmCreditsLatestInput(s: FormState, h: int, unread: nat)
    ensures Run(s, [WindowInput(Some(h))] + UnreadInputs(unread) + [ConfirmPressed])
              == (s.(lastInputHandle := h, confirmClickHandle := h), [])
  {
    var evs := [WindowInput(Some(h))] + UnreadInputs(unread) + [ConfirmPressed];
    assert evs[1..] == UnreadInputs(unread) + [ConfirmPressed];
    UnreadInputsChangeNothing(OnWindowInput(s, Some(h)), unread, [ConfirmPressed]);
  }

  /** While the window is coherent, the hook swallows a physical event
      (non-negative code, not injected) exactly while the left button is
      held by the auto-press. */
  lemma SuppressionFollowsPress(s: FormState, trace: seq<Effect>, nCode: int, flags: bv32)
    requires Coherent(s, trace)
    ensures MouseBlocker.Decide(nCode, flags, MouseBlocker.ShouldBlock(MouseBlocker.AskCaller, s.press.blocking))
              == MouseBlocker.Swallow
            <==> nCode >= 0 && flags & MouseBlocker.LlmhfInjected == 0 && s.press.pressed
  {
  }

  // ---------------------------------------------------------------------
  // The window
  // ---------------------------------------------------------------------

  /** The window object. Labels, message boxes and the status line are not
      modelled; `trace` records the input the window synthesizes. */
  class MainForm {
    const selection: DS.DeviceSelectionState
    const mouseBlocker: MouseBlocker.LowLevelMouseBlocker
    var devices: seq<Device>
    var handleMap: map<int, Device>
    var autoPressChecked: bool
    var autoPressPressed: bool
    var blockRightInput: bool
    var mouseBlockerStarted: bool
    var leftHandleSet: set<int>
    var rightHandleSet: set<int>
    var lastInputDeviceHandle: int
    var confirmClickDeviceHandle: int
    var confirmLeftEnabled: bool
    var confirmRightEnabled: bool
    var applyEnabled: bool
    /** Presses, releases and moves sent so far. */
    ghost var trace: seq<Effect>

    function State(): FormState
      reads this, selection, mouseBlocker
    {
      FormState(selection.State(), devices, handleMap, autoPressChecked,
                Press(autoPressPressed, blockRightInput), mouseBlockerStarted, mouseBlocker.hookHandle,
                leftHandleSet, rightHandleSet, lastInputDeviceHandle, confirmClickDeviceHandle,
                confirmLeftEnabled, confirmRightEnabled, applyEnabled)
    }

    /** The blocker asks the window (`() => blockRightInput`). */
    ghost predicate Valid()
      reads this, selection, mouseBlocker
    {
      && Coherent(State(), trace)
      && mouseBlocker.Valid()
      && mouseBlocker.policy == MouseBlocker.AskCaller
    }

    constructor ()
      ensures Valid() && State() == InitialForm() && trace == []
      ensures fresh(selection) && fresh(mouseBlocker)
    {
      mouseBlocker := new MouseBlocker.LowLevelMouseBlocker(true);
      selection := new DS.DeviceSelectionState();
      devices, handleMap := [], map[];
      autoPressChecked, autoPressPressed, blockRightInput, mouseBlockerStarted := false, false, false, false;
      leftHandleSet, rightHandleSet := {}, {};
      lastInputDeviceHandle, confirmClickDeviceHandle := 0, 0;
      confirmLeftEnabled, confirmRightEnabled, applyEnabled := false, false, false;
      trace := [];
    }

    /** The blocker's hook procedure as this window configures it. */
    method BlockerCallback(nCode: int, flags: bv32) returns (r: MouseBlocker.HookResult)
      requires Valid()
      ensures r == MouseBlocker.Swallow <==> nCode >= 0 && flags & MouseBlocker.LlmhfInjected == 0 && autoPressPressed
    {
      r := mouseBlocker.HookCallback(nCode, flags, blockRightInput);
      SuppressionFollowsPress(State(), trace, nCode, flags);
    }

    method UpdateHandleSets()
      modifies this
      ensures State() == RefreshHandleSets(old(State())) && trace == old(trace)
    {
      var left := FindDeviceById(devices, selection.leftDeviceId);
      var right := FindDeviceById(devices, selection.rightDeviceId);
      leftHandleSet := HandleSet(left);
      rightHandleSet := HandleSet(right);
    }

    /** Labels, the apply button and, while the box is checked, the handle
        sets, as each handler refreshes them after the selection changes. */
    method RefreshAfterSelection()
      modifies this
      ensures State() == SelectionChanged(old(State())) && trace == old(trace)
    {
      applyEnabled := selection.HasBoth();
      if autoPressChecked {
        UpdateHandleSets();
      }
    }

    /** `enumeration` is what `EnumerateDevices` returns, or None when it
        throws. */
    method ReloadDevices(enumeration: Option<seq<Device>>)
      modifies this
      ensures State() == Reload(old(State()), enumeration) && trace == old(trace)
    {
      if enumeration.Some? {
        devices := enumeration.value;
        handleMap := SettingsService.BuildHandleLookup(devices);
      }
      RefreshAfterSelection();
    }

    method OnDeviceMoved(deviceHandle: int, deltaX: int, deltaY: int)
      requires Valid()
      modifies this
      ensures Valid()
      ensures State() == OnMoved(old(State()), deviceHandle, deltaX, deltaY).0
      ensures trace == old(trace) + OnMoved(old(State()), deviceHandle, deltaX, deltaY).1
    {
      ghost var r := OnMoved(State(), deviceHandle, deltaX, deltaY);
      OnMovedKeepsCoherent(State(), trace, deviceHandle, deltaX, deltaY);
      lastInputDeviceHandle := deviceHandle;
      if selection.currentTarget == DS.None && autoPressChecked && selection.HasBoth() {
        PressOnMoveIn(deviceHandle, deltaX, deltaY);
      } else {
        assert trace == old(trace) + [];
      }
      assert State() == r.0 && trace == old(trace) + r.1;
    }

    /** `OnDeviceMoved` in auto-press mode. */
    method PressOnMoveIn(deviceHandle: int, deltaX: int, deltaY: int)
      modifies this
      ensures State() == PressOnMove(old(State()), deviceHandle, deltaX, deltaY).0
      ensures trace == old(trace) + PressOnMove(old(State()), deviceHandle, deltaX, deltaY).1
    {
      var leftHit := AutoPressLocked(deviceHandle);
      ghost var pressed := trace;
      if leftHit && blockRightInput && mouseBlockerStarted && (deltaX != 0 || deltaY != 0) {
        trace := trace + [RelativeMove(deltaX, deltaY)];
      } else {
        assert trace == pressed + [];
      }
    }

    /** The block run under the auto-press lock for a motion in auto-press
        mode; `leftHit` tells whether the motion came from the left-hand
        mouse. */
    method AutoPressLocked(key: int) returns (leftHit: bool)
      modifies this
      ensures var o := AutoPress(old(State()).press, leftHandleSet, rightHandleSet, key);
              && State() == old(State()).(press := o.press)
              && trace == old(trace) + o.effects
              && leftHit == o.leftHit
    {
      leftHit := false;
      var leftMatches := |leftHandleSet| > 0 && key in leftHandleSet;
      var rightMatches := |rightHandleSet| > 0 && key in rightHandleSet;
      if leftMatches {
        if !autoPressPressed {
          trace := trace + [LeftDown];
          autoPressPressed := true;
        } else {
          assert trace == old(trace) + [];
        }
        blockRightInput := true;
        leftHit := true;
      } else if rightMatches && autoPressPressed {
        trace := trace + [LeftUp];
        autoPressPressed := false;
        blockRightInput := false;
      } else {
        assert trace == old(trace) + [];
      }
    }

    method StartMouseBlockerIfNeeded(setHookResult: int) returns (ok: bool)
      requires Valid()
      modifies this, mouseBlocker
      ensures Valid()
      ensures (State(), ok) == StartBlockerIfNeeded(old(State()), setHookResult) && trace == old(trace)
    {
      if mouseBlockerStarted {
        return true;
      }
      ok := mouseBlocker.Start(setHookResult);
      if ok {
        mouseBlockerStarted := true;
      }
    }

    /** The block run under the auto-press lock when the box is unchecked
        or the window closes: release a held button and stop blocking. */
    method ReleaseLocked()
      modifies this
      ensures State() == old(State()).(press := Press(false, false))
      ensures trace == old(trace) + if old(autoPressPressed) then [LeftUp] else []
    {
      if autoPressPressed {
        trace := trace + [LeftUp];
        autoPressPressed := false;
      } else {
        assert trace == old(trace) + [];
      }
      blockRightInput := false;
    }

    /** The off branch of `ToggleAutoPress`, which also runs when the box
        is unchecked by the handler itself. */
    method ReleaseAndStopBlocker()
      requires Valid()
      modifies this, mouseBlocker
      ensures Valid()
      ensures State() == StopAutoPress(old(State())).0
      ensures trace == old(trace) + StopAutoPress(old(State())).1
    {
      StopAutoPressKeepsCoherent(State(), trace);
      ReleaseLocked();
      mouseBlocker.Stop();
      mouseBlockerStarted := false;
    }

    /** The box changed to `checked`; `setHookResult` is the handle the
        system would give a new hook. Unchecking the box from inside the
        handler raises the change event again, which runs the handler for
        the unchecked box before this call returns. */
    method ToggleAutoPress(checked: bool, setHookResult: int)
      requires Valid()
      modifies this, mouseBlocker
      ensures Valid()
      ensures State() == Toggle(old(State()), checked, setHookResult).0
      ensures trace == old(trace) + Toggle(old(State()), checked, setHookResult).1
      decreases if checked then 1 else 0
    {
      autoPressChecked := checked;
      if autoPressChecked {
        if !selection.HasBoth() {
          autoPressChecked := false;
          ToggleAutoPress(false, setHookResult);
          return;
        }
        UpdateHandleSets();
        var ok := StartMouseBlockerIfNeeded(setHookResult);
        assert trace == old(trace) + [];
      } else {
        ReleaseAndStopBlocker();
      }
    }

    method OnFormClosed()
      requires Valid()
      modifies this, mouseBlocker
      ensures Valid()
      ensures State() == StopAutoPress(old(State())).0
      ensures trace == old(trace) + StopAutoPress(old(State())).1
    {
      StopAutoPressKeepsCoherent(State(), trace);
      ReleaseLocked();
      mouseBlocker.Dispose();
      mouseBlockerStarted := false;
    }

    method BeginDetection(target: DS.DetectionTarget, enumeration: Option<seq<Device>>)
      requires Valid()
      modifies this, selection
      ensures Valid()
      ensures State() == BeginRound(old(State()), target, enumeration) && trace == old(trace)
    {
      ClearKeepsDistinct(DS.Begin(State().sel, target), target);
      ReloadDevices(enumeration);
      StartRound(target);
    }

    /** `BeginDetection` after the reload. */
    method StartRound(target: DS.DetectionTarget)
      modifies this, selection
      ensures var s1 := SelectionChanged(old(State()).(sel := DS.Clear(DS.Begin(old(State()).sel, target), target)));
              State() == s1.(confirmClickHandle := 0,
                             confirmRightEnabled := target == DS.Right,
                             confirmLeftEnabled := target == DS.Left)
      ensures trace == old(trace)
    {
      selection.BeginDetection(target);
      selection.ClearTarget(target);
      RefreshAfterSelection();
      confirmClickDeviceHandle := 0;
      confirmRightEnabled := target == DS.Right;
      confirmLeftEnabled := target == DS.Left;
    }

    /** The WM_INPUT branch of the window procedure. */
    method WindowRawInput(read: Option<int>)
      requires Valid()
      modifies this
      ensures Valid()
      ensures State() == OnWindowInput(old(State()), read) && trace == old(trace)
    {
      if read.Some? {
        lastInputDeviceHandle := read.value;
      }
    }

    method ConfirmButtonMouseDown()
      requires Valid()
      modifies this
      ensures Valid()
      ensures State() == ConfirmMouseDown(old(State())) && trace == old(trace)
    {
      confirmClickDeviceHandle := lastInputDeviceHandle;
    }

    method ConfirmSelection(side: DS.DetectionTarget, enumeration: Option<seq<Device>>)
      requires Valid()
      modifies this, selection
      ensures Valid()
      ensures State() == Confirm(old(State()), side, enumeration) && trace == old(trace)
    {
      ghost var r := Confirm(State(), side, enumeration);
      ConfirmKeepsCoherent(State(), trace, side, enumeration);
      if selection.currentTarget == side {
        if confirmClickDeviceHandle == 0 {
          ReloadDevices(enumeration);
        } else {
          var device := FindConfirmedDevice(enumeration);
          if device.Some? {
            ConfirmFound(side, device.value);
          }
        }
      }
      assert State() == r;
    }

    /** The lookup of the captured handle, retried once after a reload. */
    method FindConfirmedDevice(enumeration: Option<seq<Device>>) returns (device: Option<Device>)
      modifies this
      ensures State() == (if Lookup(old(State()), old(confirmClickDeviceHandle)).Some? then old(State())
                          else Reload(old(State()), enumeration))
      ensures device == Lookup(State(), confirmClickDeviceHandle) && trace == old(trace)
    {
      device := if confirmClickDeviceHandle in handleMap then Some(handleMap[confirmClickDeviceHandle]) else None;
      if device.None? {
        ReloadDevices(enumeration);
        device := if confirmClickDeviceHandle in handleMap then Some(handleMap[confirmClickDeviceHandle]) else None;
      }
    }

    /** The part of `ConfirmSelection` after the device is found. */
    method ConfirmFound(side: DS.DetectionTarget, d: Device)
      modifies this, selection
      ensures State() == ConfirmDevice(old(State()), side, d) && trace == old(trace)
    {
      DropDuplicateOf(side, d.id);
      ApplyFoundDevice(d);
      confirmRightEnabled := false;
      confirmLeftEnabled := false;
      confirmClickDeviceHandle := 0;
    }

    method ApplyFoundDevice(d: Device)
      modifies this, selection
      ensures State() == ApplyFound(old(State()), d) && trace == old(trace)
    {
      var name := if Text.IsBlank(d.name) then d.id else d.name;
      var applied := selection.ApplyDetectionResult(Some(d.id), Some(name));
      if applied {
        RefreshAfterSelection();
      }
    }

    /** The other side forgets the device `id` when it holds it. */
    method DropDuplicateOf(side: DS.DetectionTarget, id: string)
      modifies this, selection
      ensures State() == DropDuplicateIn(old(State()), side, id) && trace == old(trace)
    {
      if side == DS.Left && selection.rightDeviceId != "" && Text.EqualsIgnoreCase(selection.rightDeviceId, id) {
        selection.ClearTarget(DS.Right);
        RefreshAfterSelection();
      } else if side == DS.Right && selection.leftDeviceId != "" && Text.EqualsIgnoreCase(selection.leftDeviceId, id) {
        selection.ClearTarget(DS.Left);
        RefreshAfterSelection();
      }
    }
  }
}
