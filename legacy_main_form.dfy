/** The earlier settings window: a side is detected by moving its mouse,
    and "press on move" presses the left button on left-hand motion and
    releases it on right-hand motion, with no hook and no blocking. */
module LegacyMainForm {
  import opened Wrappers
  import opened Effects
  import Text
  import DS = DeviceSelection
  import SettingsService
  import MF = MainForm

  type Device = MF.Device

  /** The status text for a side with no device. */
  const NotSet: string := "未设定"

  /** `FormatDevice`: the label for a side. No id reads "not set"; a blank
      name, or one equal to the id ignoring case, shows the id alone;
      otherwise the name is followed by the id in brackets. */
  function FormatDevice(name: string, id: string): (r: string)
    ensures Text.IsBlank(id) ==> r == NotSet
    ensures !Text.IsBlank(id) && (Text.IsBlank(name) || Text.EqualsIgnoreCase(name, id)) ==> r == id
    ensures !Text.IsBlank(id) && !Text.IsBlank(name) && !Text.EqualsIgnoreCase(name, id) ==>
              && Text.StartsWith(r, name)
              && r[|name|..] == " (HID: " + id + ")"
  {
    if Text.IsBlank(id) then NotSet
    else if Text.IsBlank(name) || Text.EqualsIgnoreCase(name, id) then id
    else name + " (HID: " + id + ")"
  }

  /** The label always shows the id of a set side, and never hides it
      behind a name. */
  lemma FormatDeviceShowsId(name: string, id: string)
    requires !Text.IsBlank(id)
    ensures var r := FormatDevice(name, id);
            r == id || (|r| == |name| + |id| + 8 && r[|r| - |id| - 1..|r| - 1] == id)
  {
    var r := FormatDevice(name, id);
    if r != id {
      var tail := " (HID: " + id + ")";
      assert r == name + tail;
      assert r[|r| - |id| - 1..|r| - 1] == tail[7..7 + |id|];
    }
  }

  // ---------------------------------------------------------------------
  // The window's state
  // ---------------------------------------------------------------------

  datatype LegacyState = LegacyState(
    sel: DS.Selection,
    devices: seq<Device>,
    handleMap: map<int, Device>,
    autoPressChecked: bool,
    pressed: bool,
    leftSet: set<int>,
    rightSet: set<int>,
    applyEnabled: bool)

  function InitialLegacy(): LegacyState {
    LegacyState(DS.Initial(), [], map[], false, false, {}, {}, false)
  }

  /** Presses and releases alternate and `autoPressPressed` says which came
      last. */
  predicate Coherent(s: LegacyState, trace: seq<Effect>) {
    ButtonState(trace) == Some(s.pressed)
  }

  // ---------------------------------------------------------------------
  // Motion
  // ---------------------------------------------------------------------

  /** The lock-protected auto-press block: a left-hand handle presses a
      released button; otherwise a right-hand handle releases a held one.
      So left-hand motion while the button is held falls through to the
      right-hand test. */
  function AutoPress(pressed: bool, leftSet: set<int>, rightSet: set<int>, key: int): (r: (bool, seq<Effect>))
    ensures key in leftSet && !pressed ==> r == (true, [LeftDown])
    ensures key in rightSet && pressed ==> r == (false, [LeftUp])
    ensures !(key in leftSet && !pressed) && !(key in rightSet && pressed) ==> r == (pressed, [])
  {
    if (|leftSet| > 0 && key in leftSet) && !pressed then (true, [LeftDown])
    else if (|rightSet| > 0 && key in rightSet) && pressed then (false, [LeftUp])
    else (pressed, [])
  }

  /** Whether motion in detection mode posts a detection callback: only a
      nonzero motion does. */
  predicate PostsDetection(s: LegacyState, dx: int, dy: int) {
    s.sel.target != DS.None && !(dx == 0 && dy == 0)
  }

  /** `OnDeviceMoved` on the input thread. In detection mode nothing
      changes here (the detection itself is posted, see `Detect`);
      otherwise, with the box checked and both devices set, the auto-press
      block runs. */
  function OnMoved(s: LegacyState, handle: int): (LegacyState, seq<Effect>) {
    if s.sel.target != DS.None then (s, [])
    else if s.autoPressChecked && DS.HasBothDevices(s.sel) then
      var r := AutoPress(s.pressed, s.leftSet, s.rightSet, handle);
      (s.(pressed := r.0), r.1)
    else (s, [])
  }

  // ---------------------------------------------------------------------
  // Device list and selection
  // ---------------------------------------------------------------------

  function RefreshHandleSets(s: LegacyState): LegacyState {
    s.(leftSet := MF.HandleSet(MF.DeviceById(s.devices, s.sel.leftId)),
       rightSet := MF.HandleSet(MF.DeviceById(s.devices, s.sel.rightId)))
  }

  function SelectionChanged(s: LegacyState): (r: LegacyState)
    ensures r.pressed == s.pressed && r.sel == s.sel && r.devices == s.devices && r.handleMap == s.handleMap
    ensures r.applyEnabled == DS.HasBothDevices(s.sel)
  {
    var s1 := s.(applyEnabled := DS.HasBothDevices(s.sel));
    if s1.autoPressChecked then RefreshHandleSets(s1) else s1
  }

  /** `ReloadDevices`; `enumeration` is None when enumerating failed. */
  function Reload(s: LegacyState, enumeration: Option<seq<Device>>): (r: LegacyState)
    ensures r.pressed == s.pressed && r.sel == s.sel
  {
    var s1 := if enumeration.Some?
              then s.(devices := enumeration.value, handleMap := SettingsService.HandleLookup(enumeration.value))
              else s;
    SelectionChanged(s1)
  }

  function Lookup(s: LegacyState, handle: int): Option<Device> {
    if handle in s.handleMap then Some(s.handleMap[handle]) else None
  }

  /** The posted detection callback for the mouse `handle`: look it up,
      retrying once after a reload, and apply it to the side being
      detected, if any is still. */
  function Detect(s: LegacyState, handle: int, enumeration: Option<seq<Device>>): (r: LegacyState)
    ensures r.pressed == s.pressed
    ensures r.sel == s.sel || (s.sel.target != DS.None && r.sel.target == DS.None)
  {
    var s1 := if Lookup(s, handle).Some? then s else Reload(s, enumeration);
    var device := Lookup(s1, handle);
    if device.None? then s1
    else
      var d := device.value;
      var a := DS.Apply(s1.sel, Some(d.id), Some(MF.DisplayName(d)));
      if a.0 then SelectionChanged(s1.(sel := a.1)) else s1
  }

  /** The lock-protected release when the box is unchecked or the window
      closes. */
  function Release(s: LegacyState): (LegacyState, seq<Effect>) {
    (s.(pressed := false), if s.pressed then [LeftUp] else [])
  }

  /** `ToggleAutoPress` for the box changed to `checked`; unchecking it
      from inside the handler runs the handler again for the unchecked
      box. */
  function Toggle(s: LegacyState, checked: bool): (LegacyState, seq<Effect>) {
    if !checked || !DS.HasBothDevices(s.sel) then Release(s.(autoPressChecked := false))
    else (RefreshHandleSets(s.(autoPressChecked := true)), [])
  }

  // ---------------------------------------------------------------------
  // Every handler, and runs of them
  // ---------------------------------------------------------------------

  datatype LegacyEvent =
    | DeviceMoved(handle: int, dx: int, dy: int)
    | DetectionPosted(handle: int, enumeration: Option<seq<Device>>)
    | AutoPressToggled(checked: bool)
    | Closed
    | DetectClicked(target: DS.DetectionTarget)
    | DevicesChanged(enumeration: Option<seq<Device>>)

  function Step(s: LegacyState, e: LegacyEvent): (LegacyState, seq<Effect>) {
    match e
    case DeviceMoved(h, dx, dy) => OnMoved(s, h)
    case DetectionPosted(h, en) => (Detect(s, h, en), [])
    case AutoPressToggled(checked) => Toggle(s, checked)
    case Closed => Release(s)
    case DetectClicked(t) => (s.(sel := DS.Begin(s.sel, t)), [])
    case DevicesChanged(en) => (Reload(s, en), [])
  }

  function Run(s: LegacyState, events: seq<LegacyEvent>): (LegacyState, seq<Effect>)
    decreases |events|
  {
    if events == [] then (s, [])
    else
      var first := Step(s, events[0]);
      var rest := Run(first.0, events[1..]);
      (rest.0, first.1 + rest.1)
  }

  // ---------------------------------------------------------------------
  // Properties
  // ---------------------------------------------------------------------

  lemma StepKeepsCoherent(s: LegacyState, trace: seq<Effect>, e: LegacyEvent)
    requires Coherent(s, trace)
    ensures Coherent(Step(s, e).0, trace + Step(s, e).1)
  {
    var r := Step(s, e);
    assert trace + [] == trace;
    if r.1 != [] {
      ButtonStateAppend(trace, r.1);
      assert r.1[..0] == [];
    }
  }

  /** However the user and the devices interleave, the window's presses
      and releases alternate and the window knows whether it holds the
      button. */
  lemma {:induction false} RunKeepsCoherent(s: LegacyState, trace: seq<Effect>, events: seq<LegacyEvent>)
    requires Coherent(s, trace)
    ensures Coherent(Run(s, events).0, trace + Run(s, events).1)
    decreases |events|
  {
    if events == [] {
      assert trace + [] == trace;
    } else {
      var first := Step(s, events[0]);
      StepKeepsCoherent(s, trace, events[0]);
      RunKeepsCoherent(first.0, trace + first.1, events[1..]);
      var rest := Run(first.0, events[1..]);
      assert trace + first.1 + rest.1 == trace + (first.1 + rest.1);
    }
  }

  /** A held button is pressed once: further left-hand motion sends
      nothing, unless the handle is also a right-hand one. */
  lemma PressOnceRule(s: LegacyState, handle: int)
    requires s.sel.target == DS.None && s.autoPressChecked && DS.HasBothDevices(s.sel)
    requires handle in s.leftSet
    ensures !s.pressed ==> OnMoved(s, handle) == (s.(pressed := true), [LeftDown])
    ensures s.pressed && handle !in s.rightSet ==> OnMoved(s, handle) == (s, [])
  {
  }

  /** A handle in both sets flips the button on every motion: unlike the
      newer window, it is not treated as left-hand only. */
  lemma SharedHandleToggles(s: LegacyState, handle: int)
    requires s.sel.target == DS.None && s.autoPressChecked && DS.HasBothDevices(s.sel)
    requires handle in s.leftSet && handle in s.rightSet
    ensures OnMoved(s, handle).0.pressed == !s.pressed
    ensures OnMoved(OnMoved(s, handle).0, handle).0.pressed == s.pressed
  {
  }

  /** Motion in detection mode never touches the button or the state. */
  lemma DetectionModeRule(s: LegacyState, handle: int)
    requires s.sel.target != DS.None
    ensures OnMoved(s, handle) == (s, [])
  {
  }

  /** Without the box checked or without both devices, motion outside
      detection mode synthesizes nothing and changes nothing. */
  lemma MotionNeedsToggleAndBoth(s: LegacyState, handle: int)
    requires s.sel.target == DS.None && (!s.autoPressChecked || !DS.HasBothDevices(s.sel))
    ensures OnMoved(s, handle) == (s, [])
  {
  }

  /** A posted detection for a known handle binds that device to the side
      still being detected and ends the round; the other side keeps its
      device, even when it is the same one. */
  lemma DetectRule(s: LegacyState, handle: int, enumeration: Option<seq<Device>>)
    requires s.sel.target != DS.None && handle in s.handleMap
    ensures var d := s.handleMap[handle];
            var r := Detect(s, handle, enumeration);
            && r.sel.target == DS.None
            && (s.sel.target == DS.Left ==> r.sel.leftId == d.id && r.sel.rightId == s.sel.rightId)
            && (s.sel.target == DS.Right ==> r.sel.rightId == d.id && r.sel.leftId == s.sel.leftId)
  {
    assert Lookup(s, handle) == Some(s.handleMap[handle]);
  }

  /** Detecting the right-hand side with the mouse already bound to the
      left puts one device on both sides, and applying that selection then
      leaves the device on the left profile: the right hand gets the
      left-hand multiplier. */
  lemma SameMouseOnBothSides(s: LegacyState, handle: int, enumeration: Option<seq<Device>>,
                             c: SettingsService.Config, leftMultiplier: real, errors: string)
    requires s.sel.target == DS.Right && handle in s.handleMap && s.handleMap[handle].id == s.sel.leftId
    requires |c.profiles| == |c.accels|
    ensures var r := Detect(s, handle, enumeration);
            var id := s.sel.leftId;
            && r.sel.rightId == id && r.sel.leftId == id
            && var a := SettingsService.ApplyConfig(c, r.sel.rightId, r.sel.rightName, r.sel.leftId, r.sel.leftName,
                                                    leftMultiplier, errors);
               a.0.Ok? ==>
                 && SettingsService.DeviceIndexOf(a.1.devices, id) >= 0
                 && a.1.devices[SettingsService.DeviceIndexOf(a.1.devices, id)].profile
                      == SettingsService.BuildLeftProfileName(c.profiles[0].name)
  {
    DetectRule(s, handle, enumeration);
    var r := Detect(s, handle, enumeration);
    SettingsService.ApplySameIdUsesLeftProfile(c, s.sel.leftId, r.sel.rightName, r.sel.leftName, leftMultiplier, errors);
  }

  /** A handle that is unknown even after the reload leaves the selection
      as it was: only the device list is refreshed. */
  lemma DetectUnknownRule(s: LegacyState, handle: int, enumeration: Option<seq<Device>>)
    requires Lookup(s, handle).None? && Lookup(Reload(s, enumeration), handle).None?
    ensures Detect(s, handle, enumeration) == Reload(s, enumeration)
    ensures Detect(s, handle, enumeration).sel == s.sel
  {
  }

  /** A handle that only the reload resolves is bound like a known one,
      from the reloaded device list. */
  lemma DetectAfterReloadRule(s: LegacyState, handle: int, enumeration: Option<seq<Device>>)
    requires s.sel.target != DS.None && handle !in s.handleMap
    requires handle in Reload(s, enumeration).handleMap
    ensures var d := Reload(s, enumeration).handleMap[handle];
            var r := Detect(s, handle, enumeration);
            && r.sel.target == DS.None
            && r.devices == Reload(s, enumeration).devices
            && (s.sel.target == DS.Left ==> r.sel.leftId == d.id && r.sel.rightId == s.sel.rightId)
            && (s.sel.target == DS.Right ==> r.sel.rightId == d.id && r.sel.leftId == s.sel.leftId)
  {
    assert Lookup(Reload(s, enumeration), handle) == Some(Reload(s, enumeration).handleMap[handle]);
  }

  /** Unchecking the box, or checking it without both devices, and
      closing the window each release a held button exactly once. */
  lemma ReleaseRule(s: LegacyState, checked: bool)
    requires !checked || !DS.HasBothDevices(s.sel)
    ensures var r := Toggle(s, checked);
            !r.0.pressed && !r.0.autoPressChecked && r.1 == (if s.pressed then [LeftUp] else [])
    ensures Step(s, Closed) == (s.(pressed := false), if s.pressed then [LeftUp] else [])
  {
  }

  // ---------------------------------------------------------------------
  // The window
  // ---------------------------------------------------------------------

  class MainForm {
    const selection: DS.DeviceSelectionState
    var devices: seq<Device>
    var handleMap: map<int, Device>
    var autoPressChecked: bool
    var autoPressPressed: bool
    var leftHandleSet: set<int>
    var rightHandleSet: set<int>
    var applyEnabled: bool
    /** Presses and releases sent so far. */
    ghost var trace: seq<Effect>

    function State(): LegacyState
      reads this, selection
    {
      LegacyState(selection.State(), devices, handleMap, autoPressChecked, autoPressPressed,
                  leftHandleSet, rightHandleSet, applyEnabled)
    }

    ghost predicate Valid()
      reads this, selection
    {
      Coherent(State(), trace)
    }

    constructor ()
      ensures Valid() && State() == InitialLegacy() && trace == [] && fresh(selection)
    {
      selection := new DS.DeviceSelectionState();
      devices, handleMap := [], map[];
      autoPressChecked, autoPressPressed := false, false;
      leftHandleSet, rightHandleSet := {}, {};
      applyEnabled := false;
      trace := [];
    }

    method UpdateHandleSets()
      modifies this
      ensures State() == RefreshHandleSets(old(State())) && trace == old(trace)
    {
      var left := MF.FindDeviceById(devices, selection.leftDeviceId);
      var right := MF.FindDeviceById(devices, selection.rightDeviceId);
      leftHandleSet := MF.HandleSet(left);
      rightHandleSet := MF.HandleSet(right);
    }

    /** Labels, the apply button and, while the box is checked, the handle
        sets. */
    method RefreshAfterSelection()
      modifies this
      ensures State() == SelectionChanged(old(State())) && trace == old(trace)
    {
      applyEnabled := selection.HasBoth();
      if autoPressChecked {
        UpdateHandleSets();
      }
    }

    method ReloadDevices(enumeration: Option<seq<Device>>)
      modifies this
      ensures State() == Reload(old(State()), enumeration) && trace == old(trace)
    {
      if enumeration.Some? {
        devices := enumeration.value;
        handleMap := SettingsService.BuildHandleLookup(devices);
      }
      RefreshAfterSelection();
    }

    method BeginDetection(target: DS.DetectionTarget)
      requires Valid()
      modifies selection
      ensures Valid()
      ensures State() == old(State()).(sel := DS.Begin(old(State()).sel, target)) && trace == old(trace)
    {
      selection.BeginDetection(target);
    }

    /** `posted` tells whether a detection callback for `deviceHandle` was
        posted to the window's thread (see `DetectPosted`). */
    method OnDeviceMoved(deviceHandle: int, deltaX: int, deltaY: int) returns (posted: bool)
      requires Valid()
      modifies this
      ensures Valid()
      ensures posted == PostsDetection(old(State()), deltaX, deltaY)
      ensures State() == OnMoved(old(State()), deviceHandle).0
      ensures trace == old(trace) + OnMoved(old(State()), deviceHandle).1
    {
      ghost var r := OnMoved(State(), deviceHandle);
      StepKeepsCoherent(State(), trace, DeviceMoved(deviceHandle, deltaX, deltaY));
      posted := false;
      if selection.currentTarget != DS.None {
        posted := !(deltaX == 0 && deltaY == 0);
      } else if autoPressChecked && selection.HasBoth() {
        AutoPressLocked(deviceHandle);
      }
      assert State() == r.0 && trace == old(trace) + r.1;
    }

    /** The block run under the auto-press lock. */
    method AutoPressLocked(key: int)
      modifies this
      ensures var r := AutoPress(old(autoPressPressed), leftHandleSet, rightHandleSet, key);
              State() == old(State()).(pressed := r.0) && trace == old(trace) + r.1
    {
      if (|leftHandleSet| > 0 && key in leftHandleSet) && !autoPressPressed {
        trace := trace + [LeftDown];
        autoPressPressed := true;
      } else if (|rightHandleSet| > 0 && key in rightHandleSet) && autoPressPressed {
        trace := trace + [LeftUp];
        autoPressPressed := false;
      } else {
        assert trace == old(trace) + [];
      }
    }

    /** The callback `OnDeviceMoved` posts in detection mode. */
    method DetectPosted(deviceHandle: int, enumeration: Option<seq<Device>>)
      requires Valid()
      modifies this, selection
      ensures Valid()
      ensures State() == Detect(old(State()), deviceHandle, enumeration) && trace == old(trace)
    {
      ghost var r := Detect(State(), deviceHandle, enumeration);
      var device := if deviceHandle in handleMap then Some(handleMap[deviceHandle]) else None;
      if device.None? {
        ReloadDevices(enumeration);
        device := if deviceHandle in handleMap then Some(handleMap[deviceHandle]) else None;
      }
      if device.Some? {
        ApplyDetected(device.value);
      }
      assert State() == r && trace == old(trace);
    }

    method ApplyDetected(d: Device)
      modifies this, selection
      ensures var a := DS.Apply(old(State()).sel, Some(d.id), Some(MF.DisplayName(d)));
              State() == (if a.0 then SelectionChanged(old(State()).(sel := a.1)) else old(State()))
      ensures trace == old(trace)
    {
      var name := if Text.IsBlank(d.name) then d.id else d.name;
      var applied := selection.ApplyDetectionResult(Some(d.id), Some(name));
      if applied {
        RefreshAfterSelection();
      }
    }

    method ReleaseLocked()
      requires Valid()
      modifies this
      ensures Valid()
      ensures (State(), trace) == (Release(old(State())).0, old(trace) + Release(old(State())).1)
    {
      StepKeepsCoherent(State(), trace, Closed);
      if autoPressPressed {
        trace := trace + [LeftUp];
        autoPressPressed := false;
      } else {
        assert trace == old(trace) + [];
      }
    }

    /** The box changed to `checked`. */
    method ToggleAutoPress(checked: bool)
      requires Valid()
      modifies this
      ensures Valid()
      ensures State() == Toggle(old(State()), checked).0
      ensures trace == old(trace) + Toggle(old(State()), checked).1
      decreases if checked then 1 else 0
    {
      autoPressChecked := checked;
      if autoPressChecked {
        if !selection.HasBoth() {
          autoPressChecked := false;
          ToggleAutoPress(false);
          return;
        }
        UpdateHandleSets();
        assert trace == old(trace) + [];
      } else {
        ReleaseLocked();
      }
    }

    method OnFormClosed()
      requires Valid()
      modifies this
      ensures Valid()
      ensures (State(), trace) == (Release(old(State())).0, old(trace) + Release(old(State())).1)
    {
      ReleaseLocked();
    }
  }
}
