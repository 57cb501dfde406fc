# Dual-mouse control helper: a verified model

The helper lets a second ("left-hand") mouse drive a DaVinci Resolve style
drag. It has four cooperating parts, each modelled in its own Dafny module:

- **`mouse_monitor.cpp`** (module `MouseMonitor`) is the console monitor. It
  reads raw mouse input and latches the 32-bit `ExtraInformation` payload that
  carries two signed 16-bit deltas. While Caps Lock is on and motion arrives,
  it presses the left button. It releases the button after 150 ms without
  motion, when Caps Lock goes off, or when `q` quits.
- **The wrapper's device enumeration and `WM_INPUT` handler**
  (`wrapper/input.cpp`, module `DeviceList`) group raw-input entries into one
  record per device id and report motion per device handle.
- **The settings window**, in two generations:
  - the newer `src/dual-sens-manager` version (modules `MainForm`,
    `DeviceSelection`, `MouseBlocker`, `SettingsService`): a side is bound by
    clicking its confirm button with that mouse. "Press on move" holds the
    left button while the left-hand mouse moves. Meanwhile a low-level hook
    swallows every physical (not injected) mouse event from either mouse,
    and left-hand motion is replayed as injected relative moves;
  - the legacy `dual-sens-manager` version (module `LegacyMainForm`): a side
    is bound by moving that mouse, and there is no hook.

  Both write the driver configuration through `SettingsService`: a left-hand
  profile cloned from the first profile with its own multiplier, and a device
  entry per hand.
- **The desktop shell's backend** (`src-tauri/src/main.rs`, module
  `Backend`) spawns the monitor and talks to it over its pipes.
  - Monitor → shell: `EVT <kind> <data>` lines, parsed into events that update
    a status snapshot and are forwarded to an attached UI.
  - Shell → monitor: one-line commands.
  - A UI that attaches gets the snapshot replayed.

Shared modules:

- `Wrappers` holds `Option`/`Result`.
- `Text` holds the .NET/Rust white-space set, `Trim`, and ordinal
  ignore-case comparison.
- `Effects` holds the synthesized-input effects: press, release, relative
  move, hook installed/removed. Its `ButtonState` replays a trace of
  presses and releases and fails on a press while held or a release while
  up.

State that the source changes in place is a Dafny `class` whose fields are
the source's fields:

- the monitor's globals;
- the blocker's hook handle;
- the selection object;
- the window's fields;
- the driver configuration;
- the wrapper's static buffer;
- the backend's mutex-protected state.

Each method's `ensures` ties the new state, and the ghost trace of
synthesized input, to a pure step function. The properties are proved about
those step functions:

- the monitor presses and releases alternately and knows whether it holds
  the button;
- the blocker never leaves two hooks live;
- the window's presses and releases alternate under any interleaving of
  events, the right-hand mouse is blocked exactly while the button is held,
  and the two sides never hold the same device;
- the handle lookup maps each handle to its first owner;
- the backend replay restores the snapshot, and parsing recovers every event
  line.

Each window handler is one atomic step. The locks, threads and
`BeginInvoke` postings of the source only order these steps. In the
backend, `backend_init` is two steps, the locked attach and the replay
after it, and the gap between them is a finding below. For the legacy
window, the detection that `OnDeviceMoved` posts is its own event
(`DetectionPosted`).

## Model

| member | source | states |
|---|---|---|
| MouseMonitor.DecodeThenPack | mouse_monitor.cpp:58-63 | Splitting the 32-bit payload into its two signed 16-bit halves loses nothing: packing them again gives the payload back. |
| MouseMonitor.PackThenDecode | mouse_monitor.cpp:58-63 | Decoding a packed pair of 16-bit deltas gives both deltas back. |
| MouseMonitor.NonzeroPayloadIffNonzeroDelta | mouse_monitor.cpp:90-96 | The payload is nonzero exactly when one of its decoded deltas is nonzero, which is what the latch tests. |
| MouseMonitor.AbsoluteIgnored | mouse_monitor.cpp:76-80 | An absolute-position mouse event changes no global and synthesizes nothing. |
| MouseMonitor.LatchOneWay | mouse_monitor.cpp:90-96 | The validity latch becomes set exactly on a nonzero payload of a relative event, whether or not the loop is still running, since the window procedure never tests `g_running`. It is never cleared, and the loop never touches it. |
| MouseMonitor.MotionBookkeeping | mouse_monitor.cpp:98-108 | A relative event that counts as motion bumps the move count and stamps the time, after quit as well; anything else leaves both unchanged. |
| MouseMonitor.MotionPressRule | mouse_monitor.cpp:122-126 | Motion synthesizes a left press exactly when the feature is on, the button is up and the motion was counted. It never releases and never changes the feature flag. |
| MouseMonitor.InputsPressAtMostOnce | mouse_monitor.cpp:66-134 | Any burst of input events between two loop iterations presses at most once and never releases: exactly one press when the button ends down having started up. |
| MouseMonitor.OnInputKeepsConsistent | mouse_monitor.cpp:66-134 | The input handler, running or not, keeps the invariant: presses and releases alternate, the button is flagged down only while the feature is on, a held button is always flagged, and while the loop runs the flag is exactly what the trace leaves held. |
| MouseMonitor.TickKeepsConsistent | mouse_monitor.cpp:227-266 | One iteration of the polling loop (quit key, Caps Lock edge, idle check) keeps the same invariant. |
| MouseMonitor.CapsEdgeKeepsConsistent | mouse_monitor.cpp:240-255 | The Caps Lock edge keeps the monitor running and keeps the invariant. |
| MouseMonitor.IdleReleaseRule | mouse_monitor.cpp:257-264 | With no quit and no Caps edge, the loop releases exactly when the feature is on, the button is down and the wrapping 32-bit tick difference exceeds 150 ms. Nothing else changes. |
| MouseMonitor.WrappedTickExamples | mouse_monitor.cpp:257-264 | Across the wrap of the 32-bit tick counter, 32 ms of idleness does not release and 512 ms does. |
| MouseMonitor.CapsToggleRule | mouse_monitor.cpp:240-255 | A Caps Lock edge sets the feature to the new toggle state. Turning it off releases a held button, and turning it on presses nothing. |
| MouseMonitor.QuitRule | mouse_monitor.cpp:228-237 | `q` releases a held button and stops the loop, changing nothing else. |
| MouseMonitor.PressAfterQuitStaysHeld | mouse_monitor.cpp:122-126 | After Caps Lock on and `q` with the button up, a motion still dispatched by the message loop (line 185 tests `g_running` only between messages) presses the button; the loop has ended (lines 228-237), and no later input releases it. |
| MouseMonitor.GuardedInputKeepsReleased | mouse_monitor.cpp:66-134 | With input dropped once the loop has stopped, the handler keeps the invariant and leaves nothing held after quit. |
| MouseMonitor.TickKeepsReleased | mouse_monitor.cpp:228-237 | The iteration that quits keeps the invariant and leaves the button released. |
| MouseMonitor.Monitor.constructor | mouse_monitor.cpp:24-31 | The globals start running, with the feature off, the button up, the latch clear and the Caps state as read at start-up. |
| MouseMonitor.Monitor.HandleRawInput | mouse_monitor.cpp:66-134 | The window procedure's `WM_INPUT` branch updates the globals and emits presses as the input step function says, also after quit, keeping the invariant. |
| MouseMonitor.Monitor.LoopIteration | mouse_monitor.cpp:227-266 | One pass of the main loop updates the globals and emits releases as the loop step function says, keeping the invariant. |
| MouseMonitor.Monitor.CheckCapsLock | mouse_monitor.cpp:240-255 | The Caps Lock check, as the edge function says. |
| MouseBlocker.ShouldBlock | src/dual-sens-manager/LowLevelMouseBlocker.cs:17-21 | Without a caller predicate the blocker never blocks; with one, it blocks exactly when the predicate answers true. |
| MouseBlocker.Decide | src/dual-sens-manager/LowLevelMouseBlocker.cs:71-83 | The hook swallows an event exactly when the code is non-negative, blocking is wanted and the event is not injected. Injected events and negative codes always pass on. |
| MouseBlocker.StartStep | src/dual-sens-manager/LowLevelMouseBlocker.cs:23-49 | `Start` reports success exactly when a hook is held afterwards. An existing hook is kept and nothing is installed; otherwise the hook handle is what the system returned. |
| MouseBlocker.StopStep | src/dual-sens-manager/LowLevelMouseBlocker.cs:51-63 | `Stop` always leaves no hook, and does nothing when there was none. |
| MouseBlocker.StepsKeepMatches | src/dual-sens-manager/LowLevelMouseBlocker.cs:23-63 | `Start` and `Stop` keep the handle field equal to the one live hook, or zero when none is live. |
| MouseBlocker.CallsKeepMatches | src/dual-sens-manager/LowLevelMouseBlocker.cs:23-69 | Under any interleaving of `Start`, `Stop` and `Dispose`, at most one hook is live, only the live hook is removed, and the handle field names it. |
| MouseBlocker.StartStopIdempotent | src/dual-sens-manager/LowLevelMouseBlocker.cs:23-63 | A second `Start` after a successful one installs nothing, and a second `Stop` removes nothing. |
| MouseBlocker.LowLevelMouseBlocker.constructor | src/dual-sens-manager/LowLevelMouseBlocker.cs:17-21 | The blocker starts unhooked and asks the caller only when a predicate was supplied. |
| MouseBlocker.LowLevelMouseBlocker.HookCallback | src/dual-sens-manager/LowLevelMouseBlocker.cs:71-83 | The hook procedure's answer is the decision above. |
| MouseBlocker.LowLevelMouseBlocker.Start | src/dual-sens-manager/LowLevelMouseBlocker.cs:23-49 | Installs the hook as `StartStep` says and records the installation. |
| MouseBlocker.LowLevelMouseBlocker.Stop | src/dual-sens-manager/LowLevelMouseBlocker.cs:51-63 | Removes the live hook as `StopStep` says. |
| MouseBlocker.LowLevelMouseBlocker.Dispose | src/dual-sens-manager/LowLevelMouseBlocker.cs:65-69 | Disposing is stopping. |
| DeviceSelection.Begin | src/dual-sens-manager/DeviceSelectionState.cs:33-36 | Starting detection sets the target and changes nothing else. The legacy copy (dual-sens-manager/DeviceSelectionState.cs:24-27) behaves the same. |
| DeviceSelection.Apply | src/dual-sens-manager/DeviceSelectionState.cs:38-58 | A result is accepted exactly when a side is being detected. It then lands on that side (a null id or name is empty) and ends detection; a refused result changes nothing. The legacy copy (dual-sens-manager/DeviceSelectionState.cs:29-49) behaves the same. |
| DeviceSelection.Clear | src/dual-sens-manager/DeviceSelectionState.cs:61-73 | Clearing a side empties its id and name, keeps the other side and the target, and clearing no side changes nothing. |
| DeviceSelection.HasBothDevicesIffTrimmedIds | src/dual-sens-manager/DeviceSelectionState.cs:75-81 | Both devices are set exactly when both ids are non-empty after trimming. The legacy copy (dual-sens-manager/DeviceSelectionState.cs:51-53) behaves the same. |
| DeviceSelection.DetectionRound | src/dual-sens-manager/DeviceSelectionState.cs:33-58 | A round (begin, then a result) puts the result on the detected side and ends the round, so a later result is refused. |
| DeviceSelection.CompletingThePair | src/dual-sens-manager/DeviceSelectionState.cs:38-81 | A round completes the pair exactly when the new id and the other side's id are both non-blank. |
| DeviceSelection.DeviceSelectionState.constructor | src/dual-sens-manager/DeviceSelectionState.cs:24-31 | Everything starts empty with no target. The legacy copy (dual-sens-manager/DeviceSelectionState.cs:14-22) behaves the same. |
| DeviceSelection.DeviceSelectionState.BeginDetection | src/dual-sens-manager/DeviceSelectionState.cs:33-36 | As `Begin`. |
| DeviceSelection.DeviceSelectionState.ApplyDetectionResult | src/dual-sens-manager/DeviceSelectionState.cs:38-58 | As `Apply`, returning whether the result was accepted. |
| DeviceSelection.DeviceSelectionState.ClearTarget | src/dual-sens-manager/DeviceSelectionState.cs:61-73 | As `Clear`. |
| DeviceList.FromEntries | wrapper/input.cpp:244-254 | The device record takes the name and id of the first entry and the handles of all entries in order; an empty range yields no record. |
| DeviceList.MakeList | wrapper/input.cpp:212-241 | Walking the sorted entries yields one record per maximal run of equal ids, in order; no entries yield no records. |
| DeviceList.GroupIdsFromEntries | wrapper/input.cpp:228-238 | Every record's id is an id of the entries. |
| DeviceList.GroupIdsDistinct | wrapper/input.cpp:191-193 | When equal ids are adjacent, as the sort makes them, no two records share an id. |
| DeviceList.GroupKeepsHandles | wrapper/input.cpp:227-238 | The records hold exactly the entries' handles, in the same order. |
| DeviceList.GroupRecordsNonEmpty | wrapper/input.cpp:244-254 | Each record has at least one handle, and there are no more records than entries. |
| DeviceList.MakeListKeepsHandles | wrapper/input.cpp:212-241 | After sorting, the records carry exactly the multiset of enumerated handles: each as often as it was enumerated, and no others. |
| DeviceList.HandlesOfPermutation | wrapper/input.cpp:212-241 | Reordering the entries, as the sort does, reorders their handles and keeps their multiset. |
| DeviceList.MotionEvents | wrapper/input.cpp:58-67 | A decoded record raises one `DeviceMoved` with its device and deltas exactly when it is a mouse record with a nonzero delta. |
| DeviceList.BufferOnlyGrows | wrapper/input.cpp:36-56 | The reused buffer is empty until the first input and then holds at least 256 bytes. It never shrinks, and it holds at least the size queried before a retry. |
| DeviceList.EventsOfMessage | wrapper/input.cpp:32-76 | A message raises at most one event. A device change raises exactly `DeviceListChanged`, and motion is raised only for a mouse record with a nonzero delta. |
| DeviceList.RawInputSource.constructor | wrapper/input.cpp:36-38 | The static buffer starts empty. |
| DeviceList.RawInputSource.HandleMessage | wrapper/input.cpp:32-76 | Handles one window message as the message function says: buffer size, events raised and result. |
| SettingsService.HandleLookup | src/dual-sens-manager/SettingsService.cs:28-43 | The lookup holds exactly the handles some device owns, each mapped to its first owner in enumeration order. |
| SettingsService.BuildHandleLookup | src/dual-sens-manager/SettingsService.cs:28-43 | The nested loops build that map. The legacy copy (dual-sens-manager/SettingsService.cs:28-43) behaves the same. |
| SettingsService.BuildLeftProfileName | src/dual-sens-manager/SettingsService.cs:104-118 | The left name is never blank. A blank base gives "LeftHand"; otherwise it starts with the trimmed base and ends in "(Left)" ignoring case. It is the trimmed base exactly when that already ends so, and otherwise the trimmed base followed by " (Left)". |
| SettingsService.LeftProfileNameIdempotent | src/dual-sens-manager/SettingsService.cs:104-118 | Deriving the left name from a left name changes nothing when the base was not blank. |
| SettingsService.CloneProfile | src/dual-sens-manager/SettingsService.cs:133-139 | The clone has the new name, the requested multiplier and the source's acceleration curve. |
| SettingsService.ProfileIndexOf | src/dual-sens-manager/SettingsService.cs:120-131 | The index is the first profile whose name equals the given name ignoring case, or -1 when none does. |
| SettingsService.FindProfileIndex | src/dual-sens-manager/SettingsService.cs:120-131 | The loop returns that index. |
| SettingsService.DeviceIndexOf | src/dual-sens-manager/SettingsService.cs:141-145 | The index is the first device entry whose id equals the given id exactly, or -1 when none does. |
| SettingsService.UpdatedDevices | src/dual-sens-manager/SettingsService.cs:141-161 | The upsert keeps every other entry. The found entry gets the profile, and its name only when blank and the new one is not; otherwise one entry is appended with the default options, named by the id when the name is blank. |
| SettingsService.UpdatedDeviceIsFound | src/dual-sens-manager/SettingsService.cs:141-161 | After the upsert the id's first entry is the updated or appended one and uses the profile; it has a name whenever one was given. |
| SettingsService.UpdateKeepsOtherDevices | src/dual-sens-manager/SettingsService.cs:141-161 | Upserting one id leaves the lookup of any other id, and the entry found, unchanged. |
| SettingsService.UpdateDeviceIdempotent | src/dual-sens-manager/SettingsService.cs:141-161 | Upserting the same entry twice equals doing it once. |
| SettingsService.UpdateDevice | src/dual-sens-manager/SettingsService.cs:141-161 | Changes the configuration's device entries as `UpdatedDevices` says and nothing else. |
| SettingsService.ValidateArguments | src/dual-sens-manager/SettingsService.cs:52-66 | The arguments pass exactly when both ids are non-blank and the multiplier is positive. The errors come in the source's order: right id, left id, multiplier. |
| SettingsService.UpsertLeftProfile | src/dual-sens-manager/SettingsService.cs:76-88 | The left profile replaces the first same-named profile, or else is appended. Profiles and compiled profiles stay in step, and devices and activation are untouched. |
| SettingsService.ApplyConfig | src/dual-sens-manager/SettingsService.cs:50-102 | `Apply` fails on bad arguments, on a configuration with no profiles, or when the driver reports errors, and then does not activate. On success it activates and returns the base and left multipliers. |
| SettingsService.ApplyKeepsProfilesInStep | src/dual-sens-manager/SettingsService.cs:73-101 | Whatever the outcome, every profile has its compiled form at the same index. |
| SettingsService.ApplyMapsBothDevices | src/dual-sens-manager/SettingsService.cs:73-101 | After a successful apply the left profile exists under the derived name with the requested multiplier and a matching compiled form. When the two ids differ, the right device uses the first profile and the left device the left profile. |
| SettingsService.ApplySameIdUsesLeftProfile | src/dual-sens-manager/SettingsService.cs:90-91 | When both ids are the same, the second upsert overwrites the first: after a successful apply that one device uses the left profile, and at most one entry was added. |
| SettingsService.LeftProfileIsFound | src/dual-sens-manager/SettingsService.cs:76-88 | After the upsert, a search for the left name finds the cloned profile, and every other profile is as it was. |
| SettingsService.LeftNamedBaseProfileIsShared | src/dual-sens-manager/SettingsService.cs:76-91 | When the first profile is already named "... (Left)", it is the one overwritten with the left multiplier. |
| SettingsService.PutLeftProfile | src/dual-sens-manager/SettingsService.cs:79-88 | Replaces or appends the left profile in the configuration object as `UpsertLeftProfile` says. |
| SettingsService.Apply | src/dual-sens-manager/SettingsService.cs:50-102 | Applies to the configuration object exactly what `ApplyConfig` says. |
| MainForm.DeviceIndexById | src/dual-sens-manager/MainForm.cs:578-588 | The index is the first device whose id equals the given one ignoring case, or -1 when none does. |
| MainForm.FindDeviceById | src/dual-sens-manager/MainForm.cs:578-588 | The search returns that device, or nothing when no id matches. The legacy window's copy (dual-sens-manager/MainForm.cs:456-466) is the same. |
| MainForm.HandleSet | src/dual-sens-manager/MainForm.cs:560-569 | A side's handle set holds exactly its device's handles, or is empty without a device. |
| MainForm.AutoPress | src/dual-sens-manager/MainForm.cs:354-375 | A left-hand handle presses unless already pressed and sets blocking. Otherwise a right-hand handle releases a held button and unblocks; anything else changes nothing. |
| MainForm.SelectionChanged | src/dual-sens-manager/MainForm.cs:429-438 | After a selection change the apply button is enabled exactly when both devices are set; the selection, the devices and the press state are kept. |
| MainForm.Reload | src/dual-sens-manager/MainForm.cs:404-427 | A reload keeps the selection and the press state. A failed enumeration keeps the handle map. |
| MainForm.BeginRound | src/dual-sens-manager/MainForm.cs:282-312 | `BeginDetection` targets a side and forgets its device, keeping the press state. |
| MainForm.DropDuplicateIn | src/dual-sens-manager/MainForm.cs:625-644 | The other side forgets the device only if it held it, keeping the press state. |
| MainForm.DisplayName | src/dual-sens-manager/MainForm.cs:624 | A device is shown by its name, or by its id when the name is blank. |
| MainForm.BindRule | src/dual-sens-manager/MainForm.cs:624-654 | Binding to the detected side ends the round and puts the device there. The other side keeps its device unless that was the same one, so the sides stay distinct. |
| MainForm.ConfirmDevice | src/dual-sens-manager/MainForm.cs:624-660 | A found device is bound (or, with no round running, only removed from the other side), and both confirm buttons are disarmed. |
| MainForm.ApplyFound | src/dual-sens-manager/MainForm.cs:645-654 | The detection result is applied to the selection. |
| MainForm.Confirm | src/dual-sens-manager/MainForm.cs:596-660 | Confirming never touches the press state or the blocker. |
| MainForm.OnMovedKeepsCoherent | src/dual-sens-manager/MainForm.cs:314-382 | Motion keeps the invariant: presses and releases alternate, the button state is known, blocking equals pressing, the blocker flag matches the live hook, and the sides are distinct. |
| MainForm.StopAutoPressKeepsCoherent | src/dual-sens-manager/MainForm.cs:384-402 | Closing keeps the invariant. |
| MainForm.SelectionChangedKeepsCoherent | src/dual-sens-manager/MainForm.cs:404-438 | A selection refresh or a failed reload keeps the invariant. |
| MainForm.ConfirmKeepsCoherent | src/dual-sens-manager/MainForm.cs:596-660 | Confirming keeps the invariant; in particular the sides never end up holding the same device. |
| MainForm.ToggleKeepsCoherent | src/dual-sens-manager/MainForm.cs:521-558 | Toggling keeps the invariant, including the re-entrant run the handler triggers when it unchecks its own box. |
| MainForm.StepKeepsCoherent | src/dual-sens-manager/MainForm.cs:314-660 | Every handler keeps the invariant. |
| MainForm.RunKeepsCoherent | src/dual-sens-manager/MainForm.cs:314-660 | Any sequence of events keeps the invariant. |
| MainForm.RunFromStartBalances | src/dual-sens-manager/MainForm.cs:349-381 | From the opening window, the button is held at the end of any run exactly when one more press than release was synthesized. |
| MainForm.DetectionModeIsInert | src/dual-sens-manager/MainForm.cs:316-347 | While a side is being detected, motion only records the handle. |
| MainForm.AutoPressNeedsToggleAndBoth | src/dual-sens-manager/MainForm.cs:349-352 | Without the box checked or without both devices, motion synthesizes nothing. |
| MainForm.LeftHitRule | src/dual-sens-manager/MainForm.cs:349-381 | Left-hand motion presses unless already pressed and blocks. It is replayed as a relative move exactly when the blocker runs and the motion is nonzero, also for a handle in both sets. |
| MainForm.RightHitRule | src/dual-sens-manager/MainForm.cs:349-381 | Right-hand motion releases a held button, unblocks and is never replayed. |
| MainForm.MoveReplayRule | src/dual-sens-manager/MainForm.cs:376-381 | A relative move is sent exactly for nonzero left-hand motion in auto-press mode with the blocker running. |
| MainForm.StopRule | src/dual-sens-manager/MainForm.cs:542-557 | Unchecking the box releases a held button once, unblocks and removes the hook. Closing the window (lines 384-402) does the same. |
| MainForm.ToggleOnRule | src/dual-sens-manager/MainForm.cs:521-541 | Checking without both devices leaves the box unchecked and nothing held. With both, it rebuilds the handle sets and the blocker runs if a hook could be installed. |
| MainForm.BeginDetectionRule | src/dual-sens-manager/MainForm.cs:282-312 | A round targets the side, forgets its device, keeps the other side, arms only that side's confirm button and captures no mouse yet. |
| MainForm.ConfirmRefusedRule | src/dual-sens-manager/MainForm.cs:598-602 | Confirming a side that is not being detected changes nothing. |
| MainForm.ConfirmSuccessRule | src/dual-sens-manager/MainForm.cs:611-660 | A captured known mouse is bound to the detected side and ends detection. The other side drops it if it held it, and both buttons are disarmed. |
| MainForm.DistinctSidesMapBothDevices | src/dual-sens-manager/MainForm.cs:459-464 | With the sides holding different devices, as the window keeps them, a successful apply puts the right-hand device on the first profile and the left-hand one on the left profile. |
| MainForm.UnreadInputsChangeNothing | src/dual-sens-manager/MainForm.cs:220-231 | Mouse input the window cannot read changes nothing, however much of it arrives. |
| MainForm.ConfirmCreditsLatestInput | src/dual-sens-manager/MainForm.cs:590-594 | The confirm press is credited to the mouse of the latest input the window read, a click without motion included (the window procedure at lines 220-231 records every readable input), and nothing else changes. |
| MainForm.SuppressionFollowsPress | src/dual-sens-manager/MainForm.cs:47 | Under the invariant, the window's hook swallows a physical event exactly while the auto-press holds the button. |
| MainForm.MainForm.constructor | src/dual-sens-manager/MainForm.cs:13-47 | The window starts with nothing selected, nothing pressed and no hook, its blocker asking for `blockRightInput`. |
| MainForm.MainForm.BlockerCallback | src/dual-sens-manager/MainForm.cs:47 | The hook swallows a physical event exactly while the button is held by the auto-press. |
| MainForm.MainForm.UpdateHandleSets | src/dual-sens-manager/MainForm.cs:560-569 | Rebuilds both handle sets from the selected devices. |
| MainForm.MainForm.RefreshAfterSelection | src/dual-sens-manager/MainForm.cs:429-438 | Refreshes the window as `SelectionChanged` says. |
| MainForm.MainForm.ReloadDevices | src/dual-sens-manager/MainForm.cs:404-427 | Reloads as `Reload` says. |
| MainForm.MainForm.OnDeviceMoved | src/dual-sens-manager/MainForm.cs:314-382 | Handles motion as the motion step says, keeping the invariant. |
| MainForm.MainForm.PressOnMoveIn | src/dual-sens-manager/MainForm.cs:349-381 | The auto-press branch of motion. |
| MainForm.MainForm.AutoPressLocked | src/dual-sens-manager/MainForm.cs:354-375 | The locked block does what `AutoPress` says and reports a left-hand hit. |
| MainForm.MainForm.StartMouseBlockerIfNeeded | src/dual-sens-manager/MainForm.cs:505-519 | Starts the blocker once and reports whether it runs. |
| MainForm.MainForm.ReleaseLocked | src/dual-sens-manager/MainForm.cs:544-552 | Releases a held button once and clears blocking. |
| MainForm.MainForm.ReleaseAndStopBlocker | src/dual-sens-manager/MainForm.cs:542-557 | Releases, then stops the blocker. |
| MainForm.MainForm.ToggleAutoPress | src/dual-sens-manager/MainForm.cs:521-558 | Handles the box change, with its re-entrant unchecking, as `Toggle` says and keeps the invariant. |
| MainForm.MainForm.OnFormClosed | src/dual-sens-manager/MainForm.cs:384-402 | Closing releases, stops the blocker and keeps the invariant. |
| MainForm.MainForm.BeginDetection | src/dual-sens-manager/MainForm.cs:282-312 | Starts a round as `BeginRound` says. |
| MainForm.MainForm.StartRound | src/dual-sens-manager/MainForm.cs:286-312 | The part of `BeginDetection` after the reload. |
| MainForm.MainForm.ConfirmButtonMouseDown | src/dual-sens-manager/MainForm.cs:590-594 | Captures the handle of the mouse that pressed the button. |
| MainForm.MainForm.WindowRawInput | src/dual-sens-manager/MainForm.cs:220-231 | The window's `WM_INPUT` branch records the device of every mouse input it can read, and changes nothing when the read fails. |
| MainForm.MainForm.ConfirmSelection | src/dual-sens-manager/MainForm.cs:596-660 | Confirms as `Confirm` says and keeps the invariant. |
| MainForm.MainForm.FindConfirmedDevice | src/dual-sens-manager/MainForm.cs:611-616 | Looks the captured handle up, reloading once if it is unknown. |
| MainForm.MainForm.ConfirmFound | src/dual-sens-manager/MainForm.cs:624-660 | Binds the found device as `ConfirmDevice` says. |
| MainForm.MainForm.ApplyFoundDevice | src/dual-sens-manager/MainForm.cs:645-654 | Applies the detection result as `ApplyFound` says. |
| MainForm.MainForm.DropDuplicateOf | src/dual-sens-manager/MainForm.cs:625-644 | Clears the other side when it holds the device. |
| LegacyMainForm.FormatDevice | dual-sens-manager/MainForm.cs:391-404 | An unset side reads "未设定". A blank name, or one equal to the id ignoring case, shows the id alone; otherwise the name is followed by " (HID: id)". The newer window's copy (src/dual-sens-manager/MainForm.cs:485-498) is the same. |
| LegacyMainForm.FormatDeviceShowsId | dual-sens-manager/MainForm.cs:391-404 | A set side's label always shows its id. |
| LegacyMainForm.AutoPress | dual-sens-manager/MainForm.cs:275-291 | A left-hand handle presses a released button. Otherwise a right-hand handle releases a held one; anything else changes nothing. |
| LegacyMainForm.SelectionChanged | dual-sens-manager/MainForm.cs:335-344 | After a selection change the apply button is enabled exactly when both devices are set; the selection and press state are kept. |
| LegacyMainForm.Reload | dual-sens-manager/MainForm.cs:311-333 | A reload keeps the selection and the press state. |
| LegacyMainForm.Detect | dual-sens-manager/MainForm.cs:244-270 | The posted detection never touches the press state, and either leaves the selection as it was or ends the running round. |
| LegacyMainForm.StepKeepsCoherent | dual-sens-manager/MainForm.cs:237-436 | Every handler keeps presses and releases alternating and the button state known. |
| LegacyMainForm.RunKeepsCoherent | dual-sens-manager/MainForm.cs:237-436 | Any sequence of events does too. |
| LegacyMainForm.PressOnceRule | dual-sens-manager/MainForm.cs:275-291 | A released button is pressed by left-hand motion. A held one gets nothing more from left-hand motion unless the handle is also right-hand. |
| LegacyMainForm.SharedHandleToggles | dual-sens-manager/MainForm.cs:275-291 | A handle in both sets flips the button on every motion. |
| LegacyMainForm.DetectionModeRule | dual-sens-manager/MainForm.cs:240-272 | In detection mode motion never touches the button or any other state. |
| LegacyMainForm.DetectRule | dual-sens-manager/MainForm.cs:244-270 | A posted detection for a known handle binds it to the detected side and ends the round. The other side keeps its device, even the same one. |
| LegacyMainForm.SameMouseOnBothSides | dual-sens-manager/MainForm.cs:244-270 | Detecting the right side with the mouse already bound to the left puts one id on both sides; applying that selection (lines 365-370) leaves the device on the left profile. |
| LegacyMainForm.DetectUnknownRule | dual-sens-manager/MainForm.cs:246-256 | A handle unknown even after the reload only reloads the device list; the selection stays as it was. |
| LegacyMainForm.DetectAfterReloadRule | dual-sens-manager/MainForm.cs:246-270 | A handle that only the reload resolves binds the reloaded device to the detected side and ends the round; the other side keeps its device. |
| LegacyMainForm.MotionNeedsToggleAndBoth | dual-sens-manager/MainForm.cs:275-291 | Outside detection mode, without the box checked or without both devices, motion synthesizes nothing and changes nothing. |
| LegacyMainForm.ReleaseRule | dual-sens-manager/MainForm.cs:411-436 | Unchecking the box, or checking it without both devices, leaves it unchecked and releases a held button once. Closing the window (lines 294-309) releases a held button once. |
| LegacyMainForm.MainForm.constructor | dual-sens-manager/MainForm.cs:12-26 | The window starts with nothing selected and nothing pressed. |
| LegacyMainForm.MainForm.UpdateHandleSets | dual-sens-manager/MainForm.cs:438-447 | Rebuilds both handle sets from the selected devices. |
| LegacyMainForm.MainForm.RefreshAfterSelection | dual-sens-manager/MainForm.cs:335-344 | Refreshes the window as `SelectionChanged` says. |
| LegacyMainForm.MainForm.ReloadDevices | dual-sens-manager/MainForm.cs:311-333 | Reloads as `Reload` says. |
| LegacyMainForm.MainForm.BeginDetection | dual-sens-manager/MainForm.cs:226-235 | Targets a side. |
| LegacyMainForm.MainForm.OnDeviceMoved | dual-sens-manager/MainForm.cs:237-292 | Handles motion, keeps the invariant and reports whether a detection is posted. |
| LegacyMainForm.MainForm.AutoPressLocked | dual-sens-manager/MainForm.cs:275-291 | The locked block does what `AutoPress` says. |
| LegacyMainForm.MainForm.DetectPosted | dual-sens-manager/MainForm.cs:244-270 | Runs the posted detection as `Detect` says. |
| LegacyMainForm.MainForm.ApplyDetected | dual-sens-manager/MainForm.cs:258-269 | Applies the found device to the selection. |
| LegacyMainForm.MainForm.ReleaseLocked | dual-sens-manager/MainForm.cs:424-433 | Releases a held button once. |
| LegacyMainForm.MainForm.ToggleAutoPress | dual-sens-manager/MainForm.cs:411-436 | Handles the box change, with its re-entrant unchecking, and keeps the invariant. |
| LegacyMainForm.MainForm.OnFormClosed | dual-sens-manager/MainForm.cs:294-309 | Closing releases a held button and keeps the invariant. |
| Backend.ParseMonitorLine | src-tauri/src/main.rs:281-297 | A line parses exactly when its trimmed form starts with "EVT ". The kind is then one word and the data is trimmed. |
| Backend.ParseMonitorLineShape | src-tauri/src/main.rs:281-297 | A parsed line is "EVT ", the kind, and then nothing or a space followed by text whose trimmed form is the data. |
| Backend.ParseEventLine | src-tauri/src/main.rs:281-297 | Every well-formed event is recovered from its line. |
| Backend.UpdateSnapshot | src-tauri/src/main.rs:179-195 | Updating keeps every stored datum trimmed. |
| Backend.LastValueWins | src-tauri/src/main.rs:179-195 | After any events, each stored datum is that of the latest event of its kind, or what was stored before when there is none. |
| Backend.ReadinessSticks | src-tauri/src/main.rs:179-195 | The readiness flag ends set exactly when it was set or an INPUT_READY event arrived. |
| Backend.EmitSnapshot | src-tauri/src/main.rs:197-237 | The replay emits its events in the fixed order INPUT_READY, SCAN_PROGRESS, SENS_APPLIED, REGISTERED, each kind at most once. |
| Backend.ReplayRestoresSnapshot | src-tauri/src/main.rs:197-237 | A UI that applies the replay to the default snapshot ends with the backend's snapshot. |
| Backend.ReplayOverwrites | src-tauri/src/main.rs:197-237 | Replaying onto any view sets readiness if the snapshot has it and overwrites exactly the data the snapshot holds. |
| Backend.Spawn | src-tauri/src/main.rs:99-161 | A child that has not exited means nothing is done. Otherwise the snapshot is reset and the new child and stdin are stored together, or the spawn error is returned with no child. |
| Backend.HandleEvent | src-tauri/src/main.rs:163-177 | Every event updates the snapshot and is forwarded only to an attached UI. |
| Backend.SendCmd | src-tauri/src/main.rs:239-250 | Without a stdin the answer is "backend not running". Otherwise it succeeds exactly when the write does, having written the line. |
| Backend.Shutdown | src-tauri/src/main.rs:252-279 | Shutdown drops the child and stdin, and writes QUIT exactly when a stdin was there. |
| Backend.SpawnRule | src-tauri/src/main.rs:99-161 | While the child runs, spawning is a no-op. Otherwise the snapshot is reset and the spawn succeeds exactly when the launch does. |
| Backend.OperationsKeepPaired | src-tauri/src/main.rs:99-279 | Every operation stores and drops the child and its stdin together. |
| Backend.NothingRunsAfterShutdown | src-tauri/src/main.rs:239-279 | After shutdown every command answers "backend not running". |
| Backend.InitSyncs | src-tauri/src/main.rs:322-334 | A successful `backend_init` whose replay is sent before any event is handled attaches the UI and replays to it exactly the snapshot. |
| Backend.Attach | src-tauri/src/main.rs:326-330 | The locked half of `backend_init`: the spawn's answer, and on success the UI attached and a copy of the snapshot taken for the replay. |
| Backend.InitRaceLeavesStaleView | src-tauri/src/main.rs:322-334 | An event handled between attaching and replaying reaches the UI before the older copy (lines 163-177 forward it after unlocking), so the UI ends on the copied datum while the snapshot holds the new one. |
| Backend.HandleKeepsSync | src-tauri/src/main.rs:163-177 | Forwarded events keep an attached UI's replayed view equal to the snapshot. |
| Backend.CommandLine | src-tauri/src/main.rs:336-367 | Each command is its fixed line; a sensitivity command is "SET_SENS " and the value. |
| Backend.CommandLinesDistinct | src-tauri/src/main.rs:336-367 | Different commands give different lines, and each line is a single line. |
| Backend.BackendState.constructor | src-tauri/src/main.rs:28-34 | The default state: no child, not attached, default snapshot. |
| Backend.BackendState.SpawnMonitor | src-tauri/src/main.rs:99-161 | Spawns as `Spawn` says. |
| Backend.BackendState.HandleMonitorEvent | src-tauri/src/main.rs:163-177 | Handles an event as `HandleEvent` says and keeps the UI in step. |
| Backend.BackendState.OnMonitorLine | src-tauri/src/main.rs:151-158 | A line from the monitor is parsed and, if it is an event, handled, keeping the UI in step. |
| Backend.BackendState.BackendInit | src-tauri/src/main.rs:322-334 | On success the UI is attached and in step with the snapshot. |
| Backend.BackendState.AttachUi | src-tauri/src/main.rs:326-330 | Under the lock the UI is attached and the snapshot copied; the UI's view starts over. |
| Backend.BackendState.EmitReplay | src-tauri/src/main.rs:332 | The copied snapshot is replayed to the UI, after the lock is released, and nothing else changes. |
| Backend.BackendState.SendCmdLine | src-tauri/src/main.rs:239-250 | Writes a command line as `SendCmd` says, changing no state. |
| Backend.BackendState.SendCommand | src-tauri/src/main.rs:336-367 | Each `backend_*` command sends its line. |
| Backend.BackendState.ShutdownMonitor | src-tauri/src/main.rs:252-279 | Shuts down as `Shutdown` says. |

## Left out

- **I/O and platform calls.** These become parameters of the operations:
  raw-input reads, `GetKeyState`, `_kbhit`, `GetTickCount`,
  `SetWindowsHookEx`/`UnhookWindowsHookEx`, `SendInput`, device
  enumeration, and process spawn/`try_wait`/kill. Console and debug output,
  status labels, message boxes and the status line are not modelled.
- **Threads, locks and posted callbacks.** Each handler and each
  lock-protected block is one atomic step, and a posted callback is a later
  event. Mutex poisoning in the backend (the "state lock poisoned" errors) is
  not modelled.
- **Deferred label refresh.** In the newer window, the detection-mode label
  refresh in `OnDeviceMoved` is posted to the window thread. Its reload is
  the `DevicesChanged` event; the label text is not modelled.
- **Reload throttle.** The time-based throttle on reloading when the window
  is activated is not modelled; any reload is a `DevicesChanged` event.
- **Floating point.** The multiplier is a `real`, DPI over 1000. The `f64`
  formatting of the sensitivity text is a string parameter of
  `SetSensitivity`.
- **Case folding and white space.** Ordinal ignore-case comparison folds
  ASCII letters only. The white-space set is the one .NET and Rust share.
- **DeviceList.MakeList:** the culture-sensitive `List.Sort` by
  `String::Compare` is not modelled. The sorted entries are a parameter that
  must be a permutation of the enumeration. `GroupIdsDistinct` assumes that
  equal ids end up adjacent. A culture comparison that rates two different
  ids as equal could interleave them and is not modelled.
- **The driver library.** `DriverConfig` loading, `Errors()`, the compiled
  `ManagedAccel` internals and the driver write are stand-ins. Loading is
  the configuration given to `Apply`, `Errors()` is a string parameter, and a
  compiled profile is its profile. Aliasing between managed objects is not
  modelled.
- **SettingsService.GetMultiplier** (lines 45-48) is the one-line division
  `Multiplier`. It has no contract of its own.
- **Backend.ParseMonitorLine:** the event's data is the JSON object
  `{"raw": <text>}`. The model keeps only the text, which is always
  present, and not the JSON value around it.
- **Backend.BackendState.SendCmdLine:** a failed write is modelled as
  writing nothing. A partial write before the error is not modelled.
- **Backend.InitSyncs:** holds only when no monitor event is handled
  between the attach and the replay. The source does not guarantee this;
  `InitRaceLeavesStaleView` shows what happens otherwise.
- **Backend.BackendState.BackendInit:** the UI is in step afterwards only
  when the call succeeds. A failed respawn after the child exited resets
  the snapshot while the UI stays attached, and no replay follows, so
  nothing is claimed then.
- **Backend.BackendState.SpawnMonitor:** only the parts of the UI-sync
  invariant it keeps are stated; it resets the snapshot without replaying.
- **The reader thread.** It is the per-line method `OnMonitorLine`.
  End-of-stream and read errors, which only stop the thread, are not
  modelled.
- **Outside the modelled core.** `main`'s window setup and exit hook, the
  `ui_state.json` persistence and `emit_all` delivery are not part of this
  model. Neither are the UI (`App.jsx`), `Program.cs`, `RawInputInterop.cs`,
  the packaging script and the archived prototypes.
- **MouseMonitor.Monitor.HandleRawInput:** the window and class
  registration around the handler is not modelled, nor the
  `DefWindowProc` results of other messages.
- **MouseMonitor.OnInput after quit:** the model lets any number of inputs
  follow the quit. The message loop handles at most the message it was
  already waiting for, so the model allows more runs than the program.

## Findings

| source | as written | input that shows it | evidently intended | confidence | as-written member | corrected member |
|---|---|---|---|---|---|---|
| dual-sens-manager/MainForm.cs:244-270 | The legacy window binds a detected mouse to one side without clearing it from the other, so one mouse can hold both sides, and `Apply` upserts that one entry twice (SettingsService.cs lines 90-91). | Detect the left side with mouse M, then the right side with M, then apply: M ends on the left profile and no device keeps the first profile. | The two sides hold different mice, as the newer window ensures by dropping the duplicate (src/dual-sens-manager/MainForm.cs:625-644). | not executed | LegacyMainForm.SameMouseOnBothSides | MainForm.DistinctSidesMapBothDevices |
| src-tauri/src/main.rs:322-334 | `backend_init` attaches the UI and copies the snapshot under the lock, then replays the copy after releasing it; `handle_monitor_event` (lines 163-177) also forwards after releasing the lock. | The snapshot holds SCAN_PROGRESS "a"; `backend_init` attaches and copies it; the reader thread stores and forwards "b"; the replay then sends "a". The UI shows "a" while the snapshot holds "b". | The UI ends in step with the snapshot, as when the replay is sent before any later event. | not executed | Backend.InitRaceLeavesStaleView | Backend.InitSyncs |
| mouse_monitor.cpp:66-134 | The window procedure handles `WM_INPUT` without testing `g_running`. The message loop (line 185) tests it only between messages, and `WM_QUIT` is posted only after the main loop has ended (lines 269-272). | Caps Lock goes on, `q` is pressed with the button up (lines 228-237), then the motion the message thread was waiting for arrives: it presses the left button, and no loop iteration is left to release it. | Input that arrives after quit is dropped, so nothing is held once the program exits. | not executed | MouseMonitor.PressAfterQuitStaysHeld | MouseMonitor.GuardedInputKeepsReleased |
