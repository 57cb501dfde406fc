/** The driver-configuration bookkeeping behind "Apply": the handle-to-device
    lookup, the name of the left-hand profile, and the device-to-profile
    mapping written back to the driver. */
module SettingsService {
  import opened Wrappers
  import Text
  import opened DeviceList

  /** A profile's multiplier is its output DPI over this. */
  const NormalizedDpi: real := 1000.0

  // ---------------------------------------------------------------------
  // Handle lookup
  // ---------------------------------------------------------------------

  /** The index of the first device, in enumeration order, that owns handle
      `h`; -1 when no device does. */
  function OwnerIndex(devices: seq<MultiHandleDevice>, h: int): (k: int)
    ensures -1 <= k < |devices|
    ensures k >= 0 ==> h in devices[k].handles
    ensures forall j :: 0 <= j < |devices| && (k < 0 || j < k) ==> h !in devices[j].handles
    decreases |devices|
  {
    if devices == [] then -1
    else
      var k := OwnerIndex(devices[..|devices| - 1], h);
      if k >= 0 then k
      else if h in devices[|devices| - 1].handles then |devices| - 1
      else -1
  }

  /** Every handle some device owns. */
  function OwnedHandles(devices: seq<MultiHandleDevice>): set<int> {
    set k, h | 0 <= k < |devices| && h in devices[k].handles :: h
  }

  /** The handle lookup as a value: each owned handle to its first owner. */
  function HandleLookup(devices: seq<MultiHandleDevice>): (m: map<int, MultiHandleDevice>)
    ensures forall h :: h in m <==> OwnerIndex(devices, h) >= 0
    ensures forall h :: h in m ==> m[h] == devices[OwnerIndex(devices, h)]
  {
    map h | h in OwnedHandles(devices) :: devices[OwnerIndex(devices, h)]
  }

  /** Maps every handle of every device to its device; a handle shared by
      several devices goes to the first of them. */
  method BuildHandleLookup(devices: seq<MultiHandleDevice>) returns (m: map<int, MultiHandleDevice>)
    ensures forall h :: h in m <==> OwnerIndex(devices, h) >= 0
    ensures forall h :: h in m ==> m[h] == devices[OwnerIndex(devices, h)]
    ensures m == HandleLookup(devices)
  {
    m := map[];
    var i := 0;
    while i < |devices|
      invariant 0 <= i <= |devices|
      invariant forall h :: h in m <==> OwnerIndex(devices[..i], h) >= 0
      invariant forall h :: h in m ==> m[h] == devices[OwnerIndex(devices[..i], h)]
    {
      m := AddHandles(m, devices[i]);
      OwnerIndexSnoc(devices, i);
      i := i + 1;
    }
    assert devices[..i] == devices;
    LookupIsUnique(devices, m);
  }

  /** The two properties of the lookup pin the map down. */
  lemma LookupIsUnique(devices: seq<MultiHandleDevice>, m: map<int, MultiHandleDevice>)
    requires forall h :: h in m <==> OwnerIndex(devices, h) >= 0
    requires forall h :: h in m ==> m[h] == devices[OwnerIndex(devices, h)]
    ensures m == HandleLookup(devices)
  {
    var lookup := HandleLookup(devices);
    assert forall h :: h in m.Keys <==> h in lookup.Keys;
    assert m.Keys == lookup.Keys;
  }

  /** The inner loop: each handle of `device` not yet in the map is mapped
      to it; entries already there stay. */
  method AddHandles(m0: map<int, MultiHandleDevice>, device: MultiHandleDevice)
    returns (m: map<int, MultiHandleDevice>)
    ensures forall h :: h in m <==> h in m0 || h in device.handles
    ensures forall h :: h in m0 ==> m[h] == m0[h]
    ensures forall h :: h in m && h !in m0 ==> m[h] == device
  {
    m := m0;
    var j := 0;
    while j < |device.handles|
      invariant 0 <= j <= |device.handles|
      invariant forall h :: h in m <==> h in m0 || h in device.handles[..j]
      invariant forall h :: h in m0 ==> m[h] == m0[h]
      invariant forall h :: h in m && h !in m0 ==> m[h] == device
    {
      var handle := device.handles[j];
      if handle !in m {
        m := m[handle := device];
      }
      assert device.handles[..j + 1] == device.handles[..j] + [handle];
      j := j + 1;
    }
    assert device.handles[..j] == device.handles;
  }

  /** Looking at one more device only decides the handles no earlier device
      owns. */
  lemma OwnerIndexSnoc(devices: seq<MultiHandleDevice>, i: nat)
    requires i < |devices|
    ensures forall h :: OwnerIndex(devices[..i + 1], h) ==
              if OwnerIndex(devices[..i], h) >= 0 then OwnerIndex(devices[..i], h)
              else if h in devices[i].handles then i
              else -1
  {
    assert devices[..i + 1][..i] == devices[..i];
  }

  // ---------------------------------------------------------------------
  // The left-hand profile name
  // ---------------------------------------------------------------------

  /** The name of the profile the left-hand mouse is given: "LeftHand" for a
      blank base name; otherwise the trimmed base name, marked with
      " (Left)" unless it already ends in "(Left)" in any letter case. */
  function BuildLeftProfileName(baseName: string): (r: string)
    ensures !Text.IsBlank(r)
    ensures Text.IsBlank(baseName) ==> r == "LeftHand"
    ensures !Text.IsBlank(baseName) ==>
              && Text.StartsWith(r, Text.Trim(baseName))
              && Text.EndsWithIgnoreCase(r, "(Left)")
              && (r == Text.Trim(baseName) <==> Text.EndsWithIgnoreCase(Text.Trim(baseName), "(Left)"))
    ensures !Text.IsBlank(baseName) && !Text.EndsWithIgnoreCase(Text.Trim(baseName), "(Left)") ==>
              r == Text.Trim(baseName) + " (Left)"
  {
    if Text.IsBlank(baseName) then
      assert !Text.IsWhiteSpace("LeftHand"[0]);
      "LeftHand"
    else
      var trimmed := Text.Trim(baseName);
      Text.TrimShape(baseName);
      Text.TrimEmptyIffBlank(baseName);
      assert !Text.IsWhiteSpace(trimmed[0]);
      if Text.EndsWithIgnoreCase(trimmed, "(Left)") then trimmed
      else
        var r := trimmed + " (Left)";
        assert r[..|trimmed|] == trimmed;
        assert r[|r| - 6..] == "(Left)";
        assert r[0] == trimmed[0];
        r
  }

  /** Deriving the left name from a left name changes nothing, as long as
      the base name was not blank. */
  lemma LeftProfileNameIdempotent(baseName: string)
    requires !Text.IsBlank(baseName)
    ensures BuildLeftProfileName(BuildLeftProfileName(baseName)) == BuildLeftProfileName(baseName)
  {
    var trimmed := Text.Trim(baseName);
    var r := BuildLeftProfileName(baseName);
    Text.TrimShape(baseName);
    Text.TrimEmptyIffBlank(baseName);
    assert !Text.IsWhiteSpace(r[0]) by {
      assert r[..|trimmed|] == trimmed;
      assert r[0] == trimmed[0];
    }
    assert !Text.IsWhiteSpace(r[|r| - 1]) by {
      if r == trimmed {
      } else {
        assert r[|r| - 1] == ')';
      }
    }
    Text.TrimOfTrimmed(r);
  }

  // ---------------------------------------------------------------------
  // Driver configuration records
  // ---------------------------------------------------------------------

  /** A driver profile: its name, its output DPI and the acceleration
      settings that are carried over unchanged. */
  datatype Profile = Profile(name: string, outputDpi: real, curve: seq<real>)

  /** The driver's compiled form of a profile. */
  datatype ManagedAccel = ManagedAccel(settings: Profile)

  /** The driver's per-device options. */
  datatype DeviceConfig = DeviceConfig(disable: bool, dpi: int, pollingRate: int)

  /** A device entry: which device (by id) uses which profile (by name). */
  datatype DeviceSettings = DeviceSettings(id: string, name: string, profile: string, config: DeviceConfig)

  /** The configuration object: profiles with their compiled forms, the
      device entries, the options new devices start with, and whether it has
      been activated in the driver. */
  datatype Config = Config(
    profiles: seq<Profile>,
    accels: seq<ManagedAccel>,
    devices: seq<DeviceSettings>,
    defaultDeviceConfig: DeviceConfig,
    activated: bool)

  function Multiplier(p: Profile): real {
    p.outputDpi / NormalizedDpi
  }

  /** The base profile's settings under a new name and DPI. */
  function CloneProfile(sourceAccel: ManagedAccel, profileName: string, multiplier: real): (p: Profile)
    ensures p.name == profileName && Multiplier(p) == multiplier
    ensures p.curve == sourceAccel.settings.curve
  {
    sourceAccel.settings.(name := profileName, outputDpi := multiplier * NormalizedDpi)
  }

  // ---------------------------------------------------------------------
  // Profile search
  // ---------------------------------------------------------------------

  /** The least index whose profile name equals `name` ignoring case, or -1. */
  function ProfileIndexOf(profiles: seq<Profile>, name: string): (k: int)
    ensures -1 <= k < |profiles|
    ensures k >= 0 ==> Text.EqualsIgnoreCase(profiles[k].name, name)
    ensures forall j :: 0 <= j < |profiles| && (k < 0 || j < k) ==> !Text.EqualsIgnoreCase(profiles[j].name, name)
  {
    Text.IndexIgnoringCase(profiles, (p: Profile) => p.name, name)
  }

  /** The device entries whose id is exactly `id` (case-sensitive): the
      first one, or -1. */
  function DeviceIndexOf(devices: seq<DeviceSettings>, id: string): (k: int)
    ensures -1 <= k < |devices|
    ensures k >= 0 ==> devices[k].id == id
    ensures forall j :: 0 <= j < |devices| && (k < 0 || j < k) ==> devices[j].id != id
    decreases |devices|
  {
    if devices == [] then -1
    else if devices[0].id == id then 0
    else
      var k := DeviceIndexOf(devices[1..], id);
      if k < 0 then -1 else k + 1
  }

  // ---------------------------------------------------------------------
  // Device upsert
  // ---------------------------------------------------------------------

  /** The device entries after `UpdateDevice`. The first entry with exactly
      this id, or else a new entry appended with the default options and the
      given name (the id when the name is blank), is pointed at the profile;
      an existing entry's name is filled in only when it is blank and the
      given one is not. */
  function UpdatedDevices(devices: seq<DeviceSettings>, defaultConfig: DeviceConfig,
                          deviceId: string, deviceName: string, profileName: string): (r: seq<DeviceSettings>)
    ensures var k := DeviceIndexOf(devices, deviceId);
            && |r| == (if k >= 0 then |devices| else |devices| + 1)
            && (forall j :: 0 <= j < |devices| && j != k ==> r[j] == devices[j])
            && (k >= 0 ==> r[k] == devices[k].(
                  name := if Text.IsBlank(devices[k].name) && !Text.IsBlank(deviceName) then deviceName else devices[k].name,
                  profile := profileName))
            && (k < 0 ==>
                  r[|devices|] ==
                  DeviceSettings(deviceId, if Text.IsBlank(deviceName) then deviceId else deviceName, profileName, defaultConfig))
  {
    var k := DeviceIndexOf(devices, deviceId);
    if k >= 0 then
      var target := devices[k];
      var name := if Text.IsBlank(target.name) && !Text.IsBlank(deviceName) then deviceName else target.name;
      devices[k := target.(name := name, profile := profileName)]
    else
      var name := if Text.IsBlank(deviceName) then deviceId else deviceName;
      devices + [DeviceSettings(deviceId, name, profileName, defaultConfig)]
  }

  /** After the upsert, looking the id up finds the entry that was updated
      (or appended), and it uses the profile; the list grew by at most one
      entry, and only when the id was not there. */
  lemma UpdatedDeviceIsFound(devices: seq<DeviceSettings>, defaultConfig: DeviceConfig,
                             deviceId: string, deviceName: string, profileName: string)
    ensures var r := UpdatedDevices(devices, defaultConfig, deviceId, deviceName, profileName);
            var k := DeviceIndexOf(devices, deviceId);
            && DeviceIndexOf(r, deviceId) == (if k >= 0 then k else |devices|)
            && r[DeviceIndexOf(r, deviceId)].profile == profileName
            && ((!Text.IsBlank(deviceName) || (!Text.IsBlank(deviceId) && k < 0)) ==>
                  !Text.IsBlank(r[DeviceIndexOf(r, deviceId)].name))
  {
    var r := UpdatedDevices(devices, defaultConfig, deviceId, deviceName, profileName);
    var k := DeviceIndexOf(devices, deviceId);
    var k' := DeviceIndexOf(r, deviceId);
    if k < 0 {
      assert r[|devices|].id == deviceId;
    }
  }

  /** Updating one id leaves the lookup of any other id, and the entry it
      finds, as they were. */
  lemma UpdateKeepsOtherDevices(devices: seq<DeviceSettings>, defaultConfig: DeviceConfig,
                                deviceId: string, deviceName: string, profileName: string, otherId: string)
    requires otherId != deviceId
    ensures var r := UpdatedDevices(devices, defaultConfig, deviceId, deviceName, profileName);
            && DeviceIndexOf(r, otherId) == DeviceIndexOf(devices, otherId)
            && (DeviceIndexOf(devices, otherId) >= 0 ==>
                  r[DeviceIndexOf(r, otherId)] == devices[DeviceIndexOf(devices, otherId)])
  {
    var r := UpdatedDevices(devices, defaultConfig, deviceId, deviceName, profileName);
    var k := DeviceIndexOf(devices, deviceId);
    var o := DeviceIndexOf(devices, otherId);
    assert forall j :: 0 <= j < |r| ==> (r[j].id == otherId <==> j < |devices| && devices[j].id == otherId) by {
      forall j | 0 <= j < |r|
        ensures r[j].id == otherId <==> j < |devices| && devices[j].id == otherId
      {
        if j == k || j == |devices| {
        }
      }
    }
    var o' := DeviceIndexOf(r, otherId);
    if o >= 0 {
      assert o' <= o;
    }
  }

  /** Doing the same upsert twice is the same as doing it once. */
  lemma UpdateDeviceIdempotent(devices: seq<DeviceSettings>, defaultConfig: DeviceConfig,
                               deviceId: string, deviceName: string, profileName: string)
    ensures var r := UpdatedDevices(devices, defaultConfig, deviceId, deviceName, profileName);
            UpdatedDevices(r, defaultConfig, deviceId, deviceName, profileName) == r
  {
    var r := UpdatedDevices(devices, defaultConfig, deviceId, deviceName, profileName);
    UpdatedDeviceIsFound(devices, defaultConfig, deviceId, deviceName, profileName);
    var r2 := UpdatedDevices(r, defaultConfig, deviceId, deviceName, profileName);
    var k := DeviceIndexOf(r, deviceId);
    assert |r2| == |r|;
    assert r2[k] == r[k];
    assert forall j :: 0 <= j < |r| ==> r2[j] == r[j];
  }

  // ---------------------------------------------------------------------
  // Apply
  // ---------------------------------------------------------------------

  /** What `Apply` throws, in the order it checks. */
  datatype ApplyError =
    | RightDeviceMissing
    | LeftDeviceMissing
    | MultiplierNotPositive
    | NoProfiles
    | DriverRejected(errors: string)

  /** The multipliers now in effect for each hand. */
  datatype ApplyResult = ApplyResult(rightMultiplier: real, leftMultiplier: real)

  /** The argument checks made before the configuration is loaded. */
  function ValidateArguments(rightId: string, leftId: string, leftMultiplier: real): (e: Option<ApplyError>)
    ensures e.None? <==> !Text.IsBlank(rightId) && !Text.IsBlank(leftId) && leftMultiplier > 0.0
    ensures Text.IsBlank(rightId) ==> e == Some(RightDeviceMissing)
    ensures !Text.IsBlank(rightId) && Text.IsBlank(leftId) ==> e == Some(LeftDeviceMissing)
    ensures !Text.IsBlank(rightId) && !Text.IsBlank(leftId) && leftMultiplier <= 0.0 ==> e == Some(MultiplierNotPositive)
  {
    if Text.IsBlank(rightId) then Some(RightDeviceMissing)
    else if Text.IsBlank(leftId) then Some(LeftDeviceMissing)
    else if leftMultiplier <= 0.0 then Some(MultiplierNotPositive)
    else None
  }

  /** The left profile, built from the first compiled profile, replaces the
      profile (and compiled profile) of the same name, or is appended to
      both lists. */
  function UpsertLeftProfile(c: Config, leftProfileName: string, leftMultiplier: real): (r: Config)
    requires |c.profiles| == |c.accels| > 0
    ensures |r.profiles| == |r.accels|
    ensures var i := ProfileIndexOf(c.profiles, leftProfileName);
            |r.profiles| == if i >= 0 then |c.profiles| else |c.profiles| + 1
    ensures r.devices == c.devices && r.defaultDeviceConfig == c.defaultDeviceConfig && r.activated == c.activated
  {
    var p := CloneProfile(c.accels[0], leftProfileName, leftMultiplier);
    var i := ProfileIndexOf(c.profiles, leftProfileName);
    if i >= 0 then c.(profiles := c.profiles[i := p], accels := c.accels[i := ManagedAccel(p)])
    else c.(profiles := c.profiles + [p], accels := c.accels + [ManagedAccel(p)])
  }

  /** `Apply`, with `errors` standing for what the driver's own check of the
      edited configuration reports (empty when it accepts it). On success
      the edited configuration is activated. */
  function ApplyConfig(c: Config, rightId: string, rightName: string, leftId: string, leftName: string,
                       leftMultiplier: real, errors: string): (r: (Result<ApplyResult, ApplyError>, Config))
    requires |c.profiles| == |c.accels|
    ensures ValidateArguments(rightId, leftId, leftMultiplier).Some? ==>
              r == (Err(ValidateArguments(rightId, leftId, leftMultiplier).value), c)
    ensures ValidateArguments(rightId, leftId, leftMultiplier).None? && c.profiles == [] ==>
              r == (Err(NoProfiles), c)
    ensures r.0.Ok? <==> ValidateArguments(rightId, leftId, leftMultiplier).None? && c.profiles != [] && errors == []
    ensures r.0.Ok? ==> r.0.value == ApplyResult(Multiplier(c.profiles[0]), leftMultiplier) && r.1.activated
    ensures r.0.Err? && r.0.error.DriverRejected? ==> r.0.error.errors == errors && r.1.activated == c.activated
  {
    var invalid := ValidateArguments(rightId, leftId, leftMultiplier);
    if invalid.Some? then (Err(invalid.value), c)
    else if |c.profiles| == 0 then (Err(NoProfiles), c)
    else
      var baseProfile := c.profiles[0];
      var leftProfileName := BuildLeftProfileName(baseProfile.name);
      var c1 := UpsertLeftProfile(c, leftProfileName, leftMultiplier);
      var d1 := UpdatedDevices(c1.devices, c1.defaultDeviceConfig, rightId, rightName, baseProfile.name);
      var d2 := UpdatedDevices(d1, c1.defaultDeviceConfig, leftId, leftName, leftProfileName);
      var c2 := c1.(devices := d2);
      if errors != [] then (Err(DriverRejected(errors)), c2)
      else (Ok(ApplyResult(Multiplier(baseProfile), leftMultiplier)), c2.(activated := true))
  }

  /** Whatever the outcome, profiles and compiled profiles stay in step. */
  lemma ApplyKeepsProfilesInStep(c: Config, rightId: string, rightName: string, leftId: string, leftName: string,
                                 leftMultiplier: real, errors: string)
    requires |c.profiles| == |c.accels|
    ensures var r := ApplyConfig(c, rightId, rightName, leftId, leftName, leftMultiplier, errors).1;
            |r.profiles| == |r.accels|
  {
  }

  /** After a successful apply the left profile exists under the derived
      name with the requested multiplier, its compiled form matches it, the
      right device uses the first profile and the left device the left
      profile (when the two ids differ). */
  lemma ApplyMapsBothDevices(c: Config, rightId: string, rightName: string, leftId: string, leftName: string,
                             leftMultiplier: real, errors: string)
    requires |c.profiles| == |c.accels|
    requires rightId != leftId
    ensures var a := ApplyConfig(c, rightId, rightName, leftId, leftName, leftMultiplier, errors);
            var r := a.1;
            a.0.Ok? ==>
              var leftProfileName := BuildLeftProfileName(c.profiles[0].name);
              var i := ProfileIndexOf(r.profiles, leftProfileName);
              && i >= 0
              && r.profiles[i].name == leftProfileName
              && Multiplier(r.profiles[i]) == leftMultiplier
              && r.accels[i] == ManagedAccel(r.profiles[i])
              && DeviceIndexOf(r.devices, rightId) >= 0
              && r.devices[DeviceIndexOf(r.devices, rightId)].profile == c.profiles[0].name
              && DeviceIndexOf(r.devices, leftId) >= 0
              && r.devices[DeviceIndexOf(r.devices, leftId)].profile == leftProfileName
  {
    var a := ApplyConfig(c, rightId, rightName, leftId, leftName, leftMultiplier, errors);
    if a.0.Ok? {
      var baseName := c.profiles[0].name;
      var leftProfileName := BuildLeftProfileName(baseName);
      var c1 := UpsertLeftProfile(c, leftProfileName, leftMultiplier);
      LeftProfileIsFound(c, leftProfileName, leftMultiplier);
      var d1 := UpdatedDevices(c1.devices, c1.defaultDeviceConfig, rightId, rightName, baseName);
      UpdatedDeviceIsFound(c1.devices, c1.defaultDeviceConfig, rightId, rightName, baseName);
      UpdatedDeviceIsFound(d1, c1.defaultDeviceConfig, leftId, leftName, leftProfileName);
      UpdateKeepsOtherDevices(d1, c1.defaultDeviceConfig, leftId, leftName, leftProfileName, rightId);
    }
  }

  /** When both sides name the same device, the two upserts hit one entry
      and the second wins: after a successful apply that device uses the
      left profile, and at most one entry was added. */
  lemma ApplySameIdUsesLeftProfile(c: Config, id: string, rightName: string, leftName: string,
                                   leftMultiplier: real, errors: string)
    requires |c.profiles| == |c.accels|
    ensures var a := ApplyConfig(c, id, rightName, id, leftName, leftMultiplier, errors);
            var r := a.1;
            a.0.Ok? ==>
              && DeviceIndexOf(r.devices, id) >= 0
              && r.devices[DeviceIndexOf(r.devices, id)].profile == BuildLeftProfileName(c.profiles[0].name)
              && |r.devices| <= |c.devices| + 1
  {
    var a := ApplyConfig(c, id, rightName, id, leftName, leftMultiplier, errors);
    if a.0.Ok? {
      var baseName := c.profiles[0].name;
      var leftProfileName := BuildLeftProfileName(baseName);
      var c1 := UpsertLeftProfile(c, leftProfileName, leftMultiplier);
      var d1 := UpdatedDevices(c1.devices, c1.defaultDeviceConfig, id, rightName, baseName);
      UpdatedDeviceIsFound(c1.devices, c1.defaultDeviceConfig, id, rightName, baseName);
      UpdatedDeviceIsFound(d1, c1.defaultDeviceConfig, id, leftName, leftProfileName);
    }
  }

  /** The upserted left profile is what a search for its name finds. */
  lemma LeftProfileIsFound(c: Config, leftProfileName: string, leftMultiplier: real)
    requires |c.profiles| == |c.accels| > 0
    ensures var r := UpsertLeftProfile(c, leftProfileName, leftMultiplier);
            var i := ProfileIndexOf(r.profiles, leftProfileName);
            && i >= 0
            && r.profiles[i] == CloneProfile(c.accels[0], leftProfileName, leftMultiplier)
            && r.accels[i] == ManagedAccel(r.profiles[i])
            && (forall j :: 0 <= j < |c.profiles| && j != i ==> r.profiles[j] == c.profiles[j])
  {
    var r := UpsertLeftProfile(c, leftProfileName, leftMultiplier);
    var i := ProfileIndexOf(c.profiles, leftProfileName);
    var p := CloneProfile(c.accels[0], leftProfileName, leftMultiplier);
    Text.EqualsIgnoreCaseEquivalence(p.name, leftProfileName, leftProfileName);
    var i' := ProfileIndexOf(r.profiles, leftProfileName);
    if i >= 0 {
      assert r.profiles[i] == p;
      assert forall j :: 0 <= j < i ==> r.profiles[j] == c.profiles[j];
      assert i' == i;
    } else {
      assert r.profiles[|c.profiles|] == p;
      assert forall j :: 0 <= j < |c.profiles| ==> r.profiles[j] == c.profiles[j];
      assert i' == |c.profiles|;
    }
  }

  /** When the first profile's name already ends in "(Left)" (and has no
      surrounding white space), the "left" profile is the first profile
      itself: it is overwritten with the left multiplier, and both devices
      end up on it. */
  lemma LeftNamedBaseProfileIsShared(c: Config, rightId: string, rightName: string, leftId: string, leftName: string,
                                     leftMultiplier: real, errors: string)
    requires |c.profiles| == |c.accels| > 0
    requires !Text.IsBlank(c.profiles[0].name) && Text.Trim(c.profiles[0].name) == c.profiles[0].name
    requires Text.EndsWithIgnoreCase(c.profiles[0].name, "(Left)")
    ensures var a := ApplyConfig(c, rightId, rightName, leftId, leftName, leftMultiplier, errors);
            var r := a.1;
            a.0.Ok? ==> ProfileIndexOf(r.profiles, c.profiles[0].name) == 0 && Multiplier(r.profiles[0]) == leftMultiplier
  {
    var baseName := c.profiles[0].name;
    assert BuildLeftProfileName(baseName) == baseName;
    Text.EqualsIgnoreCaseEquivalence(baseName, baseName, baseName);
    assert ProfileIndexOf(c.profiles, baseName) == 0;
    LeftProfileIsFound(c, baseName, leftMultiplier);
  }

  // ---------------------------------------------------------------------
  // The configuration object and the imperative operations
  // ---------------------------------------------------------------------

  class DriverConfig {
    var profiles: seq<Profile>
    var accels: seq<ManagedAccel>
    var devices: seq<DeviceSettings>
    const defaultDeviceConfig: DeviceConfig
    var activated: bool

    function State(): Config
      reads this
    {
      Config(profiles, accels, devices, defaultDeviceConfig, activated)
    }

    /** Each profile has its compiled form at the same index. */
    predicate Valid()
      reads this
    {
      |profiles| == |accels|
    }

    /** The configuration the driver reports as active. */
    constructor (profiles: seq<Profile>, devices: seq<DeviceSettings>, defaultDeviceConfig: DeviceConfig)
      ensures Valid()
      ensures State() == Config(profiles, seq(|profiles|, i requires 0 <= i < |profiles| => ManagedAccel(profiles[i])),
                                devices, defaultDeviceConfig, false)
    {
      this.profiles := profiles;
      this.accels := seq(|profiles|, i requires 0 <= i < |profiles| => ManagedAccel(profiles[i]));
      this.devices := devices;
      this.defaultDeviceConfig := defaultDeviceConfig;
      this.activated := false;
    }

    /** Replaces a profile and its compiled form. */
    method SetProfileAt(index: nat, p: Profile)
      requires Valid() && index < |profiles|
      modifies this
      ensures Valid()
      ensures State() == old(State()).(profiles := old(profiles)[index := p], accels := old(accels)[index := ManagedAccel(p)])
    {
      profiles := profiles[index := p];
      accels := accels[index := ManagedAccel(p)];
    }

    method Activate()
      modifies this
      ensures State() == old(State()).(activated := true)
    {
      activated := true;
    }
  }

  /** The first profile whose name equals `name` ignoring case, or -1. */
  method FindProfileIndex(config: DriverConfig, name: string) returns (index: int)
    ensures index == ProfileIndexOf(config.profiles, name)
  {
    var i := 0;
    while i < |config.profiles|
      invariant 0 <= i <= |config.profiles|
      invariant forall j :: 0 <= j < i ==> !Text.EqualsIgnoreCase(config.profiles[j].name, name)
    {
      if Text.EqualsIgnoreCase(config.profiles[i].name, name) {
        return i;
      }
      i := i + 1;
    }
    return -1;
  }

  method UpdateDevice(config: DriverConfig, deviceId: string, deviceName: string, profileName: string)
    modifies config
    ensures config.State() == old(config.State()).(devices :=
              UpdatedDevices(old(config.devices), config.defaultDeviceConfig, deviceId, deviceName, profileName))
  {
    var k := DeviceIndexOf(config.devices, deviceId);
    var target: DeviceSettings;
    if k < 0 {
      var name := if Text.IsBlank(deviceName) then deviceId else deviceName;
      target := DeviceSettings(deviceId, name, "", config.defaultDeviceConfig);
      config.devices := config.devices + [target];
      k := |config.devices| - 1;
    } else {
      target := config.devices[k];
    }
    if Text.IsBlank(target.name) && !Text.IsBlank(deviceName) {
      target := target.(name := deviceName);
    }
    target := target.(profile := profileName);
    config.devices := config.devices[k := target];
  }

  /** The profile upsert inside `Apply`: replace the profile of the same
      name (ignoring case), or append it with its compiled form. */
  method PutLeftProfile(config: DriverConfig, leftProfileName: string, leftProfile: Profile)
    requires config.Valid()
    modifies config
    ensures config.Valid()
    ensures var i := ProfileIndexOf(old(config.profiles), leftProfileName);
            config.State() ==
            if i >= 0 then old(config.State()).(profiles := old(config.profiles)[i := leftProfile],
                                                accels := old(config.accels)[i := ManagedAccel(leftProfile)])
            else old(config.State()).(profiles := old(config.profiles) + [leftProfile],
                                      accels := old(config.accels) + [ManagedAccel(leftProfile)])
  {
    var leftIndex := FindProfileIndex(config, leftProfileName);
    if leftIndex >= 0 {
      config.SetProfileAt(leftIndex, leftProfile);
    } else {
      config.profiles := config.profiles + [leftProfile];
      config.accels := config.accels + [ManagedAccel(leftProfile)];
    }
  }

  /** `Apply`: `config` is the configuration loading would return and
      `errors` what its error check would report. */
  method Apply(config: DriverConfig, rightId: string, rightName: string, leftId: string, leftName: string,
               leftMultiplier: real, errors: string) returns (r: Result<ApplyResult, ApplyError>)
    requires config.Valid()
    modifies config
    ensures config.Valid()
    ensures (r, config.State()) ==
            ApplyConfig(old(config.State()), rightId, rightName, leftId, leftName, leftMultiplier, errors)
  {
    if Text.IsBlank(rightId) {
      return Err(RightDeviceMissing);
    }
    if Text.IsBlank(leftId) {
      return Err(LeftDeviceMissing);
    }
    if leftMultiplier <= 0.0 {
      return Err(MultiplierNotPositive);
    }
    if |config.profiles| == 0 {
      return Err(NoProfiles);
    }

    var baseProfile := config.profiles[0];
    var baseMultiplier := Multiplier(baseProfile);

    var leftProfileName := BuildLeftProfileName(baseProfile.name);
    var leftProfile := CloneProfile(config.accels[0], leftProfileName, leftMultiplier);

    PutLeftProfile(config, leftProfileName, leftProfile);
    assert config.State() == UpsertLeftProfile(old(config.State()), leftProfileName, leftMultiplier);

    UpdateDevice(config, rightId, rightName, baseProfile.name);
    UpdateDevice(config, leftId, leftName, leftProfileName);

    if errors != [] {
      return Err(DriverRejected(errors));
    }

    config.Activate();

    return Ok(ApplyResult(baseMultiplier, leftMultiplier));
  }
}
