/** Which physical mouse is bound to each side of the dual-sensitivity
    setup, and which side a detection round is currently filling in. */
module DeviceSelection {
  import Wrappers
  import Text

  datatype DetectionTarget = None | Left | Right

  /** The five properties of the selection object. Ids and names are never
      null: the detection result maps null to the empty string. */
  datatype Selection = Selection(
    target: DetectionTarget,
    leftId: string,
    rightId: string,
    leftName: string,
    rightName: string)

  /** A fresh selection: no detection running and both sides empty. */
  function Initial(): Selection {
    Selection(None, "", "", "", "")
  }

  /** The `?? string.Empty` coalescing of a nullable string. */
  function OrEmpty(s: Wrappers.Option<string>): string {
    if s.Some? then s.value else ""
  }

  /** Starting a detection round only records the side being detected. */
  function Begin(s: Selection, target: DetectionTarget): (r: Selection)
    ensures r.target == target
    ensures r.(target := s.target) == s
  {
    s.(target := target)
  }

  /** Applies a detected device to the side a round is filling in. Refused,
      with nothing changed, when no round is running; otherwise the targeted
      side takes the (coalesced) id and name, the other side is untouched,
      and the round ends. */
  function Apply(s: Selection, id: Wrappers.Option<string>, name: Wrappers.Option<string>): (r: (bool, Selection))
    ensures r.0 <==> s.target != None
    ensures !r.0 ==> r.1 == s
    ensures r.0 ==> r.1.target == None
    ensures s.target == Left ==>
              && r.1.leftId == OrEmpty(id) && r.1.leftName == OrEmpty(name)
              && r.1.rightId == s.rightId && r.1.rightName == s.rightName
    ensures s.target == Right ==>
              && r.1.rightId == OrEmpty(id) && r.1.rightName == OrEmpty(name)
              && r.1.leftId == s.leftId && r.1.leftName == s.leftName
  {
    match s.target
    case None => (false, s)
    case Left => (true, s.(leftId := OrEmpty(id), leftName := OrEmpty(name), target := None))
    case Right => (true, s.(rightId := OrEmpty(id), rightName := OrEmpty(name), target := None))
  }

  /** Forgets the device on one side; `None` forgets nothing. The running
      round, if any, is not affected. */
  function Clear(s: Selection, target: DetectionTarget): (r: Selection)
    ensures r.target == s.target
    ensures target == Left ==>
              r.leftId == "" && r.leftName == "" && r.rightId == s.rightId && r.rightName == s.rightName
    ensures target == Right ==>
              r.rightId == "" && r.rightName == "" && r.leftId == s.leftId && r.leftName == s.leftName
    ensures target == None ==> r == s
  {
    match target
    case None => s
    case Left => s.(leftId := "", leftName := "")
    case Right => s.(rightId := "", rightName := "")
  }

  /** Both sides carry an id that is not null, empty or white space. */
  predicate HasBothDevices(s: Selection) {
    !Text.IsBlank(s.leftId) && !Text.IsBlank(s.rightId)
  }

  /** `IsNullOrWhiteSpace` is the same test as "trims to nothing", so both
      sides are set exactly when both ids keep something after trimming. */
  lemma HasBothDevicesIffTrimmedIds(s: Selection)
    ensures HasBothDevices(s) <==> Text.Trim(s.leftId) != [] && Text.Trim(s.rightId) != []
  {
    Text.TrimEmptyIffBlank(s.leftId);
    Text.TrimEmptyIffBlank(s.rightId);
  }

  /** A complete detection round for one side: the result lands on that
      side, the round is over, and a later result is refused until the next
      round begins. */
  lemma DetectionRound(s: Selection, side: DetectionTarget, id: Wrappers.Option<string>,
                       name: Wrappers.Option<string>, later: Wrappers.Option<string>)
    requires side != None
    ensures var r := Apply(Begin(s, side), id, name);
            && r.0 && r.1.target == None
            && (if side == Left then r.1.leftId else r.1.rightId) == OrEmpty(id)
            && Apply(r.1, later, later) == (false, r.1)
  {
  }

  /** Binding a non-blank id to the one side still missing completes the
      pair; blank ids (including null) never do. */
  lemma CompletingThePair(s: Selection, side: DetectionTarget, id: Wrappers.Option<string>, name: Wrappers.Option<string>)
    requires side != None
    ensures var other := if side == Left then s.rightId else s.leftId;
            HasBothDevices(Apply(Begin(s, side), id, name).1) <==>
              (!Text.IsBlank(OrEmpty(id)) && !Text.IsBlank(other))
  {
  }

  /** The selection object itself; its methods follow the functions above. */
  class DeviceSelectionState {
    var currentTarget: DetectionTarget
    var leftDeviceId: string
    var rightDeviceId: string
    var leftDeviceName: string
    var rightDeviceName: string

    function State(): Selection
      reads this
    {
      Selection(currentTarget, leftDeviceId, rightDeviceId, leftDeviceName, rightDeviceName)
    }

    constructor ()
      ensures State() == Initial()
    {
      currentTarget := None;
      leftDeviceId, rightDeviceId := "", "";
      leftDeviceName, rightDeviceName := "", "";
    }

    method BeginDetection(target: DetectionTarget)
      modifies this
      ensures State() == Begin(old(State()), target)
    {
      currentTarget := target;
    }

    method ApplyDetectionResult(deviceId: Wrappers.Option<string>, deviceName: Wrappers.Option<string>) returns (applied: bool)
      modifies this
      ensures (applied, State()) == Apply(old(State()), deviceId, deviceName)
    {
      if currentTarget == None {
        return false;
      }
      if currentTarget == Left {
        leftDeviceId := OrEmpty(deviceId);
        leftDeviceName := OrEmpty(deviceName);
      } else if currentTarget == Right {
        rightDeviceId := OrEmpty(deviceId);
        rightDeviceName := OrEmpty(deviceName);
      }
      currentTarget := None;
      return true;
    }

    method ClearTarget(target: DetectionTarget)
      modifies this
      ensures State() == Clear(old(State()), target)
    {
      if target == Left {
        leftDeviceId, leftDeviceName := "", "";
      } else if target == Right {
        rightDeviceId, rightDeviceName := "", "";
      }
    }

    /** The `HasBothDevices` property. */
    predicate HasBoth()
      reads this
    {
      HasBothDevices(State())
    }
  }
}
