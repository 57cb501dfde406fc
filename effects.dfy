/** The platform calls the modelled code makes, recorded as a trace:
    synthesized button presses and releases (`SendInput`), synthesized
    relative moves, and low-level hook installation and removal. */
module Effects {
  import opened Wrappers

  datatype Effect =
    | LeftDown
    | LeftUp
    | RelativeMove(dx: int, dy: int)
    | HookInstalled(hook: int)
    | HookRemoved(hook: int)

  /** Whether the left button is held after `e`, starting from `held`;
      None when `e` presses a held button or releases a free one. */
  function ApplyButton(held: bool, e: Effect): Option<bool> {
    match e
    case LeftDown => if held then None else Some(true)
    case LeftUp => if held then Some(false) else None
    case _ => Some(held)
  }

  /** Replays a trace from a released button: Some(held) when presses and
      releases strictly alternate, starting with a press. */
  function ButtonState(t: seq<Effect>): Option<bool> {
    if t == [] then Some(false)
    else
      match ButtonState(t[..|t| - 1])
      case None => None
      case Some(held) => ApplyButton(held, t[|t| - 1])
  }

  function Presses(t: seq<Effect>): nat {
    if t == [] then 0 else Presses(t[..|t| - 1]) + (if t[|t| - 1] == LeftDown then 1 else 0)
  }

  function Releases(t: seq<Effect>): nat {
    if t == [] then 0 else Releases(t[..|t| - 1]) + (if t[|t| - 1] == LeftUp then 1 else 0)
  }

  /** Replaying a trace extended by a few effects continues from where the
      trace left off. */
  /** One more effect moves the button as `ApplyButton` says. */
  lemma ButtonStateSnoc(t: seq<Effect>, e: Effect)
    ensures ButtonState(t + [e]) ==
              match ButtonState(t)
              case None => None
              case Some(h) => ApplyButton(h, e)
  {
    assert (t + [e])[..|t|] == t;
  }

  lemma {:induction false} ButtonStateAppend(t: seq<Effect>, u: seq<Effect>)
    ensures ButtonState(t + u) ==
              if u == [] then ButtonState(t)
              else match ButtonState(t + u[..|u| - 1])
                   case None => None
                   case Some(h) => ApplyButton(h, u[|u| - 1])
  {
    if u != [] {
      assert (t + u)[..|t + u| - 1] == t + u[..|u| - 1];
    } else {
      assert t + u == t;
    }
  }

  lemma {:induction false} CountsAppend(t: seq<Effect>, u: seq<Effect>)
    ensures Presses(t + u) == Presses(t) + Presses(u)
    ensures Releases(t + u) == Releases(t) + Releases(u)
    decreases |u|
  {
    if u == [] {
      assert t + u == t;
    } else {
      assert (t + u)[..|t + u| - 1] == t + u[..|u| - 1];
      CountsAppend(t, u[..|u| - 1]);
    }
  }

  /** In an alternating trace the button is held exactly when there is one
      more press than releases, and released when the counts are equal. */
  lemma {:induction false} AlternationCounts(t: seq<Effect>)
    requires ButtonState(t).Some?
    ensures ButtonState(t) == Some(true) ==> Presses(t) == Releases(t) + 1
    ensures ButtonState(t) == Some(false) ==> Presses(t) == Releases(t)
  {
    if t != [] {
      AlternationCounts(t[..|t| - 1]);
    }
  }
}
