/** The low-level mouse hook that swallows physical (non-injected) mouse
    events while the form asks for the right-hand mouse to be blocked. */
module MouseBlocker {
  import opened Effects

  /** `WH_MOUSE_LL`, the hook type installed. */
  const WhMouseLl: int := 14
  /** `LLMHF_INJECTED`, set on events that SendInput synthesized. */
  const LlmhfInjected: bv32 := 0x0000_0001

  /** The blocking predicate given to the constructor: a null predicate is
      replaced by one that never blocks. */
  datatype BlockPolicy = NeverBlock | AskCaller

  /** What the hook procedure returns: 1 (the event is swallowed) or the
      result of CallNextHookEx (the event is passed on). */
  datatype HookResult = Swallow | CallNext

  /** The value `shouldBlock()` yields, given what the caller's predicate
      would answer now. */
  function ShouldBlock(policy: BlockPolicy, callerAnswer: bool): (b: bool)
    ensures b ==> policy == AskCaller
    ensures policy == AskCaller ==> b == callerAnswer
  {
    match policy
    case NeverBlock => false
    case AskCaller => callerAnswer
  }

  /** The decision of the hook procedure. An event is swallowed exactly when
      the hook code is non-negative, blocking is requested and the event was
      not injected; in particular events the program injects itself, and
      every call with a negative code, are always passed on. */
  function Decide(nCode: int, flags: bv32, shouldBlock: bool): (r: HookResult)
    ensures r == Swallow <==> nCode >= 0 && shouldBlock && flags & LlmhfInjected == 0
    ensures flags & LlmhfInjected != 0 ==> r == CallNext
    ensures nCode < 0 ==> r == CallNext
  {
    if nCode >= 0 && shouldBlock then
      if flags & LlmhfInjected == 0 then Swallow else CallNext
    else CallNext
  }

  // ---------------------------------------------------------------------
  // The hook's life cycle
  // ---------------------------------------------------------------------

  /** Replaying hook effects: `Broken` once a hook is installed over a live
      one, installed with a null handle, or a handle is removed that is not
      the live one. */
  datatype HookLife = Broken | Unhooked | Hooked(handle: int)

  function ApplyHookEffect(l: HookLife, e: Effect): HookLife {
    match e
    case HookInstalled(h) => if l == Unhooked && h != 0 then Hooked(h) else Broken
    case HookRemoved(h) => if l == Hooked(h) then Unhooked else Broken
    case _ => l
  }

  function HookLifeOf(t: seq<Effect>): HookLife
    decreases |t|
  {
    if t == [] then Unhooked else ApplyHookEffect(HookLifeOf(t[..|t| - 1]), t[|t| - 1])
  }

  /** The handle field agrees with the effects made so far: zero exactly
      when no hook is live, and otherwise the live hook's handle. */
  predicate Matches(hookHandle: int, t: seq<Effect>) {
    HookLifeOf(t) == if hookHandle == 0 then Unhooked else Hooked(hookHandle)
  }

  /** `Start`: already hooked answers true and installs nothing; otherwise
      the handle SetWindowsHookEx returned is stored, and success is a
      nonzero handle. Results are the new handle, the answer and the hook
      effects. */
  function StartStep(hookHandle: int, setHookResult: int): (r: (int, bool, seq<Effect>))
    ensures r.1 <==> r.0 != 0
    ensures hookHandle != 0 ==> r == (hookHandle, true, [])
    ensures hookHandle == 0 ==> r.0 == setHookResult
  {
    if hookHandle != 0 then (hookHandle, true, [])
    else if setHookResult != 0 then (setHookResult, true, [HookInstalled(setHookResult)])
    else (0, false, [])
  }

  /** `Stop`: unhooks a live hook once and zeroes the handle; no-op when
      there is none. */
  function StopStep(hookHandle: int): (r: (int, seq<Effect>))
    ensures r.0 == 0
    ensures hookHandle == 0 ==> r.1 == []
  {
    if hookHandle == 0 then (0, []) else (0, [HookRemoved(hookHandle)])
  }

  lemma HookLifeSnoc(t: seq<Effect>, e: Effect)
    ensures HookLifeOf(t + [e]) == ApplyHookEffect(HookLifeOf(t), e)
  {
    assert (t + [e])[..|t|] == t;
  }

  /** Both operations keep the handle field in step with the hooks actually
      installed: no second hook over a live one, and every removal is of the
      live hook. */
  lemma StepsKeepMatches(hookHandle: int, t: seq<Effect>, setHookResult: int)
    requires Matches(hookHandle, t)
    ensures var s := StartStep(hookHandle, setHookResult); Matches(s.0, t + s.2)
    ensures var s := StopStep(hookHandle); Matches(s.0, t + s.1)
  {
    assert t + [] == t;
    if hookHandle == 0 {
      if setHookResult != 0 {
        HookLifeSnoc(t, HookInstalled(setHookResult));
      }
    } else {
      HookLifeSnoc(t, HookRemoved(hookHandle));
    }
  }

  /** A call to `Start` or `Stop` (or `Dispose`, which is `Stop`). */
  datatype HookCall = StartCall(setHookResult: int) | StopCall

  /** Replays a sequence of calls from a handle; yields the final handle
      and the hook effects made. */
  function RunCalls(hookHandle: int, calls: seq<HookCall>): (int, seq<Effect>)
    decreases |calls|
  {
    if calls == [] then (hookHandle, [])
    else
      var first := match calls[0]
        case StartCall(res) => var s := StartStep(hookHandle, res); (s.0, s.2)
        case StopCall => StopStep(hookHandle);
      var rest := RunCalls(first.0, calls[1..]);
      (rest.0, first.1 + rest.1)
  }

  /** However `Start` and `Stop` are interleaved, at most one hook is ever
      live, removals only ever remove the live hook, and the handle field
      tells which hook that is. */
  lemma {:induction false} CallsKeepMatches(hookHandle: int, t: seq<Effect>, calls: seq<HookCall>)
    requires Matches(hookHandle, t)
    ensures var r := RunCalls(hookHandle, calls); Matches(r.0, t + r.1)
    decreases |calls|
  {
    if calls == [] {
      assert t + [] == t;
    } else {
      var res := if calls[0].StartCall? then calls[0].setHookResult else 0;
      StepsKeepMatches(hookHandle, t, res);
      var first := match calls[0]
        case StartCall(r) => var s := StartStep(hookHandle, r); (s.0, s.2)
        case StopCall => StopStep(hookHandle);
      CallsKeepMatches(first.0, t + first.1, calls[1..]);
      var rest := RunCalls(first.0, calls[1..]);
      assert t + first.1 + rest.1 == t + (first.1 + rest.1);
    }
  }

  /** `Start` twice installs once; `Stop` twice removes once. */
  lemma StartStopIdempotent(hookHandle: int, res1: int, res2: int)
    ensures var a := StartStep(hookHandle, res1);
            a.1 ==> StartStep(a.0, res2) == (a.0, true, [])
    ensures StopStep(StopStep(hookHandle).0) == (0, [])
  {
  }

  class LowLevelMouseBlocker {
    const policy: BlockPolicy
    var hookHandle: int
    /** Hook installations and removals made so far. */
    ghost var trace: seq<Effect>

    ghost predicate Valid()
      reads this
    {
      Matches(hookHandle, trace)
    }

    /** `predicateSupplied` is false when the caller passes null. */
    constructor (predicateSupplied: bool)
      ensures Valid() && hookHandle == 0 && trace == []
      ensures policy == if predicateSupplied then AskCaller else NeverBlock
    {
      policy := if predicateSupplied then AskCaller else NeverBlock;
      hookHandle := 0;
      trace := [];
    }

    /** The hook procedure; `callerAnswer` is what the supplied predicate
        returns when asked. */
    method HookCallback(nCode: int, flags: bv32, callerAnswer: bool) returns (r: HookResult)
      ensures r == Decide(nCode, flags, ShouldBlock(policy, callerAnswer))
    {
      if nCode >= 0 && ShouldBlock(policy, callerAnswer) {
        if flags & LlmhfInjected == 0 {
          return Swallow;
        }
      }
      return CallNext;
    }

    /** `setHookResult` is the handle SetWindowsHookEx would return. */
    method Start(setHookResult: int) returns (ok: bool)
      requires Valid()
      modifies this
      ensures Valid()
      ensures hookHandle == StartStep(old(hookHandle), setHookResult).0
      ensures ok == StartStep(old(hookHandle), setHookResult).1
      ensures trace == old(trace) + StartStep(old(hookHandle), setHookResult).2
    {
      StepsKeepMatches(hookHandle, trace, setHookResult);
      if hookHandle != 0 {
        return true;
      }
      hookHandle := setHookResult;
      if hookHandle != 0 {
        trace := trace + [HookInstalled(hookHandle)];
      }
      return hookHandle != 0;
    }

    method Stop()
      requires Valid()
      modifies this
      ensures Valid()
      ensures hookHandle == StopStep(old(hookHandle)).0
      ensures trace == old(trace) + StopStep(old(hookHandle)).1
    {
      StepsKeepMatches(hookHandle, trace, 0);
      if hookHandle == 0 {
        return;
      }
      trace := trace + [HookRemoved(hookHandle)];
      hookHandle := 0;
    }

    method Dispose()
      requires Valid()
      modifies this
      ensures Valid()
      ensures hookHandle == StopStep(old(hookHandle)).0
      ensures trace == old(trace) + StopStep(old(hookHandle)).1
    {
      Stop();
    }
  }
}
