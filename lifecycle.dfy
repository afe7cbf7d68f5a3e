/**
 * The lifecycle contract every state of the machine follows: a read-only
 * name and four hooks (enter, per-frame tick, fixed-step tick, exit).
 *
 * A state is an object, so two states are "the same" exactly when they are
 * the same reference. The hooks a machine invokes are recorded as a log of
 * `Call`s; `Conforms` is the protocol the contract describes: a state is
 * entered only while no state is active, and it is ticked, fixed-ticked and
 * exited only while it is the active one.
 */
module Lifecycle {

  /** A state's identity, with the name it shows for its whole lifetime. */
  class State {
    const Name: string

    constructor (name: string)
      ensures Name == name
    {
      Name := name;
    }
  }

  /** The hooks of a state; `dt` and `fdt` are the frame and fixed-step durations. */
  datatype Hook = OnEnter | OnTick(dt: real) | OnFixedTick(fdt: real) | OnExit

  /** One invocation of a hook on a state. */
  datatype Call = Call(target: State, hook: Hook)

  /** The active state after `c` is made while `active` is active. */
  function AfterCall(active: State?, c: Call): State? {
    match c.hook
    case OnEnter => c.target
    case OnExit => null
    case _ => active
  }

  /** The state that is active after the calls in `calls`, or null when none is. */
  function Active(calls: seq<Call>): (r: State?)
    ensures r != null ==> exists k :: 0 <= k < |calls| && calls[k] == Call(r, OnEnter)
  {
    if calls == [] then null
    else
      var prefix := calls[..|calls| - 1];
      var r := AfterCall(Active(prefix), calls[|calls| - 1]);
      assert forall k :: 0 <= k < |prefix| ==> prefix[k] == calls[k];
      r
  }

  /** May `c` happen while `active` is the active state? */
  predicate Allowed(active: State?, c: Call) {
    match c.hook
    case OnEnter => active == null
    case _ => active == c.target
  }

  /** Every call in `calls` was allowed when it was made. */
  predicate Conforms(calls: seq<Call>) {
    calls == [] ||
    (Conforms(calls[..|calls| - 1]) && Allowed(Active(calls[..|calls| - 1]), calls[|calls| - 1]))
  }

  /** Extending a log by one call: it conforms when the log did and the call
      was allowed, and the active state moves as the call says. */
  lemma Extend(calls: seq<Call>, c: Call)
    ensures Conforms(calls + [c]) <==> Conforms(calls) && Allowed(Active(calls), c)
    ensures Active(calls + [c]) == AfterCall(Active(calls), c)
  {
    assert (calls + [c])[..|calls|] == calls;
  }

  /** How many times `s` was entered in `calls`. */
  function EnterCount(calls: seq<Call>, s: State): nat {
    if calls == [] then 0
    else EnterCount(calls[..|calls| - 1], s) + (if calls[|calls| - 1] == Call(s, OnEnter) then 1 else 0)
  }

  /** How many times `s` was exited in `calls`. */
  function ExitCount(calls: seq<Call>, s: State): nat {
    if calls == [] then 0
    else ExitCount(calls[..|calls| - 1], s) + (if calls[|calls| - 1] == Call(s, OnExit) then 1 else 0)
  }

  /** Enter and exit are balanced: a state has been entered once more than
      it has been exited when it is the active one, and as often otherwise. */
  lemma {:induction false} Balanced(calls: seq<Call>, s: State)
    requires Conforms(calls)
    ensures EnterCount(calls, s) == ExitCount(calls, s) + (if Active(calls) == s then 1 else 0)
  {
    if calls != [] {
      var prefix := calls[..|calls| - 1];
      Balanced(prefix, s);
    }
  }

  /** Any prefix of a conforming log conforms. */
  lemma {:induction false} ConformsPrefix(calls: seq<Call>, k: nat)
    requires Conforms(calls) && k <= |calls|
    ensures Conforms(calls[..k])
    decreases |calls| - k
  {
    if k < |calls| {
      var prefix := calls[..|calls| - 1];
      assert prefix[..k] == calls[..k];
      ConformsPrefix(prefix, k);
    } else {
      assert calls[..k] == calls;
    }
  }

  /** Each call in a conforming log was made in the situation the contract
      allows: enter with no state active; tick, fixed tick and exit only on
      the active state. */
  lemma HooksOnlyWhileActive(calls: seq<Call>, k: nat)
    requires Conforms(calls) && k < |calls|
    ensures Allowed(Active(calls[..k]), calls[k])
    ensures calls[k].hook.OnTick? ==> Active(calls[..k]) == calls[k].target
    ensures calls[k].hook.OnFixedTick? ==> Active(calls[..k]) == calls[k].target
    ensures calls[k].hook.OnExit? ==> Active(calls[..k]) == calls[k].target
  {
    ConformsPrefix(calls, k + 1);
    assert calls[..k + 1][..k] == calls[..k];
  }

  /** Enter and exit alternate on every state, starting with enter: after
      any prefix of a conforming log, a state has been entered as often as
      it has been exited, or exactly once more. */
  lemma EnterExitAlternate(calls: seq<Call>, s: State, k: nat)
    requires Conforms(calls) && k <= |calls|
    ensures ExitCount(calls[..k], s) <= EnterCount(calls[..k], s) <= ExitCount(calls[..k], s) + 1
  {
    ConformsPrefix(calls, k);
    Balanced(calls[..k], s);
  }

  /** An exit of `s` in a conforming log is always preceded by an unmatched
      enter of `s`: a state cannot be left without having been entered. */
  lemma ExitFollowsEnter(calls: seq<Call>, s: State, k: nat)
    requires Conforms(calls) && k < |calls| && calls[k] == Call(s, OnExit)
    ensures EnterCount(calls[..k], s) == ExitCount(calls[..k], s) + 1
  {
    HooksOnlyWhileActive(calls, k);
    ConformsPrefix(calls, k);
    Balanced(calls[..k], s);
  }
}
