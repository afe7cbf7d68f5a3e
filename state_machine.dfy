/**
 * The finite-state machine: one current state, an ordered list of local
 * transitions (from, to, guard) and an ordered list of global transitions
 * (to, guard). Each frame the machine scans the globals, then the locals
 * leaving the current state, stops at the first guard that holds, switches
 * to that transition's target if it differs from the current state, and then
 * ticks the (possibly new) current state.
 *
 * Guards are opaque: a guard is an identifier, and `env` is the set of
 * guards that answer true when invoked during one frame. The machine
 * records the hooks it calls on states in `calls` and the guards it invokes
 * in `guardCalls`.
 */
module Machine {
  import opened Lifecycle

  /** The identity of a guard predicate. */
  type GuardId = nat

  /** A local transition, considered only while `from` is the current state. */
  datatype LocalTransition = LocalTransition(from: State?, to: State?, cond: GuardId)

  /** A global transition, considered on every frame. */
  datatype GlobalTransition = GlobalTransition(to: State?, cond: GuardId)

  /** A guard invocation: the guard of the i-th global or of the i-th local entry. */
  datatype Slot = GlobalSlot(i: nat) | LocalSlot(i: nat)

  /** Position of the first global whose guard holds, or |gs| when none does. */
  function FirstGlobal(gs: seq<GlobalTransition>, env: set<GuardId>): (r: nat)
    ensures r <= |gs|
    ensures r < |gs| ==> gs[r].cond in env
    ensures forall j :: 0 <= j < r ==> gs[j].cond !in env
  {
    if gs == [] then 0
    else if gs[0].cond in env then 0
    else 1 + FirstGlobal(gs[1..], env)
  }

  /** Does the local entry `t` fire while `cur` is current? */
  predicate Enabled(t: LocalTransition, cur: State?, env: set<GuardId>) {
    t.from == cur && t.cond in env
  }

  /** Position of the first local leaving `cur` whose guard holds, or |ls| when none does. */
  function FirstLocal(ls: seq<LocalTransition>, cur: State?, env: set<GuardId>): (r: nat)
    ensures r <= |ls|
    ensures r < |ls| ==> ls[r].from == cur && ls[r].cond in env
    ensures forall j :: 0 <= j < r ==> !Enabled(ls[j], cur, env)
  {
    if ls == [] then 0
    else if Enabled(ls[0], cur, env) then 0
    else 1 + FirstLocal(ls[1..], cur, env)
  }

  /** Some guard of the frame's scan held. */
  predicate Fired(gs: seq<GlobalTransition>, ls: seq<LocalTransition>, cur: State?, env: set<GuardId>) {
    FirstGlobal(gs, env) < |gs| || FirstLocal(ls, cur, env) < |ls|
  }

  /** The target the scan yields: the first fired global's, else the first
      fired local's, else null. A fired entry whose target is null also
      yields null. */
  function Found(gs: seq<GlobalTransition>, ls: seq<LocalTransition>, cur: State?, env: set<GuardId>): State? {
    var g := FirstGlobal(gs, env);
    if g < |gs| then gs[g].to
    else
      var l := FirstLocal(ls, cur, env);
      if l < |ls| then ls[l].to else null
  }

  /** The guard slots of globals 0 .. n-1, in order. */
  function GlobalScan(n: nat): seq<Slot> {
    if n == 0 then [] else GlobalScan(n - 1) + [GlobalSlot(n - 1)]
  }

  /** The guard slots of the locals among 0 .. n-1 that leave `cur`, in order. */
  function LocalScan(ls: seq<LocalTransition>, cur: State?, n: nat): seq<Slot>
    requires n <= |ls|
  {
    if n == 0 then []
    else LocalScan(ls, cur, n - 1) + (if ls[n - 1].from == cur then [LocalSlot(n - 1)] else [])
  }

  /** The guards the scan invokes, in order: globals up to and including the
      first that holds; only if none holds, the locals leaving `cur` up to and
      including the first that holds. */
  function Scanned(gs: seq<GlobalTransition>, ls: seq<LocalTransition>, cur: State?, env: set<GuardId>): seq<Slot> {
    var g := FirstGlobal(gs, env);
    if g < |gs| then GlobalScan(g + 1)
    else
      var l := FirstLocal(ls, cur, env);
      GlobalScan(|gs|) + LocalScan(ls, cur, if l < |ls| then l + 1 else |ls|)
  }

  /** The answer the guard in `slot` gives this frame (false for a slot out of range). */
  predicate SlotHolds(gs: seq<GlobalTransition>, ls: seq<LocalTransition>, env: set<GuardId>, slot: Slot) {
    match slot
    case GlobalSlot(i) => i < |gs| && gs[i].cond in env
    case LocalSlot(i) => i < |ls| && ls[i].cond in env
  }

  /** The hooks a switch from `cur` to `next` invokes: nothing when they are the
      same state; otherwise the old state's exit (if any), then the new state's
      enter (if any). */
  function ChangeCalls(cur: State?, next: State?): seq<Call> {
    if next == cur then []
    else (if cur != null then [Call(cur, OnExit)] else []) + (if next != null then [Call(next, OnEnter)] else [])
  }

  /** The current state after a frame whose scan yielded `found`. */
  function AfterTick(cur: State?, found: State?): State? {
    if found != null then found else cur
  }

  /** The hooks one frame invokes: the switch, then the tick of the state now current. */
  function TickCalls(cur: State?, found: State?, dt: real): seq<Call> {
    var next := AfterTick(cur, found);
    (if found != null then ChangeCalls(cur, found) else []) + (if next != null then [Call(next, OnTick(dt))] else [])
  }

  /** `s` is the target of some registered transition. */
  predicate Registered(s: State, gs: seq<GlobalTransition>, ls: seq<LocalTransition>) {
    (exists i :: 0 <= i < |gs| && gs[i].to == s) || (exists j :: 0 <= j < |ls| && ls[j].to == s)
  }

  class StateMachine {
    var current: State?
    var locals: seq<LocalTransition>
    var globals: seq<GlobalTransition>
    /** Every hook invoked on a state, in order. */
    var calls: seq<Call>
    /** Every guard invoked, in order. */
    var guardCalls: seq<Slot>
    /** Every state passed to SetInitial. */
    ghost var initials: set<State>

    /** The current state is absent, an initial state, or a registered target. */
    ghost predicate Valid()
      reads this
    {
      current == null || current in initials || Registered(current, globals, locals)
    }

    /** The hooks invoked so far follow the lifecycle contract, and the state
        the contract regards as active is the current one. */
    ghost predicate Protocol()
      reads this`calls, this`current
    {
      Conforms(calls) && Active(calls) == current
    }

    constructor ()
      ensures current == null && locals == [] && globals == []
      ensures calls == [] && guardCalls == [] && initials == {}
      ensures Valid() && Protocol()
    {
      current := null;
      locals := [];
      globals := [];
      calls := [];
      guardCalls := [];
      initials := {};
    }

    /** Makes `state` current and enters it. */
    method SetInitial(state: State?)
      requires Valid()
      modifies this
      ensures current == state
      ensures calls == old(calls) + (if state != null then [Call(state, OnEnter)] else [])
      ensures initials == old(initials) + (if state != null then {state} else {})
      ensures locals == old(locals) && globals == old(globals) && guardCalls == old(guardCalls)
      ensures Valid()
      ensures old(Protocol()) && old(current) == null ==> Protocol()
    {
      if old(Protocol()) && old(current) == null {
        SetInitialKeepsContract(calls, state);
      }
      current := state;
      if state != null {
        initials := initials + {state};
        calls := calls + [Call(state, OnEnter)];
      }
    }

    /** Appends a local transition. */
    method AddTransition(from: State?, to: State?, cond: GuardId)
      requires Valid()
      modifies this`locals
      ensures locals == old(locals) + [LocalTransition(from, to, cond)]
      ensures Valid()
      ensures old(Protocol()) ==> Protocol()
    {
      RegisteredGrowsLocal(current, globals, locals, LocalTransition(from, to, cond));
      locals := locals + [LocalTransition(from, to, cond)];
    }

    /** Appends a global transition. */
    method AddGlobal(to: State?, cond: GuardId)
      requires Valid()
      modifies this`globals
      ensures globals == old(globals) + [GlobalTransition(to, cond)]
      ensures Valid()
      ensures old(Protocol()) ==> Protocol()
    {
      RegisteredGrowsGlobal(current, globals, locals, GlobalTransition(to, cond));
      globals := globals + [GlobalTransition(to, cond)];
    }

    /** Scans the globals, then the locals leaving the current state, and
        returns the first fired target together with the guards it invoked. */
    method FindTransition(env: set<GuardId>) returns (next: State?, scanned: seq<Slot>)
      ensures next == Found(globals, locals, current, env)
      ensures scanned == Scanned(globals, locals, current, env)
    {
      scanned := [];
      for i := 0 to |globals|
        invariant scanned == GlobalScan(i)
        invariant forall j :: 0 <= j < i ==> globals[j].cond !in env
      {
        scanned := scanned + [GlobalSlot(i)];
        if globals[i].cond in env {
          return globals[i].to, scanned;
        }
      }
      for i := 0 to |locals|
        invariant scanned == GlobalScan(|globals|) + LocalScan(locals, current, i)
        invariant forall j :: 0 <= j < i ==> !Enabled(locals[j], current, env)
      {
        if locals[i].from == current {
          scanned := scanned + [LocalSlot(i)];
          if locals[i].cond in env {
            return locals[i].to, scanned;
          }
        }
      }
      return null, scanned;
    }

    /** Switches to `next`: exit the old state, make `next` current, enter it;
        nothing at all when `next` already is the current state. Internal to
        `Tick`, which passes only a target the scan found. */
    method ChangeState(next: State?)
      requires Valid() && (next == null || next in initials || Registered(next, globals, locals))
      modifies this`current, this`calls
      ensures current == next
      ensures Valid()
      ensures calls == old(calls) + ChangeCalls(old(current), next)
      ensures old(Protocol()) ==> Protocol()
    {
      if next == current {
        return;
      }
      if current != null {
        calls := calls + [Call(current, OnExit)];
      }
      current := next;
      if current != null {
        calls := calls + [Call(current, OnEnter)];
      }
      if old(Protocol()) {
        ChangeKeepsContract(old(calls), old(current), next);
      }
    }

    /** One frame: find a transition, switch if one was found, tick the current state. */
    method Tick(dt: real, env: set<GuardId>)
      requires Valid()
      modifies this
      ensures current == AfterTick(old(current), Found(globals, locals, old(current), env))
      ensures calls == old(calls) + TickCalls(old(current), Found(globals, locals, old(current), env), dt)
      ensures guardCalls == old(guardCalls) + Scanned(globals, locals, old(current), env)
      ensures locals == old(locals) && globals == old(globals) && initials == old(initials)
      ensures Valid()
      ensures old(Protocol()) ==> Protocol()
    {
      var cur := current;
      var next, scanned := FindTransition(env);
      FoundIsRegistered(globals, locals, cur, env);
      guardCalls := guardCalls + scanned;
      if next != null {
        ChangeState(next);
      }
      if current != null {
        ghost var switched := calls;
        calls := calls + [Call(current, OnTick(dt))];
        Extend(switched, Call(current, OnTick(dt)));
      }
    }

    /** One fixed step: forwarded to the current state, no guard is invoked. */
    method FixedTick(fdt: real)
      requires Valid()
      modifies this`calls
      ensures calls == old(calls) + (if current != null then [Call(current, OnFixedTick(fdt))] else [])
      ensures Valid()
      ensures old(Protocol()) ==> Protocol()
    {
      if current != null {
        calls := calls + [Call(current, OnFixedTick(fdt))];
      }
    }
  }

  // ---------------------------------------------------------------------
  // Properties of the scan

  /** The globals scan lists globals 0 .. n-1, each once, in order. */
  lemma {:induction false} GlobalScanAt(n: nat)
    ensures |GlobalScan(n)| == n
    ensures forall k :: 0 <= k < n ==> GlobalScan(n)[k] == GlobalSlot(k)
  {
    if n > 0 {
      GlobalScanAt(n - 1);
    }
  }

  /** The locals scan lists, in increasing position, exactly the locals
      below n that leave `cur`. */
  lemma {:induction false} LocalScanAt(ls: seq<LocalTransition>, cur: State?, n: nat)
    requires n <= |ls|
    ensures forall k :: 0 <= k < |LocalScan(ls, cur, n)| ==>
      LocalScan(ls, cur, n)[k].LocalSlot? && LocalScan(ls, cur, n)[k].i < n && ls[LocalScan(ls, cur, n)[k].i].from == cur
    ensures forall a, b :: 0 <= a < b < |LocalScan(ls, cur, n)| ==> LocalScan(ls, cur, n)[a].i < LocalScan(ls, cur, n)[b].i
    ensures forall j :: 0 <= j < n && ls[j].from == cur ==> LocalSlot(j) in LocalScan(ls, cur, n)
  {
    if n > 0 {
      LocalScanAt(ls, cur, n - 1);
    }
  }

  /** Global priority: when some global guard holds, the scan yields the first
      such global's target (even when it is the current state or null) and
      invokes no local guard at all. */
  lemma GlobalPriority(gs: seq<GlobalTransition>, ls: seq<LocalTransition>, cur: State?, env: set<GuardId>, i: nat)
    requires i < |gs| && gs[i].cond in env
    ensures FirstGlobal(gs, env) <= i
    ensures Found(gs, ls, cur, env) == gs[FirstGlobal(gs, env)].to
    ensures forall s :: s in Scanned(gs, ls, cur, env) ==> s.GlobalSlot?
  {
    GlobalScanAt(FirstGlobal(gs, env) + 1);
  }

  /** First match wins among locals: with no global firing, the scan yields
      the target of the earliest fired local leaving `cur`, whatever later
      locals say. */
  lemma FirstLocalWins(gs: seq<GlobalTransition>, ls: seq<LocalTransition>, cur: State?, env: set<GuardId>, i: nat)
    requires forall j :: 0 <= j < |gs| ==> gs[j].cond !in env
    requires i < |ls| && Enabled(ls[i], cur, env)
    requires forall j :: 0 <= j < i ==> !Enabled(ls[j], cur, env)
    ensures Found(gs, ls, cur, env) == ls[i].to
  {
  }

  /** Only locals leaving the current state are consulted: no other local's
      guard is ever invoked. */
  lemma LocalsOnlyFromCurrent(gs: seq<GlobalTransition>, ls: seq<LocalTransition>, cur: State?, env: set<GuardId>, j: nat)
    requires LocalSlot(j) in Scanned(gs, ls, cur, env)
    ensures j < |ls| && ls[j].from == cur
  {
    var g := FirstGlobal(gs, env);
    if g < |gs| {
      GlobalScanAt(g + 1);
      assert false;
    }
    var n := if FirstLocal(ls, cur, env) < |ls| then FirstLocal(ls, cur, env) + 1 else |ls|;
    GlobalScanAt(|gs|);
    LocalScanAt(ls, cur, n);
    var gsc, lsc := GlobalScan(|gs|), LocalScan(ls, cur, n);
    assert LocalSlot(j) !in gsc;
    assert LocalSlot(j) in lsc;
  }

  /** The scan invokes no guard twice. */
  lemma ScanInvokesEachGuardOnce(gs: seq<GlobalTransition>, ls: seq<LocalTransition>, cur: State?, env: set<GuardId>)
    ensures var s := Scanned(gs, ls, cur, env);
      forall a, b :: 0 <= a < b < |s| ==> s[a] != s[b]
  {
    var g := FirstGlobal(gs, env);
    if g < |gs| {
      GlobalScanAt(g + 1);
    } else {
      GlobalScanAt(|gs|);
      var l := FirstLocal(ls, cur, env);
      LocalScanAt(ls, cur, if l < |ls| then l + 1 else |ls|);
    }
  }

  /** The scan short-circuits: every invoked guard but the last answered
      false, and some guard held exactly when the last invoked one answered
      true, so no guard after the first true one is invoked. */
  lemma ScanStopsAtFirstTrue(gs: seq<GlobalTransition>, ls: seq<LocalTransition>, cur: State?, env: set<GuardId>)
    ensures var s := Scanned(gs, ls, cur, env);
      forall k :: 0 <= k < |s| - 1 ==> !SlotHolds(gs, ls, env, s[k])
    ensures var s := Scanned(gs, ls, cur, env);
      Fired(gs, ls, cur, env) <==> |s| > 0 && SlotHolds(gs, ls, env, s[|s| - 1])
  {
    var g := FirstGlobal(gs, env);
    if g < |gs| {
      GlobalScanAt(g + 1);
    } else {
      LocalScanStops(gs, ls, cur, env);
    }
  }

  /** The part of ScanStopsAtFirstTrue where no global fires. */
  lemma LocalScanStops(gs: seq<GlobalTransition>, ls: seq<LocalTransition>, cur: State?, env: set<GuardId>)
    requires FirstGlobal(gs, env) == |gs|
    ensures var s := Scanned(gs, ls, cur, env);
      forall k :: 0 <= k < |s| - 1 ==> !SlotHolds(gs, ls, env, s[k])
    ensures var s := Scanned(gs, ls, cur, env);
      FirstLocal(ls, cur, env) < |ls| <==> |s| > 0 && SlotHolds(gs, ls, env, s[|s| - 1])
  {
    var l := FirstLocal(ls, cur, env);
    var before := GlobalScan(|gs|) + LocalScan(ls, cur, l);
    GlobalScanBeforeMatch(gs, ls, env, |gs|);
    LocalScanBeforeMatch(gs, ls, cur, env, l);
    if l < |ls| {
      AllButLastFalse(gs, ls, env, before, before + [LocalSlot(l)]);
    } else {
      AllButLastFalse(gs, ls, env, before, before);
    }
  }

  /** A scan that invoked `before` and then at most one more guard: all but
      its last invoked guard answered false, and the last did too when
      nothing was invoked after `before`. */
  lemma AllButLastFalse(gs: seq<GlobalTransition>, ls: seq<LocalTransition>, env: set<GuardId>, before: seq<Slot>, s: seq<Slot>)
    requires forall x :: x in before ==> !SlotHolds(gs, ls, env, x)
    requires s == before || (|s| == |before| + 1 && s[..|before|] == before)
    ensures forall k :: 0 <= k < |s| - 1 ==> !SlotHolds(gs, ls, env, s[k])
    ensures s == before && |s| > 0 ==> !SlotHolds(gs, ls, env, s[|s| - 1])
  {
    forall k | 0 <= k < |s| - 1
      ensures !SlotHolds(gs, ls, env, s[k])
    {
      assert s[k] == before[k];
    }
  }

  /** Every global invoked before the first that holds answered false. */
  lemma {:induction false} GlobalScanBeforeMatch(gs: seq<GlobalTransition>, ls: seq<LocalTransition>, env: set<GuardId>, n: nat)
    requires n <= FirstGlobal(gs, env)
    ensures forall x :: x in GlobalScan(n) ==> !SlotHolds(gs, ls, env, x)
  {
    if n > 0 {
      GlobalScanBeforeMatch(gs, ls, env, n - 1);
    }
  }

  /** Every local invoked before the first fired one answered false. */
  lemma {:induction false} LocalScanBeforeMatch(gs: seq<GlobalTransition>, ls: seq<LocalTransition>, cur: State?, env: set<GuardId>, n: nat)
    requires n <= FirstLocal(ls, cur, env)
    ensures forall x :: x in LocalScan(ls, cur, n) ==> !SlotHolds(gs, ls, env, x)
  {
    if n > 0 {
      LocalScanBeforeMatch(gs, ls, cur, env, n - 1);
    }
  }

  /** With no guard holding, the scan invokes every global guard and every
      guard of a local leaving `cur`. */
  lemma ScanCompleteWhenNothingFires(gs: seq<GlobalTransition>, ls: seq<LocalTransition>, cur: State?, env: set<GuardId>)
    requires !Fired(gs, ls, cur, env)
    ensures forall i :: 0 <= i < |gs| ==> GlobalSlot(i) in Scanned(gs, ls, cur, env)
    ensures forall j :: 0 <= j < |ls| && ls[j].from == cur ==> LocalSlot(j) in Scanned(gs, ls, cur, env)
  {
    GlobalScanAt(|gs|);
    LocalScanAt(ls, cur, |ls|);
    var gsc, lsc := GlobalScan(|gs|), LocalScan(ls, cur, |ls|);
    assert Scanned(gs, ls, cur, env) == gsc + lsc;
    forall i | 0 <= i < |gs|
      ensures GlobalSlot(i) in Scanned(gs, ls, cur, env)
    {
      assert (gsc + lsc)[i] == GlobalSlot(i);
    }
  }

  /** Registration only appends, so it never overrides an earlier match: when
      a local leaving `cur` already fires, appending another local changes
      neither the yielded target nor the guards invoked. */
  lemma {:induction false} AppendLocalKeepsMatch(ls: seq<LocalTransition>, t: LocalTransition, cur: State?, env: set<GuardId>)
    requires FirstLocal(ls, cur, env) < |ls|
    ensures FirstLocal(ls + [t], cur, env) == FirstLocal(ls, cur, env)
    ensures forall gs :: Found(gs, ls + [t], cur, env) == Found(gs, ls, cur, env)
    ensures forall gs :: Scanned(gs, ls + [t], cur, env) == Scanned(gs, ls, cur, env)
  {
    if !Enabled(ls[0], cur, env) {
      assert (ls + [t])[1..] == ls[1..] + [t];
      AppendLocalKeepsMatch(ls[1..], t, cur, env);
    }
    var l := FirstLocal(ls, cur, env);
    LocalScanPrefix(ls, [t], cur, l + 1);
  }

  /** The locals scan of a prefix does not look beyond the prefix. */
  lemma {:induction false} LocalScanPrefix(ls: seq<LocalTransition>, more: seq<LocalTransition>, cur: State?, n: nat)
    requires n <= |ls|
    ensures LocalScan(ls + more, cur, n) == LocalScan(ls, cur, n)
  {
    if n > 0 {
      LocalScanPrefix(ls, more, cur, n - 1);
      assert (ls + more)[n - 1] == ls[n - 1];
    }
  }

  /** The same for globals: appending a global never overrides a global that
      already fires. */
  lemma {:induction false} AppendGlobalKeepsMatch(gs: seq<GlobalTransition>, t: GlobalTransition, env: set<GuardId>)
    requires FirstGlobal(gs, env) < |gs|
    ensures FirstGlobal(gs + [t], env) == FirstGlobal(gs, env)
    ensures forall ls, cur :: Found(gs + [t], ls, cur, env) == Found(gs, ls, cur, env)
    ensures forall ls, cur :: Scanned(gs + [t], ls, cur, env) == Scanned(gs, ls, cur, env)
  {
    if gs[0].cond !in env {
      assert (gs + [t])[1..] == gs[1..] + [t];
      AppendGlobalKeepsMatch(gs[1..], t, env);
    }
  }

  /** A target the scan yields is always a registered transition's target. */
  lemma FoundIsRegistered(gs: seq<GlobalTransition>, ls: seq<LocalTransition>, cur: State?, env: set<GuardId>)
    ensures Found(gs, ls, cur, env) != null ==> Registered(Found(gs, ls, cur, env), gs, ls)
  {
  }

  lemma RegisteredGrowsLocal(s: State?, gs: seq<GlobalTransition>, ls: seq<LocalTransition>, t: LocalTransition)
    ensures s != null && Registered(s, gs, ls) ==> Registered(s, gs, ls + [t])
  {
    if s != null && Registered(s, gs, ls) && !(exists i :: 0 <= i < |gs| && gs[i].to == s) {
      var j :| 0 <= j < |ls| && ls[j].to == s;
      assert (ls + [t])[j] == ls[j];
    }
  }

  lemma RegisteredGrowsGlobal(s: State?, gs: seq<GlobalTransition>, ls: seq<LocalTransition>, t: GlobalTransition)
    ensures s != null && Registered(s, gs, ls) ==> Registered(s, gs + [t], ls)
  {
    if s != null && Registered(s, gs, ls) && !(exists j :: 0 <= j < |ls| && ls[j].to == s) {
      var i :| 0 <= i < |gs| && gs[i].to == s;
      assert (gs + [t])[i] == gs[i];
    }
  }

  // ---------------------------------------------------------------------
  // Properties of one frame

  /** No guard holds: the current state stays, and the only hook invoked is
      its tick. */
  lemma NothingFires(gs: seq<GlobalTransition>, ls: seq<LocalTransition>, cur: State?, env: set<GuardId>, dt: real)
    requires !Fired(gs, ls, cur, env)
    ensures AfterTick(cur, Found(gs, ls, cur, env)) == cur
    ensures TickCalls(cur, Found(gs, ls, cur, env), dt) == (if cur != null then [Call(cur, OnTick(dt))] else [])
  {
  }

  /** A self-transition is a no-op: when the yielded target is the current
      state, it is neither exited nor entered, and it is just ticked. */
  lemma SelfTransitionIsNoOp(cur: State, dt: real)
    ensures AfterTick(cur, cur) == cur
    ensures TickCalls(cur, cur, dt) == [Call(cur, OnTick(dt))]
  {
  }

  /** A real switch within one frame invokes exactly: the old state's exit,
      the new state's enter, and the new state's tick with the same `dt`. */
  lemma RealSwitch(cur: State, next: State, dt: real)
    requires next != cur
    ensures AfterTick(cur, next) == next
    ensures TickCalls(cur, next, dt) == [Call(cur, OnExit), Call(next, OnEnter), Call(next, OnTick(dt))]
  {
  }

  /** A switch keeps the lifecycle contract. */
  lemma ChangeKeepsContract(calls: seq<Call>, cur: State?, next: State?)
    requires Conforms(calls) && Active(calls) == cur
    ensures Conforms(calls + ChangeCalls(cur, next))
    ensures Active(calls + ChangeCalls(cur, next)) == next
  {
    if next == cur {
      assert calls + ChangeCalls(cur, next) == calls;
    } else {
      var exited := calls + (if cur != null then [Call(cur, OnExit)] else []);
      if cur != null {
        Extend(calls, Call(cur, OnExit));
      } else {
        assert exited == calls;
      }
      assert Conforms(exited) && Active(exited) == null;
      if next != null {
        Extend(exited, Call(next, OnEnter));
        assert calls + ChangeCalls(cur, next) == exited + [Call(next, OnEnter)];
      } else {
        assert calls + ChangeCalls(cur, next) == exited;
      }
    }
  }

  /** A frame keeps the lifecycle contract: from a conforming log whose active
      state is the current one, the frame's hooks extend it to a conforming
      log whose active state is the new current one. */
  lemma TickKeepsContract(calls: seq<Call>, cur: State?, found: State?, dt: real)
    requires Conforms(calls) && Active(calls) == cur
    ensures Conforms(calls + TickCalls(cur, found, dt))
    ensures Active(calls + TickCalls(cur, found, dt)) == AfterTick(cur, found)
  {
    var next := AfterTick(cur, found);
    var mid := calls + (if found != null then ChangeCalls(cur, found) else []);
    if found != null {
      ChangeKeepsContract(calls, cur, found);
    } else {
      assert mid == calls;
    }
    assert Conforms(mid) && Active(mid) == next;
    if next != null {
      Extend(mid, Call(next, OnTick(dt)));
      assert calls + TickCalls(cur, found, dt) == mid + [Call(next, OnTick(dt))];
    } else {
      assert calls + TickCalls(cur, found, dt) == mid;
    }
  }

  /** A fixed step keeps the lifecycle contract. */
  lemma FixedTickKeepsContract(calls: seq<Call>, cur: State?, fdt: real)
    requires Conforms(calls) && Active(calls) == cur
    ensures Conforms(calls + (if cur != null then [Call(cur, OnFixedTick(fdt))] else []))
    ensures Active(calls + (if cur != null then [Call(cur, OnFixedTick(fdt))] else [])) == cur
  {
    if cur != null {
      Extend(calls, Call(cur, OnFixedTick(fdt)));
    } else {
      assert calls + [] == calls;
    }
  }

  /** Setting the initial state of a machine with no current state keeps the
      lifecycle contract. */
  lemma SetInitialKeepsContract(calls: seq<Call>, s: State?)
    requires Conforms(calls) && Active(calls) == null
    ensures Conforms(calls + (if s != null then [Call(s, OnEnter)] else []))
    ensures Active(calls + (if s != null then [Call(s, OnEnter)] else [])) == s
  {
    if s != null {
      Extend(calls, Call(s, OnEnter));
    } else {
      assert calls + [] == calls;
    }
  }

  /** Setting the initial state again on a machine whose state is active
      breaks the lifecycle contract: a new state is entered without the old
      one being exited, and with null the old state stays active though no
      state is current. */
  lemma SetInitialTwiceBreaksContract(calls: seq<Call>, s: State?)
    requires Conforms(calls) && Active(calls) != null
    ensures s != null ==> !Conforms(calls + [Call(s, OnEnter)])
    ensures !(Conforms(calls + (if s != null then [Call(s, OnEnter)] else [])) &&
              Active(calls + (if s != null then [Call(s, OnEnter)] else [])) == s)
  {
    if s != null {
      Extend(calls, Call(s, OnEnter));
    } else {
      assert calls + [] == calls;
    }
  }
}
