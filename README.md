# Guard AI finite-state machine

This project models the small finite-state-machine runtime that drives the
guard agents of TheSneakyGame. It also models the lifecycle contract that
every state of that machine follows, and the Return behaviour, whose "at
post" flag feeds one of the machine's guards. Properties of all three are
proved with Dafny.

- `lifecycle.dfy` (module `Lifecycle`): a state is an object with a constant
  name. Its four hooks (enter, tick, fixed tick, exit) are recorded as `Call`
  values. `Conforms` is the protocol the contract describes:
  - a state is entered only while no state is active;
  - it is ticked, fixed-ticked and exited only while it is the active state.

  Lemmas derive the per-state alternation of enter and exit from `Conforms`.
- `state_machine.dfy` (module `Machine`): the class `StateMachine` holds
  - the current state;
  - the ordered, append-only lists of local transitions `(from, to, guard)`
    and global transitions `(to, guard)`;
  - a log of every hook it invoked (`calls`);
  - a log of every guard it invoked (`guardCalls`).

  Each method is proved against specification functions, such as `Found`
  (the target the scan yields) and `Scanned` (the guards the scan invokes).
  Lemmas about those functions state the following:
  - globals take priority over locals;
  - the first match wins;
  - only locals that leave the current state are consulted;
  - the scan short-circuits;
  - a self-transition is a no-op;
  - each frame keeps the lifecycle contract.
- `return_state.dfy` (module `ReturnBehaviour`): the navigation agent is
  reduced to the fields the Return behaviour reads and writes, and the post
  to its position. `Latch` is one tick's effect on the flag, and `LatchAll`
  folds it over the ticks since the last entry. The object keeps the arrival
  tests of those ticks in a ghost field. Its entry, its ticks and the machine
  frames that deliver hooks to it all keep the flag equal to that fold
  (`Latched`).
- `guard_scenario.dfy` (module `GuardScenario`): the guard's own machine,
  Patrol → Chase → Return → Patrol plus a global "seen → Chase" interrupt. It
  is run frame by frame. After each machine tick, the hooks the machine logged
  in that frame are run, in order, on a `ReturnState` object. That object
  ignores hooks addressed to other states.

Guards are opaque. A guard is an identifier (`GuardId`), and each frame's
answers are given as the set of guards that hold in that frame. Real numbers
stand for the source's `float` durations and distances.

The model keeps the code's behaviour where the code is lenient:
- Neither `Tick` nor `FixedTick` raises an error on a machine with no
  current state. `FixedTick` then does nothing, and `Tick` ticks no state.
  `Tick` still scans the guards, though: the globals are asked in order up to
  the first that holds, and a
  fired global, or a fired local whose `from` is null, enters its target,
  which is then ticked in the same frame.
- Registration only appends: a transition whose target is never registered
  as a state is accepted as it is.
- A transition may have a null `from` or `to`. A global transition that
  fires with a null target ends the scan and yields "no transition", so no
  local guard is asked.

## Model

| member | source | states |
|---|---|---|
| Lifecycle.State.constructor | Assets/Scripts/AI/FSM/Core/IState.cs:15-22 | a state's name is fixed at creation and is constant for the object's lifetime |
| Lifecycle.Conforms | Assets/Scripts/AI/FSM/Core/IState.cs:24-65 | the lifecycle contract itself: a log conforms when every call in it was allowed at the point it was made, given the state active just before |
| Lifecycle.Active | Assets/Scripts/AI/FSM/Core/IState.cs:24-31 | a state is active only after some enter of that very state was recorded |
| Lifecycle.Extend | Assets/Scripts/AI/FSM/Core/IState.cs:24-65 | (helper: the one-step unfolding of Conforms and Active used by the machine's contract lemmas) a log extended by one call conforms exactly when the log conformed and the call was allowed for the active state; enter makes the target active, exit makes no state active, ticks keep it |
| Lifecycle.Balanced | Assets/Scripts/AI/FSM/Core/IState.cs:24-65 | in a conforming log each state has been entered once more than exited if it is the active state, and as often otherwise |
| Lifecycle.ConformsPrefix | Assets/Scripts/AI/FSM/Core/IState.cs:24-65 | every prefix of a conforming log conforms |
| Lifecycle.HooksOnlyWhileActive | Assets/Scripts/AI/FSM/Core/IState.cs:33-54 | each call of a conforming log was allowed when made: enter only with no state active; tick, fixed tick and exit only on the active state |
| Lifecycle.EnterExitAlternate | Assets/Scripts/AI/FSM/Core/IState.cs:56-65 | after any prefix of a conforming log, each state's enters equal its exits or exceed them by exactly one |
| Lifecycle.ExitFollowsEnter | Assets/Scripts/AI/FSM/Core/IState.cs:56-65 | every exit of a state is preceded by an unmatched enter of that state |
| Machine.FirstGlobal | Assets/Scripts/AI/FSM/Core/StateMachine.cs:116-118 | the position of the earliest global whose guard holds, with every earlier guard false, or the list's length when none holds |
| Machine.FirstLocal | Assets/Scripts/AI/FSM/Core/StateMachine.cs:121-124 | the position of the earliest local leaving the current state whose guard holds, with no earlier enabled local, or the list's length |
| Machine.Found | Assets/Scripts/AI/FSM/Core/StateMachine.cs:113-128 | the reference definition of the scan's result: the first fired global's target, else the first fired local's target among those leaving the current state, else null |
| Machine.Scanned | Assets/Scripts/AI/FSM/Core/StateMachine.cs:113-128 | the reference definition of the guards the scan invokes, in order: the globals up to the first that holds; only if none holds, the locals leaving the current state up to the first that holds |
| Machine.StateMachine.Valid | Assets/Scripts/AI/FSM/Core/StateMachine.cs:55-78 | the reachability invariant: the current state is absent, a state set as initial, or the target of a registered transition |
| Machine.StateMachine.constructor | Assets/Scripts/AI/FSM/Core/StateMachine.cs:29-49 | a new machine has no current state, empty transition lists and empty logs, and satisfies the lifecycle contract |
| Machine.StateMachine.SetInitial | Assets/Scripts/AI/FSM/Core/StateMachine.cs:55-62 | the state becomes current and, when not null, is entered exactly once; lists unchanged; on a machine with no current state the lifecycle contract is kept |
| Machine.StateMachine.AddTransition | Assets/Scripts/AI/FSM/Core/StateMachine.cs:69-70 | appends exactly one local entry; the current state stays the initial state or a registered target |
| Machine.StateMachine.AddGlobal | Assets/Scripts/AI/FSM/Core/StateMachine.cs:77-78 | appends exactly one global entry; the current state stays the initial state or a registered target |
| Machine.StateMachine.FindTransition | Assets/Scripts/AI/FSM/Core/StateMachine.cs:113-128 | returns the target of the first global whose guard holds, else of the first local leaving the current state whose guard holds, else null, together with exactly the guards it invoked |
| Machine.StateMachine.ChangeState | Assets/Scripts/AI/FSM/Core/StateMachine.cs:138-151 | nothing is invoked when the target is already current; otherwise the old state (if any) is exited, the target becomes current and (if not null) is entered; given a target that is initial or registered, as Tick passes, the current state stays initial or registered; the lifecycle contract is kept, with the target active |
| Machine.StateMachine.Tick | Assets/Scripts/AI/FSM/Core/StateMachine.cs:87-98 | the current state becomes the found target when one fired, the hooks invoked are the switch followed by the new current state's tick with the same dt, the guards invoked are those of the scan, the lists are unchanged, the current state stays the initial state or a registered target, and the lifecycle contract is kept |
| Machine.StateMachine.FixedTick | Assets/Scripts/AI/FSM/Core/StateMachine.cs:104 | only the current state's fixed tick is invoked (nothing when there is none), no guard is asked, the current state does not change and the lifecycle contract is kept |
| Machine.GlobalPriority | Assets/Scripts/AI/FSM/Core/StateMachine.cs:113-118 | when some global guard holds, the result is the first such global's target, even when that is the current state, and no local guard is invoked |
| Machine.FirstLocalWins | Assets/Scripts/AI/FSM/Core/StateMachine.cs:120-124 | with no global firing, the earliest enabled local is the one whose target is returned |
| Machine.LocalsOnlyFromCurrent | Assets/Scripts/AI/FSM/Core/StateMachine.cs:121-124 | a local's guard is invoked only when its from is the current state |
| Machine.ScanInvokesEachGuardOnce | Assets/Scripts/AI/FSM/Core/StateMachine.cs:116-124 | no guard is invoked twice in one scan |
| Machine.ScanStopsAtFirstTrue | Assets/Scripts/AI/FSM/Core/StateMachine.cs:116-124 | every guard invoked but the last answered false, and the last answered true exactly when a transition fired, so nothing after the first true guard is invoked |
| Machine.ScanCompleteWhenNothingFires | Assets/Scripts/AI/FSM/Core/StateMachine.cs:116-127 | when nothing fires, every global guard and every guard of a local leaving the current state is invoked |
| Machine.AppendLocalKeepsMatch | Assets/Scripts/AI/FSM/Core/StateMachine.cs:69-70 | appending a local never overrides an earlier matching local: the result and the guards invoked stay the same |
| Machine.AppendGlobalKeepsMatch | Assets/Scripts/AI/FSM/Core/StateMachine.cs:77-78 | appending a global never overrides an earlier matching global: the result and the guards invoked stay the same |
| Machine.FoundIsRegistered | Assets/Scripts/AI/FSM/Core/StateMachine.cs:113-128 | a non-null target of the scan is the target of a registered transition |
| Machine.RegisteredGrowsLocal | Assets/Scripts/AI/FSM/Core/StateMachine.cs:69-70 | a registered target stays registered after a local is added |
| Machine.RegisteredGrowsGlobal | Assets/Scripts/AI/FSM/Core/StateMachine.cs:77-78 | a registered target stays registered after a global is added |
| Machine.NothingFires | Assets/Scripts/AI/FSM/Core/StateMachine.cs:87-98 | when no guard holds, the current state is unchanged and its tick is the only hook invoked (nothing at all when there is no current state) |
| Machine.SelfTransitionIsNoOp | Assets/Scripts/AI/FSM/Core/StateMachine.cs:138-141 | when the found target is the current state it is neither exited nor entered, only ticked |
| Machine.RealSwitch | Assets/Scripts/AI/FSM/Core/StateMachine.cs:87-151 | a real switch invokes exactly exit of the old state, enter of the new one, then tick of the new one with the same dt |
| Machine.ChangeKeepsContract | Assets/Scripts/AI/FSM/Core/StateMachine.cs:138-151 | a switch keeps the log conforming and makes the new state the active one |
| Machine.TickKeepsContract | Assets/Scripts/AI/FSM/Core/StateMachine.cs:87-98 | a frame keeps the log conforming, with the new current state active |
| Machine.FixedTickKeepsContract | Assets/Scripts/AI/FSM/Core/StateMachine.cs:104 | a fixed step keeps the log conforming and the active state unchanged |
| Machine.SetInitialKeepsContract | Assets/Scripts/AI/FSM/Core/StateMachine.cs:55-62 | setting the initial state when none is active keeps the log conforming, with that state active |
| Machine.SetInitialTwiceBreaksContract | Assets/Scripts/AI/FSM/Core/StateMachine.cs:55-62 | setting the initial state while a state is active breaks the lifecycle contract: a new state is entered without the old one being exited, and with null the old state stays active though no state is current |
| ReturnBehaviour.Agent.SetDestination | Assets/Scripts/AI/FSM/States/ReturnState.cs:19 | the destination given is recorded, after all earlier ones; the agent's path state is assumed to stay as it was (see Left out) |
| ReturnBehaviour.ReturnState.constructor | Assets/Scripts/AI/FSM/States/ReturnState.cs:8-12 | keeps the agent and the post; its name is "Return"; the flag starts false |
| ReturnBehaviour.ReturnState.OnEnter | Assets/Scripts/AI/FSM/States/ReturnState.cs:14-20 | clears the flag, un-stops the agent and gives it exactly one destination: the post's position, or its own position without a post; the agent's path state (`pathPending`, `remainingDistance`) is assumed to stay as it was (see Left out); the recorded arrival tests are cleared, so the flag equals their (empty) fold |
| ReturnBehaviour.Arrived | Assets/Scripts/AI/FSM/States/ReturnState.cs:24 | the arrival test: no path is being computed and the remaining distance is within the stopping distance plus 0.05 |
| ReturnBehaviour.ReturnState.Tick | Assets/Scripts/AI/FSM/States/ReturnState.cs:22-26 | the flag becomes true when the agent is not computing a path and the remaining distance is within the stopping distance plus 0.05; it never goes back to false; the tick's arrival test is recorded, and the flag stays the LatchAll fold of the tests since entry |
| ReturnBehaviour.LatchAllSnoc | Assets/Scripts/AI/FSM/States/ReturnState.cs:22-26 | one more tick extends the fold over the frames since entry by exactly that tick's latch |
| ReturnBehaviour.ReturnState.FixedTick | Assets/Scripts/AI/FSM/States/ReturnState.cs:28 | changes nothing |
| ReturnBehaviour.ReturnState.OnExit | Assets/Scripts/AI/FSM/States/ReturnState.cs:29 | changes nothing |
| ReturnBehaviour.LatchNeverClears | Assets/Scripts/AI/FSM/States/ReturnState.cs:22-26 | once the flag is true, no sequence of frames sets it back to false |
| ReturnBehaviour.AtPostIffArrivedOnce | Assets/Scripts/AI/FSM/States/ReturnState.cs:14-26 | after entry, the fold is true exactly when some frame since found the agent arrived; with `Latched`, this holds for the object's flag and its recorded arrival tests |
| GuardScenario.GuardTransitions | Assets/Scripts/Agents/Guard.cs:41-47 | for the guard's transitions: seen from Patrol gives Chase, lost sight in Chase gives Return, Return stays until the flag is set and then gives Patrol whether or not sight is still lost, and seeing the player gives Chase from any state |
| GuardScenario.BuildGuardMachine | Assets/Scripts/Agents/Guard.cs:40-47 | the built machine has Patrol current and entered once, the three locals and the one global in order, and satisfies the lifecycle contract |
| GuardScenario.NewGuard | Assets/Scripts/Agents/Guard.cs:32-47 | the guard's setup: three distinct states named Patrol, Chase and Return, the agent with no destination yet from the Return behaviour and a stopping distance of 0.5, the post as home, the flag cleared, and the machine built over them with Patrol entered |
| GuardScenario.ReturnFrame | Assets/Scripts/AI/FSM/Core/StateMachine.cs:87-98 | for any frame of a machine: if the frame enters Return, the flag becomes that frame's arrival test and the agent gets exactly one destination; if Return stays current, the flag latches; otherwise the flag is kept and nothing is sent |
| GuardScenario.RunFrame | Assets/Scripts/Agents/Guard.cs:50-54 | one frame of the guard: the machine ticks with the frame's guard answers, the Return guard reading the flag as it stands, and the Return behaviour then runs exactly the hooks the machine logged in that frame; the machine's new state is the tick's, and the flag and destinations move as ReturnFrame says; the flag stays the fold of the arrival tests since entry |
| GuardScenario.PatrolChaseReturn | Assets/Scripts/Agents/Guard.cs:32-54 | four frames make the machine's current state Patrol, Chase, Return, Return, Patrol; the full hook log is given, with exactly one enter and one exit of Return, and conforms to the lifecycle contract; the Return behaviour sends the agent to its post exactly once |
| GuardScenario.SpotAndLose | Assets/Scripts/Agents/Guard.cs:50-54 | from Patrol, seeing the player switches to Chase (exit Patrol, enter Chase, tick Chase), and losing sight switches to Return (exit Chase, enter Return, tick Return); the Return behaviour's entry sends the agent home once and leaves the flag cleared |
| GuardScenario.ArriveAndResume | Assets/Scripts/Agents/Guard.cs:50-54 | the frame in which the agent arrives only ticks Return, which latches the flag; the next frame's guard reads it, and the machine exits Return and enters and ticks Patrol; no destination is sent |
| ReturnBehaviour.Sends | Assets/Scripts/AI/FSM/States/ReturnState.cs:14-20 | the destinations a sequence of hooks gives the agent: as many as the enters of the Return state, each of them the home position |
| ReturnBehaviour.Snoc | Assets/Scripts/AI/FSM/States/ReturnState.cs:14-29 | (helper: the one-step unfolding of FlagAfter and Sends used by ReturnFrame) one more hook moves the flag and the destinations by that hook alone |
| ReturnBehaviour.ReturnState.Deliver | Assets/Scripts/AI/FSM/States/ReturnState.cs:14-29 | a hook addressed to the Return state runs the matching member (enter, tick, fixed tick, exit); a hook on another state changes nothing |
| ReturnBehaviour.ReturnState.DeliverAll | Assets/Scripts/AI/FSM/States/ReturnState.cs:14-29 | running a sequence of hooks leaves the flag and the destinations as FlagAfter and Sends say, resumes the agent exactly when Return was entered, and leaves the arrival inputs unchanged; the flag stays the fold of the arrival tests since entry |

## Left out

- States other than Return: PatrolState (random points, navigation mesh sampling, a float dwell timer), ChaseState (rotation and velocity geometry), AttackState (empty bodies). In the scenario, Patrol and Chase are bare states with names only.
- Dynamic dispatch on states: the machine records the hooks it invokes in its `calls` log instead of calling into state objects. The scenario runs each frame's logged hooks on the `ReturnState` object after the machine's tick, not interleaved with it. No guard reads the flag between those two points, so the flag a guard sees is the same. Patrol and Chase receive their hooks only in the log.
- Guard bodies, their side effects and their exceptions: a guard is an identifier whose answer for the frame is an input. The field-of-view test and the `Time.time` arithmetic of the guard's "sight lost" condition are not part of this model. In the scenario, the frame in which sight counts as lost stands for the first frame after more than 2.0 seconds of Chase frames without the player in view. The Chase frames in between are not run. Each of them would only add a tick of Chase to the hook log and the scan's guard invocations to the guard log; the current state and the Return behaviour are untouched. From that frame on, sight stays lost until the player is seen again.
- Float arithmetic: durations and distances are exact reals, so float rounding in the arrival test is not modelled.
- The navigation agent is reduced to the fields the Return behaviour reads and writes; path planning and movement are not modelled, so the scenario sets `pathPending` and `remainingDistance` by hand.
- ReturnBehaviour.Agent.SetDestination: a new destination is assumed to leave `pathPending` and `remainingDistance` as they were. The engine starts computing a new path instead, and `pathPending` holds while it runs.
- ReturnBehaviour.ReturnState.OnEnter: because of that assumption, the tick that follows entry in the same frame reads the arrival test of the agent's previous path. When the agent was already within reach of its previous destination with no path pending, the model latches the flag in the entry frame, where the engine would most likely see a pending path and keep it false. The scenario sets `pathPending` before the entry frame so that it reads like the engine.
- GuardScenario.RunFrame: for the same reason, its flag in the frame that enters Return is the arrival test read before entry.
- The agent's `destinations` records only the Return behaviour's commands. Patrol (Assets/Scripts/AI/FSM/States/PatrolState.cs:21, 43 and 45) and Chase (Assets/Scripts/AI/FSM/States/ChaseState.cs:64) command the same agent, and Patrol's fallback destination is the post itself. So "no destination yet" and "sent to its post exactly once" are statements about Return's commands.
- The post object's Unity "destroyed object is false" behaviour: the post is absent exactly when it is null.
- FieldOfView, VisionConeMesh, Player, CameraController, GoalScript and ConeColourByState are not part of this model (rendering, input, physics and UI).
- Machine.StateMachine.SetInitial: the lifecycle contract is guaranteed only when the machine has no current state. Calling it again while a state is active enters the new state without exiting the old one. Calling it with null then leaves the old state active though no state is current. `SetInitialTwiceBreaksContract` proves that both break the contract.
