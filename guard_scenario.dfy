/**
 * The machine the guard agent builds: Patrol initially; Patrol -> Chase when
 * the player is seen; Chase -> Return once sight has been lost for long
 * enough; Return -> Patrol once the Return behaviour reports it is at its
 * post; and a global "seen -> Chase" interrupt. The hooks the machine logs
 * for the Return state are delivered to the ReturnState object here.
 */
module GuardScenario {
  import opened Lifecycle
  import opened Machine
  import opened ReturnBehaviour

  const CanSeePlayer: GuardId := 0
  const LostSight: GuardId := 1
  const ReturnedToPost: GuardId := 2

  /** The guards' answers in a frame where the player is (not) seen, sight
      has (not) been lost for long enough, and the Return flag is (not) set. */
  function Frame(seen: bool, lost: bool, atPost: bool): set<GuardId> {
    (if seen then {CanSeePlayer} else {}) + (if lost then {LostSight} else {}) + (if atPost then {ReturnedToPost} else {})
  }

  function GuardGlobals(chase: State): seq<GlobalTransition> {
    [GlobalTransition(chase, CanSeePlayer)]
  }

  function GuardLocals(patrol: State, chase: State, ret: State): seq<LocalTransition> {
    [LocalTransition(patrol, chase, CanSeePlayer),
     LocalTransition(chase, ret, LostSight),
     LocalTransition(ret, patrol, ReturnedToPost)]
  }

  /** What the guard's transitions yield: seeing the player from Patrol leads
      to Chase; losing sight in Chase leads to Return; in Return nothing fires
      until the flag is set, and then Patrol follows; seeing the player leads
      to Chase from any state, through the global interrupt. */
  lemma GuardTransitions(patrol: State, chase: State, ret: State)
    requires patrol != chase && chase != ret && ret != patrol
    ensures Found(GuardGlobals(chase), GuardLocals(patrol, chase, ret), patrol, Frame(true, false, false)) == chase
    ensures Found(GuardGlobals(chase), GuardLocals(patrol, chase, ret), chase, Frame(false, true, false)) == ret
    ensures forall lost :: !Fired(GuardGlobals(chase), GuardLocals(patrol, chase, ret), ret, Frame(false, lost, false))
    ensures forall lost :: Found(GuardGlobals(chase), GuardLocals(patrol, chase, ret), ret, Frame(false, lost, true)) == patrol
    ensures forall cur, lost, atPost :: Found(GuardGlobals(chase), GuardLocals(patrol, chase, ret), cur, Frame(true, lost, atPost)) == chase
  {
    var gs, ls := GuardGlobals(chase), GuardLocals(patrol, chase, ret);
    assert FirstGlobal(gs, Frame(false, true, false)) == 1;
    assert FirstLocal(ls, chase, Frame(false, true, false)) == 1 by {
      assert FirstLocal(ls[1..], chase, Frame(false, true, false)) == 0;
    }
    forall lost: bool
      ensures !Fired(gs, ls, ret, Frame(false, lost, false))
      ensures Found(gs, ls, ret, Frame(false, lost, true)) == patrol
    {
      assert FirstGlobal(gs, Frame(false, lost, false)) == 1;
      assert FirstLocal(ls, ret, Frame(false, lost, false)) == 3 by {
        assert FirstLocal(ls[1..][1..][1..], ret, Frame(false, lost, false)) == 0;
      }
      assert FirstGlobal(gs, Frame(false, lost, true)) == 1;
      assert FirstLocal(ls, ret, Frame(false, lost, true)) == 2 by {
        assert FirstLocal(ls[1..][1..], ret, Frame(false, lost, true)) == 0;
      }
    }
  }

  /** Builds the guard's machine: Patrol is entered first, then the three
      local transitions and the global interrupt are registered. */
  method BuildGuardMachine(patrol: State, chase: State, ret: State) returns (fsm: StateMachine)
    ensures fresh(fsm) && fsm.Valid() && fsm.Protocol()
    ensures fsm.current == patrol && fsm.calls == [Call(patrol, OnEnter)]
    ensures fsm.globals == GuardGlobals(chase) && fsm.locals == GuardLocals(patrol, chase, ret)
  {
    fsm := new StateMachine();
    fsm.SetInitial(patrol);
    fsm.AddTransition(patrol, chase, CanSeePlayer);
    fsm.AddTransition(chase, ret, LostSight);
    fsm.AddTransition(ret, patrol, ReturnedToPost);
    fsm.AddGlobal(chase, CanSeePlayer);
  }

  /** What one frame of a machine does to the Return behaviour whose state
      is `s`, when the frame's scan yielded `found` and `arrived` is the
      agent's arrival test: entering `s` in this frame leaves the flag equal
      to the arrival test and gives the agent one destination; staying in `s`
      latches the flag; otherwise the flag is kept and nothing is sent. */
  lemma ReturnFrame(cur: State?, found: State?, s: State, dt: real, atPost: bool, arrived: bool, home: Point)
    ensures FlagAfter(atPost, TickCalls(cur, found, dt), s, arrived) ==
      (if AfterTick(cur, found) != s then atPost
       else if cur == s then Latch(atPost, arrived)
       else arrived)
    ensures Sends(TickCalls(cur, found, dt), s, home) ==
      (if AfterTick(cur, found) == s && cur != s then [home] else [])
    ensures EnterCount(TickCalls(cur, found, dt), s) == (if AfterTick(cur, found) == s && cur != s then 1 else 0)
  {
    var next := AfterTick(cur, found);
    var tick := if next != null then [Call(next, OnTick(dt))] else [];
    var change := if found != null then ChangeCalls(cur, found) else [];
    assert TickCalls(cur, found, dt) == change + tick;
    if change != [] {
      var exit := if cur != null then [Call(cur, OnExit)] else [];
      assert change == exit + [Call(found, OnEnter)];
      if cur != null {
        Snoc(atPost, [], Call(cur, OnExit), s, arrived, home);
      }
      Snoc(atPost, exit, Call(found, OnEnter), s, arrived, home);
    }
    if next != null {
      Snoc(atPost, change, Call(next, OnTick(dt)), s, arrived, home);
    } else {
      assert change + tick == change;
    }
    assert EnterCount(TickCalls(cur, found, dt), s) == |Sends(TickCalls(cur, found, dt), s, home)|;
  }

  /** One frame of the guard (its Update): the machine ticks with this
      frame's guard answers, where the Return guard reads the flag as it
      stands, and the hooks the machine invoked in this frame are then run
      on the Return behaviour. */
  method RunFrame(fsm: StateMachine, ret: ReturnState, seen: bool, lost: bool, dt: real)
    requires fsm.Valid()
    modifies fsm, ret`AtPost, ret`arrivals, ret.agent`isStopped, ret.agent`destinations
    ensures fsm.current == AfterTick(old(fsm.current), Found(fsm.globals, fsm.locals, old(fsm.current), Frame(seen, lost, old(ret.AtPost))))
    ensures fsm.calls == old(fsm.calls) + TickCalls(old(fsm.current), Found(fsm.globals, fsm.locals, old(fsm.current), Frame(seen, lost, old(ret.AtPost))), dt)
    ensures fsm.guardCalls == old(fsm.guardCalls) + Scanned(fsm.globals, fsm.locals, old(fsm.current), Frame(seen, lost, old(ret.AtPost)))
    ensures fsm.globals == old(fsm.globals) && fsm.locals == old(fsm.locals) && fsm.initials == old(fsm.initials)
    ensures fsm.Valid() && (old(fsm.Protocol()) ==> fsm.Protocol())
    ensures old(ret.Latched()) ==> ret.Latched()
    ensures ret.AtPost ==
      (if fsm.current != ret.state then old(ret.AtPost)
       else if old(fsm.current) == ret.state then Latch(old(ret.AtPost), old(Arrived(ret.agent)))
       else old(Arrived(ret.agent)))
    ensures ret.agent.destinations == old(ret.agent.destinations) +
      (if fsm.current == ret.state && old(fsm.current) != ret.state then [old(ret.Home())] else [])
    ensures ret.agent.isStopped == (old(ret.agent.isStopped) && !(fsm.current == ret.state && old(fsm.current) != ret.state))
    ensures ret.agent.position == old(ret.agent.position) && ret.agent.pathPending == old(ret.agent.pathPending)
    ensures ret.agent.remainingDistance == old(ret.agent.remainingDistance)
    ensures ret.agent.stoppingDistance == old(ret.agent.stoppingDistance)
  {
    ghost var cur := fsm.current;
    var before := fsm.calls;
    ghost var found := Found(fsm.globals, fsm.locals, cur, Frame(seen, lost, ret.AtPost));
    ghost var atPost, arrived, home := ret.AtPost, Arrived(ret.agent), ret.Home();
    ReturnFrame(cur, found, ret.state, dt, atPost, arrived, home);
    fsm.Tick(dt, Frame(seen, lost, ret.AtPost));
    var delivered := fsm.calls[|before|..];
    assert delivered == TickCalls(cur, found, dt);
    assert ret.AtPost == atPost && Arrived(ret.agent) == arrived && ret.Home() == home;
    ret.DeliverAll(delivered);
  }

  /** The guard's setup (its Start): the three states, an agent at the origin
      that stops within 0.5 of its destination, a post at (1, 0, 2), and the
      machine built over them. */
  method NewGuard() returns (fsm: StateMachine, patrol: State, chase: State, ret: ReturnState)
    ensures fresh(fsm) && fresh(ret) && fresh(ret.agent)
    ensures patrol != chase && chase != ret.state && ret.state != patrol
    ensures patrol.Name == "Patrol" && chase.Name == "Chase" && ret.state.Name == "Return"
    ensures fsm.Valid() && fsm.Protocol() && fsm.current == patrol && fsm.calls == [Call(patrol, OnEnter)]
    ensures fsm.globals == GuardGlobals(chase) && fsm.locals == GuardLocals(patrol, chase, ret.state)
    ensures !ret.AtPost && ret.Home() == Point(1.0, 0.0, 2.0)
    ensures ret.agent.stoppingDistance == 0.5 && ret.agent.destinations == []
  {
    patrol := new State("Patrol");
    chase := new State("Chase");
    var agent := new Agent(Point(0.0, 0.0, 0.0), 0.5);
    var post := new Anchor(Point(1.0, 0.0, 2.0));
    ret := new ReturnState(agent, post);
    fsm := BuildGuardMachine(patrol, chase, ret.state);
  }

  /** Runs four frames of the guard and returns the name of the machine's
      current state after setup and after each frame, the destinations the
      agent was given, every hook the machine invoked, and the states built.
      Seeing the player switches to Chase within that frame; losing sight
      switches to Return, whose entry sends the agent to its post; the frame
      in which the agent arrives only latches the flag, and the next frame's
      guard reads it and switches back to Patrol. */
  method PatrolChaseReturn() returns (names: seq<string>, destinations: seq<Point>, log: seq<Call>, patrol: State, chase: State, back: State)
    ensures names == ["Patrol", "Chase", "Return", "Return", "Patrol"]
    ensures destinations == [Point(1.0, 0.0, 2.0)]
    ensures log == [Call(patrol, OnEnter),
                    Call(patrol, OnExit), Call(chase, OnEnter), Call(chase, OnTick(0.02)),
                    Call(chase, OnExit), Call(back, OnEnter), Call(back, OnTick(0.02)),
                    Call(back, OnTick(0.02)),
                    Call(back, OnExit), Call(patrol, OnEnter), Call(patrol, OnTick(0.02))]
    ensures Conforms(log) && Active(log) == patrol
  {
    var fsm, ret;
    fsm, patrol, chase, ret := NewGuard();
    back := ret.state;
    names := [fsm.current.Name];
    var first := SpotAndLose(fsm, patrol, chase, ret);
    var rest := ArriveAndResume(fsm, patrol, chase, ret);
    names := names + first + rest;
    destinations := ret.agent.destinations;
    log := fsm.calls;
  }

  /** The first two frames, from Patrol: the player is seen and the machine
      switches to Chase; then sight is lost for long enough and the machine
      switches to Return, whose entry sends the agent home while its path is
      still being computed. */
  method SpotAndLose(fsm: StateMachine, patrol: State, chase: State, ret: ReturnState) returns (names: seq<string>)
    requires patrol != chase && chase != ret.state && ret.state != patrol
    requires chase.Name == "Chase" && ret.state.Name == "Return"
    requires fsm.Valid() && fsm.current == patrol && !ret.AtPost
    requires fsm.globals == GuardGlobals(chase) && fsm.locals == GuardLocals(patrol, chase, ret.state)
    modifies fsm, ret`AtPost, ret`arrivals, ret.agent
    ensures names == ["Chase", "Return"]
    ensures fsm.calls == old(fsm.calls) + [Call(patrol, OnExit), Call(chase, OnEnter), Call(chase, OnTick(0.02)),
                                           Call(chase, OnExit), Call(ret.state, OnEnter), Call(ret.state, OnTick(0.02))]
    ensures fsm.Valid() && fsm.current == ret.state && !ret.AtPost
    ensures fsm.globals == old(fsm.globals) && fsm.locals == old(fsm.locals)
    ensures old(fsm.Protocol()) ==> fsm.Protocol()
    ensures ret.agent.destinations == old(ret.agent.destinations) + [old(ret.Home())]
    ensures ret.agent.stoppingDistance == old(ret.agent.stoppingDistance)
  {
    ghost var calls0, home := fsm.calls, ret.Home();
    // Frame 1: the player is in view.
    RunFrame(fsm, ret, true, false, 0.02);
    assert fsm.current == chase && !ret.AtPost && ret.Home() == home &&
           fsm.calls == calls0 + [Call(patrol, OnExit), Call(chase, OnEnter), Call(chase, OnTick(0.02))] by {
      GuardTransitions(patrol, chase, ret.state);
      RealSwitch(patrol, chase, 0.02);
    }
    names := [fsm.current.Name];

    // Frame 2: sight has been lost for longer than the guard's limit (the
    // Chase frames in between, which change nothing here, are not shown);
    // Return is entered and ticked while the agent is still computing its path.
    ghost var calls1, dest1 := fsm.calls, ret.agent.destinations;
    ret.agent.pathPending := true;
    RunFrame(fsm, ret, false, true, 0.02);
    assert fsm.current == ret.state && ret.agent.destinations == dest1 + [home] &&
           fsm.calls == calls1 + [Call(chase, OnExit), Call(ret.state, OnEnter), Call(ret.state, OnTick(0.02))] by {
      GuardTransitions(patrol, chase, ret.state);
      RealSwitch(chase, ret.state, 0.02);
    }
    names := names + [fsm.current.Name];
  }

  /** The last two frames, from Return: the agent arrives, but the guard of
      this frame still reads the cleared flag, so the machine stays in Return
      while the Return behaviour latches the flag; the next frame's guard
      reads it and the machine goes back to Patrol. */
  method ArriveAndResume(fsm: StateMachine, patrol: State, chase: State, ret: ReturnState) returns (names: seq<string>)
    requires patrol != chase && chase != ret.state && ret.state != patrol
    requires patrol.Name == "Patrol" && ret.state.Name == "Return"
    requires fsm.Valid() && fsm.current == ret.state && !ret.AtPost
    requires fsm.globals == GuardGlobals(chase) && fsm.locals == GuardLocals(patrol, chase, ret.state)
    requires ret.agent.stoppingDistance == 0.5
    modifies fsm, ret`AtPost, ret`arrivals, ret.agent
    ensures names == ["Return", "Patrol"]
    ensures fsm.calls == old(fsm.calls) + [Call(ret.state, OnTick(0.02)),
                                           Call(ret.state, OnExit), Call(patrol, OnEnter), Call(patrol, OnTick(0.02))]
    ensures fsm.current == patrol && ret.AtPost
    ensures old(fsm.Protocol()) ==> fsm.Protocol()
    ensures ret.agent.destinations == old(ret.agent.destinations)
  {
    // Frame 3: the agent has arrived; the guard still reads the cleared flag.
    // Sight stays lost: the player has not been seen again.
    ret.agent.pathPending := false;
    ret.agent.remainingDistance := 0.3;
    assert Arrived(ret.agent);
    RunFrame(fsm, ret, false, true, 0.02);
    assert fsm.current == ret.state by {
      GuardTransitions(patrol, chase, ret.state);
      NothingFires(fsm.globals, fsm.locals, ret.state, Frame(false, true, false), 0.02);
    }
    names := [fsm.current.Name];

    // Frame 4: the guard reads the latched flag.
    RunFrame(fsm, ret, false, true, 0.02);
    assert fsm.current == patrol by {
      GuardTransitions(patrol, chase, ret.state);
      RealSwitch(ret.state, patrol, 0.02);
    }
    names := names + [fsm.current.Name];
  }
}
