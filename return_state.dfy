/**
 * The Return behaviour: on entry it clears its "at post" flag and sends the
 * navigation agent back to the post (or to where the agent stands when there
 * is no post); on each frame it latches the flag once the agent reports
 * arrival. The flag is read by a transition guard of the machine.
 *
 * The navigation agent is reduced to the fields this behaviour reads and
 * writes, and the post to its position.
 */
module ReturnBehaviour {
  import opened Lifecycle

  datatype Point = Point(x: real, y: real, z: real)

  /** A post the agent guards: a position in the world. */
  class Anchor {
    var position: Point

    constructor (position: Point)
      ensures this.position == position
    {
      this.position := position;
    }
  }

  /** The navigation agent: where it stands, whether it is halted, the state
      of its current path, and every destination it has been given. */
  class Agent {
    var position: Point
    var isStopped: bool
    var pathPending: bool
    var remainingDistance: real
    var stoppingDistance: real
    var destinations: seq<Point>

    constructor (position: Point, stoppingDistance: real)
      ensures this.position == position && this.stoppingDistance == stoppingDistance
      ensures !isStopped && !pathPending && remainingDistance == 0.0 && destinations == []
    {
      this.position := position;
      this.stoppingDistance := stoppingDistance;
      isStopped := false;
      pathPending := false;
      remainingDistance := 0.0;
      destinations := [];
    }

    /** Asks the agent to path to `p`. */
    method SetDestination(p: Point)
      modifies this`destinations
      ensures destinations == old(destinations) + [p]
    {
      destinations := destinations + [p];
    }
  }

  /** Slack added to the stopping distance in the arrival test. */
  const ArrivalSlack: real := 0.05

  /** The agent has arrived: no path is being computed, and what remains of
      the path is within the stopping distance plus the slack. */
  predicate Arrived(agent: Agent)
    reads agent
  {
    !agent.pathPending && agent.remainingDistance <= agent.stoppingDistance + ArrivalSlack
  }

  /** The flag after one frame: once true it stays true; it becomes true
      when the agent has arrived. */
  function Latch(atPost: bool, arrived: bool): bool {
    atPost || arrived
  }

  /** The flag after frames whose arrival tests were `arrivals`, starting from `atPost`. */
  function LatchAll(atPost: bool, arrivals: seq<bool>): bool
    decreases |arrivals|
  {
    if arrivals == [] then atPost
    else LatchAll(Latch(atPost, arrivals[0]), arrivals[1..])
  }

  /** One more frame extends the fold by one latch: this is the step that
      `ReturnState.Tick` takes on the flag, so after frames with arrival
      tests `arrivals` the flag is `LatchAll` of its value before them. */
  lemma {:induction false} LatchAllSnoc(atPost: bool, arrivals: seq<bool>, arrived: bool)
    ensures LatchAll(atPost, arrivals + [arrived]) == Latch(LatchAll(atPost, arrivals), arrived)
    decreases |arrivals|
  {
    if arrivals == [] {
      assert [] + [arrived] == [arrived];
    } else {
      assert (arrivals + [arrived])[1..] == arrivals[1..] + [arrived];
      LatchAllSnoc(Latch(atPost, arrivals[0]), arrivals[1..], arrived);
    }
  }

  /** Ticks never clear the flag: once true it stays true. */
  lemma {:induction false} LatchNeverClears(atPost: bool, arrivals: seq<bool>)
    requires atPost
    ensures LatchAll(atPost, arrivals)
    decreases |arrivals|
  {
    if arrivals != [] {
      LatchNeverClears(Latch(atPost, arrivals[0]), arrivals[1..]);
    }
  }

  /** After entering (flag cleared), the flag is true exactly when some frame
      since found the agent arrived. */
  lemma {:induction false} AtPostIffArrivedOnce(arrivals: seq<bool>)
    ensures LatchAll(false, arrivals) <==> exists k :: 0 <= k < |arrivals| && arrivals[k]
  {
    if arrivals != [] {
      AtPostIffArrivedOnce(arrivals[1..]);
      if arrivals[0] {
        LatchNeverClears(true, arrivals[1..]);
      } else {
        assert forall k :: 1 <= k < |arrivals| ==> arrivals[k] == arrivals[1..][k - 1];
      }
    }
  }

  /** The flag after the hook `c`, when `s` is the Return behaviour's state
      and `arrived` is the agent's arrival test: entering clears it, a tick
      latches it, anything else (and any hook on another state) keeps it. */
  function FlagAfterCall(atPost: bool, c: Call, s: State, arrived: bool): bool {
    if c.target != s then atPost
    else match c.hook
      case OnEnter => false
      case OnTick(_) => Latch(atPost, arrived)
      case _ => atPost
  }

  /** The flag after the hooks `cs`, in order. */
  function FlagAfter(atPost: bool, cs: seq<Call>, s: State, arrived: bool): bool {
    if cs == [] then atPost
    else FlagAfterCall(FlagAfter(atPost, cs[..|cs| - 1], s, arrived), cs[|cs| - 1], s, arrived)
  }

  /** The destinations the hooks `cs` give the agent: one per enter of `s`,
      each of them `home`. */
  function Sends(cs: seq<Call>, s: State, home: Point): (r: seq<Point>)
    ensures |r| == EnterCount(cs, s)
    ensures forall k :: 0 <= k < |r| ==> r[k] == home
  {
    if cs == [] then []
    else Sends(cs[..|cs| - 1], s, home) + (if cs[|cs| - 1] == Call(s, OnEnter) then [home] else [])
  }

  /** Extending the hooks by one call: the flag and the destinations move by that call alone. */
  lemma Snoc(atPost: bool, cs: seq<Call>, c: Call, s: State, arrived: bool, home: Point)
    ensures FlagAfter(atPost, cs + [c], s, arrived) == FlagAfterCall(FlagAfter(atPost, cs, s, arrived), c, s, arrived)
    ensures Sends(cs + [c], s, home) == Sends(cs, s, home) + Sends([c], s, home)
  {
    assert (cs + [c])[..|cs|] == cs;
    assert [c][..0] == [];
  }

  class ReturnState {
    const agent: Agent
    const post: Anchor?
    /** This behaviour's identity in the machine; its name is "Return". */
    const state: State
    var AtPost: bool
    /** The arrival tests of the ticks since the last entry. */
    ghost var arrivals: seq<bool>

    /** The flag is the fold of the arrival tests since the last entry. */
    ghost predicate Latched()
      reads this
    {
      AtPost == LatchAll(false, arrivals)
    }

    constructor (agent: Agent, post: Anchor?)
      ensures this.agent == agent && this.post == post
      ensures fresh(state) && state.Name == "Return"
      ensures !AtPost && arrivals == [] && Latched()
    {
      this.agent := agent;
      this.post := post;
      state := new State("Return");
      AtPost := false;
      arrivals := [];
    }

    /** Where entering sends the agent: the post, or the agent's own position without a post. */
    function Home(): Point
      reads this, agent, post
    {
      if post != null then post.position else agent.position
    }

    /** Clears the flag, resumes the agent and gives it exactly one
        destination: the post's position, or its own position without a post. */
    method OnEnter()
      modifies this`AtPost, this`arrivals, agent`isStopped, agent`destinations
      ensures !AtPost && !agent.isStopped
      ensures arrivals == [] && Latched()
      ensures agent.destinations == old(agent.destinations) + [old(Home())]
      ensures post != null ==> agent.destinations[|agent.destinations| - 1] == old(post.position)
      ensures post == null ==> agent.destinations[|agent.destinations| - 1] == old(agent.position)
      ensures agent.position == old(agent.position) && agent.pathPending == old(agent.pathPending)
      ensures agent.remainingDistance == old(agent.remainingDistance)
      ensures agent.stoppingDistance == old(agent.stoppingDistance)
    {
      AtPost := false;
      arrivals := [];
      var p := if post != null then post.position else agent.position;
      agent.isStopped := false;
      agent.SetDestination(p);
    }

    /** Latches the flag once the agent has arrived; never clears it. */
    method Tick(dt: real)
      modifies this`AtPost, this`arrivals
      ensures AtPost == Latch(old(AtPost), Arrived(agent))
      ensures old(AtPost) ==> AtPost
      ensures Arrived(agent) ==> AtPost
      ensures arrivals == old(arrivals) + [Arrived(agent)]
      ensures old(Latched()) ==> Latched()
    {
      LatchAllSnoc(false, arrivals, Arrived(agent));
      arrivals := arrivals + [Arrived(agent)];
      if !agent.pathPending && agent.remainingDistance <= agent.stoppingDistance + ArrivalSlack {
        AtPost := true;
      }
    }

    /** Nothing happens on a fixed step. */
    method FixedTick(fdt: real)
      ensures unchanged(this) && unchanged(agent)
    {
    }

    /** Nothing happens on exit. */
    method OnExit()
      ensures unchanged(this) && unchanged(agent)
    {
    }

    /** Runs the hook `c` names when it is addressed to this behaviour's
        state, and ignores it otherwise. */
    method Deliver(c: Call)
      modifies this`AtPost, this`arrivals, agent`isStopped, agent`destinations
      ensures AtPost == FlagAfterCall(old(AtPost), c, state, old(Arrived(agent)))
      ensures old(Latched()) ==> Latched()
      ensures agent.destinations == old(agent.destinations) + Sends([c], state, old(Home()))
      ensures agent.isStopped == (old(agent.isStopped) && c != Call(state, Hook.OnEnter))
      ensures agent.position == old(agent.position) && agent.pathPending == old(agent.pathPending)
      ensures agent.remainingDistance == old(agent.remainingDistance)
      ensures agent.stoppingDistance == old(agent.stoppingDistance)
    {
      assert [c][..0] == [];
      if c.target == state {
        match c.hook
        case OnEnter => OnEnter();
        case OnTick(dt) => Tick(dt);
        case OnFixedTick(fdt) => FixedTick(fdt);
        case OnExit => OnExit();
      }
    }

    /** Delivers the hooks `cs`, in order: the flag and the destinations
        evolve as `FlagAfter` and `Sends` say, and the agent is resumed
        exactly when this behaviour's state was entered. */
    method DeliverAll(cs: seq<Call>)
      modifies this`AtPost, this`arrivals, agent`isStopped, agent`destinations
      ensures AtPost == FlagAfter(old(AtPost), cs, state, old(Arrived(agent)))
      ensures old(Latched()) ==> Latched()
      ensures agent.destinations == old(agent.destinations) + Sends(cs, state, old(Home()))
      ensures agent.isStopped == (old(agent.isStopped) && EnterCount(cs, state) == 0)
      ensures agent.position == old(agent.position) && agent.pathPending == old(agent.pathPending)
      ensures agent.remainingDistance == old(agent.remainingDistance)
      ensures agent.stoppingDistance == old(agent.stoppingDistance)
    {
      for i := 0 to |cs|
        invariant AtPost == FlagAfter(old(AtPost), cs[..i], state, old(Arrived(agent)))
        invariant old(Latched()) ==> Latched()
        invariant agent.destinations == old(agent.destinations) + Sends(cs[..i], state, old(Home()))
        invariant agent.isStopped == (old(agent.isStopped) && EnterCount(cs[..i], state) == 0)
        invariant agent.position == old(agent.position) && agent.pathPending == old(agent.pathPending)
        invariant agent.remainingDistance == old(agent.remainingDistance)
        invariant agent.stoppingDistance == old(agent.stoppingDistance)
      {
        assert cs[..i + 1][..i] == cs[..i];
        Deliver(cs[i]);
      }
      assert cs[..|cs|] == cs;
    }
  }
}
