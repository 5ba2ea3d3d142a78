/** The movable agent: following a precomputed path node by node, the hop
    movement with its wander trigger, stopping, the two deferred actions
    (rotate-and-move, restart) that each have at most one pending timer, and
    the hazard and death checks against the terrain. */
module Movement {
  import opened Helpers
  import opened Vectors
  import opened Constants
  import Terrain
  import Random

  /** A node of the current path. Nodes are compared by identity in the
      source; `id` stands for that identity. */
  datatype Node = Node(id: nat, at: Vec)

  /** The callback a pending timer will run, with its delay in milliseconds. */
  datatype Timer = RotateAndMove(velX: real, velY: real, delay: int) | RestartMoving(delay: int)

  datatype MoveState = MoveState(
    position: Vec,
    velocity: Vec,
    speed: real,
    activity: Activity,
    isNewDirectionSet: bool,
    prevAngle: Option<real>,
    previousVelocity: Vec,
    initialPosition: Vec,
    size: real,
    projectedSize: real)

  /** A path node this close to the agent counts as reached. */
  const PathReach: real := 12.0
  /** The speed `stop` leaves behind. */
  const StopSpeed: real := 0.7
  /** A velocity is scaled to `VelocityScale * speed` after normalising. */
  const VelocityScale: real := 0.1
  const RotateDelayRange: real := 500.0
  const RestartDelayRange: real := 5000.0

  /** `max(0, 2 * sin(...))` for the value `sine` of the sine. */
  function Coefficient(sine: real): (c: real)
    ensures c >= 0.0
    ensures c == 0.0 <==> sine <= 0.0
  {
    if 2.0 * sine > 0.0 then 2.0 * sine else 0.0
  }

  /** `!this.state.prevAngle`: an absent angle and the angle 0 are both falsy. */
  predicate Falsy(a: Option<real>) {
    a.None? || a.value == 0.0
  }

  // ---------------------------------------------------------------------
  // The path-consumption loop
  // ---------------------------------------------------------------------

  /** The loop of updateVelocityBasedOnPath: while the pending node is within
      reach, it becomes the current node and the next one is popped from the
      end of the path. The path, pending node and current node after it. */
  function Consume(path: seq<Node>, tmp: Option<Node>, current: Option<Node>, pos: Vec): (r: (seq<Node>, Option<Node>, Option<Node>))
    decreases |path| + (if tmp.Some? then 1 else 0)
  {
    if tmp.Some? && Within(pos, tmp.value.at, PathReach) then
      if |path| == 0 then ([], Option.None, tmp)
      else Consume(path[..|path| - 1], Some(path[|path| - 1]), tmp, pos)
    else (path, tmp, current)
  }

  /** The loop only pops: what is left is a prefix of the path; the pending
      node afterwards is absent or out of reach; and when anything was
      consumed, the current node is one that was within reach. */
  lemma {:induction false} ConsumeOnlyPops(path: seq<Node>, tmp: Option<Node>, current: Option<Node>, pos: Vec)
    ensures var r := Consume(path, tmp, current, pos);
            && |r.0| <= |path| && r.0 == path[..|r.0|]
            && (r.1.None? || !Within(pos, r.1.value.at, PathReach))
            && (r.2 != current ==> r.2.Some? && Within(pos, r.2.value.at, PathReach))
            && (r.1.Some? && |r.0| < |path| ==> r.1 == Some(path[|r.0|]))
            && (r.1.Some? && |r.0| == |path| ==> r == (path, tmp, current))
    decreases |path| + (if tmp.Some? then 1 else 0)
  {
    if tmp.Some? && Within(pos, tmp.value.at, PathReach) && |path| > 0 {
      var p := path[..|path| - 1];
      var next := Some(path[|path| - 1]);
      ConsumeOnlyPops(p, next, tmp, pos);
      var r := Consume(p, next, tmp, pos);
      assert Consume(path, tmp, current, pos) == r;
      assert p[..|r.0|] == path[..|r.0|];
      if r.1.Some? && |r.0| == |p| {
        assert r.1 == next;
      }
    }
  }

  /** A pending node out of reach stops the loop at once. */
  lemma ConsumeStopsOutOfReach(path: seq<Node>, tmp: Option<Node>, current: Option<Node>, pos: Vec)
    requires tmp.None? || !Within(pos, tmp.value.at, PathReach)
    ensures Consume(path, tmp, current, pos) == (path, tmp, current)
  {
  }

  // ---------------------------------------------------------------------
  // The wander trigger of move()
  // ---------------------------------------------------------------------

  /** One `move()` as far as the trigger is concerned: whether it wanders, and
      the new `isNewDirectionSet`. */
  function WanderTrigger(flag: bool, coefficient: real, idle: bool): (r: (bool, bool))
    ensures r.0 <==> coefficient == 0.0 && idle && !flag
    ensures coefficient > 0.0 ==> !r.1
    ensures coefficient == 0.0 ==> (r.1 <==> flag || idle)
  {
    var wanders := coefficient == 0.0 && idle && !flag;
    var f := if wanders then true else flag;
    (wanders, if coefficient > 0.0 then false else f)
  }

  /** The number of wanders over a run of `move()` calls with the given
      coefficients, starting from the flag `flag`, while idle. */
  function WanderCount(flag: bool, coefficients: seq<real>): nat
    decreases |coefficients|
  {
    if coefficients == [] then 0
    else
      var r := WanderTrigger(flag, coefficients[0], true);
      (if r.0 then 1 else 0) + WanderCount(r.1, coefficients[1..])
  }

  /** A stretch of zero coefficients triggers at most one wander, and none
      when the flag is already set. */
  lemma {:induction false} AtMostOneWanderPerStill(flag: bool, coefficients: seq<real>)
    requires forall k :: 0 <= k < |coefficients| ==> coefficients[k] == 0.0
    ensures WanderCount(flag, coefficients) <= 1
    ensures flag ==> WanderCount(flag, coefficients) == 0
    decreases |coefficients|
  {
    if coefficients != [] {
      AtMostOneWanderPerStill(true, coefficients[1..]);
    }
  }

  /** A positive coefficient re-arms the trigger. */
  lemma PositiveCoefficientRearms(flag: bool, c: real)
    requires c > 0.0
    ensures WanderCount(flag, [c, 0.0]) == 1
  {
    assert [c, 0.0][1..] == [0.0];
    assert [0.0][1..] == [];
  }

  // ---------------------------------------------------------------------
  // The agent
  // ---------------------------------------------------------------------

  class Movable {
    /** The vector library's normalize, rotate and random. */
    const glm: Glm
    const environment: Terrain.Environment
    /** `config.inheritableProps.baseSpeed`. */
    const baseSpeed: real

    var state: MoveState
    var currentPath: Option<seq<Node>>
    var tmpPathNode: Option<Node>
    var currentPathNode: Option<Node>
    var prevPathNode: Option<Node>

    /** The agent's pending timers by handle, and the next handle to issue. */
    var timers: map<nat, Timer>
    var nextTimerId: nat
    var rotateVelocityAndMoveTimeout: Option<nat>
    var restartMovementTimeout: Option<nat>

    /** The reasons `die` was called with, in order. */
    var deaths: seq<DeathReason>

    /** Each handle field names the one pending timer of its kind, if any. */
    ghost predicate TimersValid()
      reads this
    {
      && (forall id :: id in timers ==> 0 < id < nextTimerId)
      && (rotateVelocityAndMoveTimeout.Some? ==>
            rotateVelocityAndMoveTimeout.value in timers && timers[rotateVelocityAndMoveTimeout.value].RotateAndMove?)
      && (restartMovementTimeout.Some? ==>
            restartMovementTimeout.value in timers && timers[restartMovementTimeout.value].RestartMoving?)
      && (forall id :: id in timers && timers[id].RotateAndMove? ==> rotateVelocityAndMoveTimeout == Some(id))
      && (forall id :: id in timers && timers[id].RestartMoving? ==> restartMovementTimeout == Some(id))
    }

    ghost predicate Valid()
      reads this
    {
      environment.Valid() && TimersValid() && nextTimerId > 0
    }

    constructor (glm: Glm, environment: Terrain.Environment, baseSpeed: real, position: Vec, velocity: Vec)
      requires environment.Valid()
      ensures Valid()
      ensures this.glm == glm && this.environment == environment && this.baseSpeed == baseSpeed
      ensures state == MoveState(position, velocity, baseSpeed, Activity.None, false, Option.None, Zero, position, 20.0, 20.0)
      ensures currentPath.None? && tmpPathNode.None? && currentPathNode.None? && prevPathNode.None?
      ensures timers == map[] && deaths == []
    {
      this.glm, this.environment, this.baseSpeed := glm, environment, baseSpeed;
      state := MoveState(position, velocity, baseSpeed, Activity.None, false, Option.None, Zero, position, 20.0, 20.0);
      currentPath, tmpPathNode, currentPathNode, prevPathNode := Option.None, Option.None, Option.None, Option.None;
      timers, nextTimerId := map[], 1;
      rotateVelocityAndMoveTimeout, restartMovementTimeout := Option.None, Option.None;
      deaths := [];
    }

    /** At most one rotate-and-move timer and one restart timer are pending. */
    lemma AtMostOnePendingOfEachKind()
      requires TimersValid()
      ensures forall i, j :: i in timers && j in timers && timers[i].RotateAndMove? && timers[j].RotateAndMove? ==> i == j
      ensures forall i, j :: i in timers && j in timers && timers[i].RestartMoving? && timers[j].RestartMoving? ==> i == j
    {
    }

    // -------------------------------------------------------------------
    // Velocity updates
    // -------------------------------------------------------------------

    /** The state after `wander()` with the noise value `noise`: nothing
        changes when the velocity is exactly zero; otherwise the speed is the
        base speed, the velocity is turned by the previous angle minus the new
        one and rescaled, the new angle is remembered and the activity is NONE. */
    function Wandered(s: MoveState, noise: real): (t: MoveState)
      ensures s.velocity == Zero ==> t == s
      ensures s.velocity != Zero ==> t.speed == baseSpeed && t.activity == Activity.None
                                     && t.prevAngle == Some(noise * 2.0 * Pi)
      ensures t.position == s.position && t.isNewDirectionSet == s.isNewDirectionSet
      ensures t.previousVelocity == s.previousVelocity && t.projectedSize == s.projectedSize
    {
      if s.velocity == Zero then s
      else
        var angle := noise * 2.0 * Pi;
        var prev := if Falsy(s.prevAngle) then angle else s.prevAngle.value;
        var v := Scale(glm.normalize(glm.rotate(s.velocity, prev - angle)), VelocityScale * baseSpeed);
        s.(speed := baseSpeed, velocity := v, prevAngle := Some(angle), activity := Activity.None)
    }

    /** The first wander turns by zero: with no previous angle, the rotation is
        by `angle - angle`. */
    lemma FirstWanderTurnsByZero(s: MoveState, noise: real)
      requires s.velocity != Zero && Falsy(s.prevAngle)
      ensures Wandered(s, noise).velocity == Scale(glm.normalize(glm.rotate(s.velocity, 0.0)), VelocityScale * baseSpeed)
    {
    }

    method Wander(noise: real)
      modifies this
      ensures state == Wandered(old(state), noise)
      ensures unchanged(this`timers, this`deaths, this`currentPath, this`tmpPathNode, this`currentPathNode,
                        this`prevPathNode, this`nextTimerId, this`rotateVelocityAndMoveTimeout, this`restartMovementTimeout)
    {
      if state.velocity == Zero {
        return;
      }
      state := state.(speed := baseSpeed);
      var angle := noise * 2.0 * Pi;
      if Falsy(state.prevAngle) {
        state := state.(prevAngle := Some(angle));
      }
      var v := glm.rotate(state.velocity, state.prevAngle.value - angle);
      v := glm.normalize(v);
      v := Scale(v, VelocityScale * state.speed);
      state := state.(velocity := v, prevAngle := Some(angle), activity := Activity.None);
    }

    /** `startWandering()`: activity NONE, then wander. */
    method StartWandering(noise: real)
      modifies this
      ensures state == Wandered(old(state).(activity := Activity.None), noise)
      ensures state.activity == Activity.None
      ensures unchanged(this`timers, this`deaths, this`currentPath, this`tmpPathNode, this`currentPathNode,
                        this`prevPathNode, this`nextTimerId, this`rotateVelocityAndMoveTimeout, this`restartMovementTimeout)
    {
      state := state.(activity := Activity.None);
      Wander(noise);
    }

    /** `startMoving()`: base speed, a fresh direction from two draws, then wander. */
    method StartMoving(rng: Random.Rng, noise: real)
      requires rng.Valid()
      modifies this, rng
      ensures rng.Valid() && rng.cursor == old(rng.cursor) + 2
      ensures var r1 := rng.stream(old(rng.cursor));
              var r2 := rng.stream(old(rng.cursor) + 1);
              state == Wandered(old(state).(speed := baseSpeed,
                                            velocity := glm.normalize(Vec(r1 * 2.0 - 1.0, r2 * 2.0 - 1.0))), noise)
      ensures unchanged(this`timers, this`deaths, this`currentPath, this`tmpPathNode, this`currentPathNode,
                        this`prevPathNode, this`nextTimerId, this`rotateVelocityAndMoveTimeout, this`restartMovementTimeout)
    {
      state := state.(speed := baseSpeed);
      var r1 := rng.Next();
      var r2 := rng.Next();
      state := state.(velocity := glm.normalize(Vec(r1 * 2.0 - 1.0, r2 * 2.0 - 1.0)));
      Wander(noise);
    }

    /** `setDirection(x, y)`: head along `(x, y)` at the current speed. */
    method SetDirection(x: real, y: real)
      modifies this
      ensures state == old(state).(velocity := Scale(glm.normalize(Vec(x, y)), VelocityScale * old(state).speed))
      ensures unchanged(this`timers, this`deaths, this`currentPath, this`tmpPathNode, this`currentPathNode,
                        this`prevPathNode, this`nextTimerId, this`rotateVelocityAndMoveTimeout, this`restartMovementTimeout)
    {
      var v := glm.normalize(Vec(x, y));
      state := state.(velocity := Scale(v, VelocityScale * state.speed));
    }

    /** `stop()`: the velocity is saved, the speed set to 0.7 and the velocity zeroed. */
    method Stop()
      modifies this
      ensures state == old(state).(previousVelocity := old(state).velocity, speed := StopSpeed, velocity := Zero)
      ensures unchanged(this`timers, this`deaths, this`currentPath, this`tmpPathNode, this`currentPathNode,
                        this`prevPathNode, this`nextTimerId, this`rotateVelocityAndMoveTimeout, this`restartMovementTimeout)
    {
      state := state.(previousVelocity := state.velocity, speed := StopSpeed, velocity := Zero);
    }

    /** A stopped agent does not wander until something gives it a velocity again. */
    lemma StoppedDoesNotWander(s: MoveState, noise: real)
      ensures var t := s.(previousVelocity := s.velocity, speed := StopSpeed, velocity := Zero);
              Wandered(t, noise) == t
    {
    }

    // -------------------------------------------------------------------
    // Following a path
    // -------------------------------------------------------------------

    /** `updateVelocityBasedOnPath()`: with no path nothing happens. Otherwise
        a first node is popped when none is pending, reached nodes are consumed
        from the end of the path, and the agent steers toward the current node
        when it differs from the previous one, or wanders when no node is left. */
    method UpdateVelocityBasedOnPath(noise: real)
      modifies this
      ensures old(currentPath).None? ==>
                && state == old(state) && currentPath == old(currentPath)
                && tmpPathNode == old(tmpPathNode) && currentPathNode == old(currentPathNode)
                && prevPathNode == old(prevPathNode)
      ensures old(currentPath).Some? ==> currentPath.Some?
      ensures old(currentPath).Some? ==>
                var p0 := old(currentPath).value;
                var start := if old(tmpPathNode).None? then
                               (if |p0| == 0 then ([], Option.None, Option.None)
                                else (p0[..|p0| - 1], Some(p0[|p0| - 1]), Some(p0[|p0| - 1])))
                             else (p0, old(tmpPathNode), old(currentPathNode));
                (currentPath.value, tmpPathNode, currentPathNode)
                == Consume(start.0, start.1, start.2, old(state).position)
      ensures old(currentPath).Some? ==> |currentPath.value| <= |old(currentPath).value|
      ensures old(currentPath).Some? ==> currentPath.value == old(currentPath).value[..|currentPath.value|]
      ensures old(currentPath).Some? && currentPathNode.Some? && currentPathNode != old(prevPathNode) ==>
                prevPathNode == currentPathNode
                && state == old(state).(velocity := Scale(glm.normalize(Vec(currentPathNode.value.at.x - old(state).position.x,
                                                                             currentPathNode.value.at.y - old(state).position.y)),
                                                          VelocityScale * old(state).speed))
      ensures old(currentPath).Some? && currentPathNode.None? ==>
                prevPathNode == old(prevPathNode) && state == Wandered(old(state), noise)
      ensures old(currentPath).Some? && currentPathNode.Some? && currentPathNode == old(prevPathNode) ==>
                prevPathNode == old(prevPathNode) && state == old(state)
      ensures unchanged(this`timers, this`deaths, this`nextTimerId, this`rotateVelocityAndMoveTimeout, this`restartMovementTimeout)
    {
      if currentPath.None? {
        return;
      }
      ghost var p0 := currentPath.value;
      if tmpPathNode.None? {
        var path := currentPath.value;
        if |path| == 0 {
          tmpPathNode := Option.None;
        } else {
          tmpPathNode := Some(path[|path| - 1]);
          currentPath := Some(path[..|path| - 1]);
        }
        currentPathNode := tmpPathNode;
      }
      ghost var startPath := currentPath.value;
      ghost var target := Consume(currentPath.value, tmpPathNode, currentPathNode, state.position);
      assert startPath == p0[..|startPath|];
      while tmpPathNode.Some? && Within(state.position, tmpPathNode.value.at, PathReach)
        invariant currentPath.Some?
        invariant Consume(currentPath.value, tmpPathNode, currentPathNode, state.position) == target
        invariant |currentPath.value| <= |p0| && currentPath.value == p0[..|currentPath.value|]
        invariant state == old(state)
        invariant unchanged(this`timers, this`deaths, this`nextTimerId, this`rotateVelocityAndMoveTimeout,
                            this`restartMovementTimeout, this`prevPathNode)
        decreases |currentPath.value| + (if tmpPathNode.Some? then 1 else 0)
      {
        currentPathNode := tmpPathNode;
        var path := currentPath.value;
        if |path| == 0 {
          tmpPathNode := Option.None;
        } else {
          tmpPathNode := Some(path[|path| - 1]);
          currentPath := Some(path[..|path| - 1]);
          assert path[..|path| - 1] == p0[..|path| - 1];
        }
      }
      if currentPathNode.Some? && currentPathNode != prevPathNode {
        SetDirection(currentPathNode.value.at.x - state.position.x, currentPathNode.value.at.y - state.position.y);
        prevPathNode := currentPathNode;
      } else if currentPathNode.None? {
        Wander(noise);
      }
    }

    // -------------------------------------------------------------------
    // move()
    // -------------------------------------------------------------------

    /** `move()`: the movement is the velocity scaled by the time-scaled
        coefficient, computed before any wander. A zero coefficient wanders
        once while idle and sets the flag; a positive one clears the flag. */
    method Move(sine: real, scaleByDeltaTime: real -> real, noise: real)
      modifies this
      ensures var c := Coefficient(sine);
              var trig := WanderTrigger(old(state).isNewDirectionSet, c, old(state).activity == Activity.None);
              var w := if trig.0 then Wandered(old(state), noise) else old(state);
              state == w.(isNewDirectionSet := trig.1,
                          position := Add(old(state).position, Scale(old(state).velocity, scaleByDeltaTime(c))),
                          projectedSize := old(state).size + 5.0 * c)
      ensures unchanged(this`timers, this`deaths, this`currentPath, this`tmpPathNode, this`currentPathNode,
                        this`prevPathNode, this`nextTimerId, this`rotateVelocityAndMoveTimeout, this`restartMovementTimeout)
    {
      var coefficient := Coefficient(sine);
      var movement := Scale(state.velocity, scaleByDeltaTime(coefficient));
      if coefficient == 0.0 && state.activity == Activity.None && !state.isNewDirectionSet {
        Wander(noise);
        state := state.(isNewDirectionSet := true);
      }
      if coefficient > 0.0 {
        state := state.(isNewDirectionSet := false);
      }
      state := state.(position := Add(state.position, movement), projectedSize := state.size + 5.0 * coefficient);
    }

    // -------------------------------------------------------------------
    // Deferred actions
    // -------------------------------------------------------------------

    /** `Math.floor((Math.random() * range) / scaleByDeltaTime(1))`. */
    static function Delay(r: real, range: real, unitScale: real): int
      requires unitScale > 0.0
    {
      ((r * range) / unitScale).Floor
    }

    /** `scheduleRotateVelocityAndMove(velX, velY)`: any pending timer of this
        kind is cleared, and a new one is set with a fresh handle. */
    method ScheduleRotateVelocityAndMove(velX: real, velY: real, rng: Random.Rng, unitScale: real)
      requires Valid() && rng.Valid() && unitScale > 0.0
      modifies this, rng
      ensures Valid() && rng.Valid() && rng.cursor == old(rng.cursor) + 1
      ensures nextTimerId == old(nextTimerId) + 1
      ensures rotateVelocityAndMoveTimeout == Some(old(nextTimerId))
      ensures var cleared := if old(rotateVelocityAndMoveTimeout).Some?
                             then old(timers) - {old(rotateVelocityAndMoveTimeout).value} else old(timers);
              timers == cleared[old(nextTimerId) := RotateAndMove(velX, velY,
                                    Delay(rng.stream(old(rng.cursor)), RotateDelayRange, unitScale))]
      ensures state == old(state)
      ensures unchanged(this`deaths, this`restartMovementTimeout, this`currentPath, this`tmpPathNode, this`currentPathNode, this`prevPathNode)
    {
      if rotateVelocityAndMoveTimeout.Some? {
        timers := timers - {rotateVelocityAndMoveTimeout.value};
      }
      var r := rng.Next();
      var id := nextTimerId;
      timers := timers[id := RotateAndMove(velX, velY, Delay(r, RotateDelayRange, unitScale))];
      nextTimerId := nextTimerId + 1;
      rotateVelocityAndMoveTimeout := Some(id);
    }

    /** `scheduleStartMovingWithRandomVelocity()`: the same rule for the restart timer. */
    method ScheduleStartMovingWithRandomVelocity(rng: Random.Rng, unitScale: real)
      requires Valid() && rng.Valid() && unitScale > 0.0
      modifies this, rng
      ensures Valid() && rng.Valid() && rng.cursor == old(rng.cursor) + 1
      ensures nextTimerId == old(nextTimerId) + 1
      ensures restartMovementTimeout == Some(old(nextTimerId))
      ensures var cleared := if old(restartMovementTimeout).Some?
                             then old(timers) - {old(restartMovementTimeout).value} else old(timers);
              timers == cleared[old(nextTimerId) := RestartMoving(Delay(rng.stream(old(rng.cursor)), RestartDelayRange, unitScale))]
      ensures state == old(state)
      ensures unchanged(this`deaths, this`rotateVelocityAndMoveTimeout, this`currentPath, this`tmpPathNode, this`currentPathNode, this`prevPathNode)
    {
      if restartMovementTimeout.Some? {
        timers := timers - {restartMovementTimeout.value};
      }
      var r := rng.Next();
      var id := nextTimerId;
      timers := timers[id := RestartMoving(Delay(r, RestartDelayRange, unitScale))];
      nextTimerId := nextTimerId + 1;
      restartMovementTimeout := Some(id);
    }

    /** A pending timer fires: its handle is cleared, then its callback runs.
        The rotate callback heads along the saved velocity turned by pi, then
        wanders; the restart callback calls startMoving. */
    method Fire(id: nat, rng: Random.Rng, noise: real)
      requires Valid() && rng.Valid() && id in timers
      modifies this, rng
      ensures Valid() && rng.Valid()
      ensures timers == old(timers) - {id}
      ensures old(timers)[id].RotateAndMove? ==>
                rotateVelocityAndMoveTimeout.None? && rng.cursor == old(rng.cursor)
                && state == Wandered(old(state).(velocity := glm.rotate(glm.normalize(
                                       Vec(old(timers)[id].velX, old(timers)[id].velY)), Pi)), noise)
      ensures old(timers)[id].RotateAndMove? ==> restartMovementTimeout == old(restartMovementTimeout)
      ensures old(timers)[id].RestartMoving? ==>
                restartMovementTimeout.None? && rotateVelocityAndMoveTimeout == old(rotateVelocityAndMoveTimeout)
                && rng.cursor == old(rng.cursor) + 2
                && var r1 := rng.stream(old(rng.cursor));
                   var r2 := rng.stream(old(rng.cursor) + 1);
                   state == Wandered(old(state).(speed := baseSpeed,
                                                 velocity := glm.normalize(Vec(r1 * 2.0 - 1.0, r2 * 2.0 - 1.0))), noise)
      ensures unchanged(this`deaths, this`nextTimerId, this`currentPath, this`tmpPathNode, this`currentPathNode, this`prevPathNode)
    {
      var t := timers[id];
      timers := timers - {id};
      match t
      case RotateAndMove(velX, velY, _) =>
        rotateVelocityAndMoveTimeout := Option.None;
        state := state.(velocity := glm.rotate(glm.normalize(Vec(velX, velY)), Pi));
        Wander(noise);
      case RestartMoving(_) =>
        restartMovementTimeout := Option.None;
        StartMoving(rng, noise);
    }

    // -------------------------------------------------------------------
    // checkEnvironment()
    // -------------------------------------------------------------------

    /** The next position leaves the viewport while heading outward, or is water. */
    predicate Hazard(next: Vec, velocity: Vec)
      requires environment.Valid()
      reads environment, environment.tiles
    {
      || (next.x < 0.0 && velocity.x < 0.0)
      || (next.x > environment.width && velocity.x > 0.0)
      || (next.y < 0.0 && velocity.y < 0.0)
      || (next.y > environment.height && velocity.y > 0.0)
      || environment.IsWater(next.x.Floor as real, next.y.Floor as real)
    }

    predicate OffViewport(p: Vec) {
      p.x < 0.0 || p.x > environment.width || p.y < 0.0 || p.y > environment.height
    }

    /** The cause `checkEnvironment` reports for a position, if any:
        out of bounds first, then drowning. */
    function DeathAt(p: Vec): (d: Option<DeathReason>)
      requires environment.Valid()
      reads environment, environment.tiles
      ensures OffViewport(p) ==> d == Some(DeathReason.OutOfBounds)
      ensures !OffViewport(p) ==> (d == Some(Drawn) <==> environment.IsWater(p.x.Floor as real, p.y.Floor as real))
      ensures d.None? <==> !OffViewport(p) && !environment.IsWater(p.x.Floor as real, p.y.Floor as real)
    {
      if OffViewport(p) then Some(DeathReason.OutOfBounds)
      else if environment.IsWater(p.x.Floor as real, p.y.Floor as real) then Some(Drawn)
      else Option.None
    }

    /** `checkEnvironment()`: a hazard ahead stops the agent, and then either it
        starts drinking (when it was fetching water) or a rotate-and-move is
        scheduled with the velocity it had; afterwards `die` is called for the
        current position when it is out of bounds or on water. */
    method CheckEnvironment(sine: real, scaleByDeltaTime: real -> real, rng: Random.Rng, unitScale: real)
      requires Valid() && rng.Valid() && unitScale > 0.0
      modifies this, rng
      ensures Valid() && rng.Valid()
      ensures var next := Add(old(state).position, Scale(old(state).velocity, scaleByDeltaTime(Coefficient(sine))));
              var hazard := Hazard(next, old(state).velocity);
              var stopped := old(state).(previousVelocity := old(state).velocity, speed := StopSpeed, velocity := Zero);
              && (!hazard ==> state == old(state) && timers == old(timers) && rng.cursor == old(rng.cursor))
              && (hazard && old(state).activity == FetchingWater ==>
                    state == stopped.(activity := Drinking) && timers == old(timers) && rng.cursor == old(rng.cursor))
              && (hazard && old(state).activity != FetchingWater ==>
                    state == stopped && rotateVelocityAndMoveTimeout == Some(old(nextTimerId))
                    && nextTimerId == old(nextTimerId) + 1
                    && timers == (if old(rotateVelocityAndMoveTimeout).Some?
                                  then old(timers) - {old(rotateVelocityAndMoveTimeout).value} else old(timers))
                                 [old(nextTimerId) := RotateAndMove(old(state).velocity.x, old(state).velocity.y,
                                                        Delay(rng.stream(old(rng.cursor)), RotateDelayRange, unitScale))]
                    && rng.cursor == old(rng.cursor) + 1)
              && (!hazard || old(state).activity == FetchingWater ==>
                    nextTimerId == old(nextTimerId) && rotateVelocityAndMoveTimeout == old(rotateVelocityAndMoveTimeout))
      ensures unchanged(this`restartMovementTimeout, this`currentPath, this`tmpPathNode, this`currentPathNode, this`prevPathNode)
      ensures var d := DeathAt(old(state).position);
              deaths == old(deaths) + (if d.Some? then [d.value] else [])
    {
      var movement := Scale(state.velocity, scaleByDeltaTime(Coefficient(sine)));
      var next := Add(state.position, movement);
      if Hazard(next, state.velocity) {
        if state.activity != FetchingWater {
          Stop();
          ScheduleRotateVelocityAndMove(state.previousVelocity.x, state.previousVelocity.y, rng, unitScale);
        } else {
          state := state.(activity := Drinking);
          Stop();
        }
      }
      var d := DeathAt(state.position);
      if d.Some? {
        deaths := deaths + [d.value];
      }
    }
  }
}
