/** UGoKartReplicationComponent (GoKartReplicationComponent.h:37-88,
    GoKartReplicationComponent.cpp): the per-kart object whose methods update
    the move buffer, the observer's timers and start pose, the server's
    accounting and the replicated snapshot.

    The engine objects it talks to appear as fields of the same object: the
    owning actor's transform (ActorTransform), the movement component's
    velocity and last move (Velocity, LastMove) and the mesh offset root's
    world pose (MeshLocation, MeshRotation). The movement simulator, the move
    validity check and quaternion slerp are code this model cannot see; they
    are fixed deterministic functions given at construction. */
module Replication {
  import opened KartTypes
  import opened Hermite
  import opened MoveBuffer
  import opened ServerAuthority
  import opened Roles
  import opened ObserverTimers

  class GoKartReplicationComponent {
    /** UGoKartMovementComponent::SimulateMove, FGoKartMove::IsValid, FQuat::Slerp. */
    const Simulate: Simulator
    const MoveIsValid: Move -> bool
    const Slerp: (Quat, Quat, real) -> Quat

    /** State of the collaborators the component reads and writes. */
    var ActorTransform: Transform
    var Velocity: Vec3
    var LastMove: Move
    var MeshLocation: Vec3
    var MeshRotation: Quat

    /** The replicated snapshot (ReplicatedUsing = OnRep_ReplicatedServerState). */
    var ServerState: GoKartState

    /** The component's private state. */
    var UnacknowledgedMoves: seq<Move>
    var ClientStartTransform: Transform
    var ClientTimeSinceUpdate: real
    var ClientTimeBetweenLastUpdate: real
    var ClientStartVelocity: Vec3
    var ClientSimulatedTime: real

    /** A freshly created component: every counter zero, an empty buffer and a default snapshot. */
    constructor (simulate: Simulator, moveIsValid: Move -> bool, slerp: (Quat, Quat, real) -> Quat,
                 actorTransform: Transform, velocity: Vec3, lastMove: Move)
      ensures Simulate == simulate && MoveIsValid == moveIsValid && Slerp == slerp
      ensures ActorTransform == actorTransform && Velocity == velocity && LastMove == lastMove
      ensures MeshLocation == actorTransform.Location && MeshRotation == actorTransform.Rotation
      ensures ServerState == InitialState && UnacknowledgedMoves == []
      ensures ClientStartTransform == IdentityTransform && ClientStartVelocity == ZeroVector
      ensures Clock() == Timers(0.0, 0.0) && ClientSimulatedTime == 0.0
    {
      Simulate, MoveIsValid, Slerp := simulate, moveIsValid, slerp;
      ActorTransform, Velocity, LastMove := actorTransform, velocity, lastMove;
      MeshLocation, MeshRotation := actorTransform.Location, actorTransform.Rotation;
      ServerState := InitialState;
      UnacknowledgedMoves := [];
      ClientStartTransform, ClientStartVelocity := IdentityTransform, ZeroVector;
      ClientTimeSinceUpdate, ClientTimeBetweenLastUpdate := 0.0, 0.0;
      ClientSimulatedTime := 0.0;
    }

    /** What the movement simulator works on. */
    function Kin(): Kinematics
      reads this
    {
      Kinematics(ActorTransform, Velocity)
    }

    /** The observer's two timers. */
    function Clock(): Timers
      reads this
    {
      Timers(ClientTimeSinceUpdate, ClientTimeBetweenLastUpdate)
    }

    /** The movement component executing one move. */
    method SimulateMove(move: Move)
      modifies this`ActorTransform, this`Velocity
      ensures Kin() == Simulate(old(Kin()), move)
    {
      var k := Simulate(Kin(), move);
      ActorTransform, Velocity := k.Transform, k.Velocity;
    }

    /** UpdateServerState: the snapshot becomes the move with the actor's
        current transform and velocity. */
    method UpdateServerState(move: Move)
      modifies this`ServerState
      ensures ServerState == GoKartState(move, ActorTransform, Velocity)
    {
      ServerState := GoKartState(move, ActorTransform, Velocity);
    }

    /** Server_SendMove_Implementation: account for the move's time, execute it
        and publish the result. */
    method ServerSendMoveImplementation(move: Move)
      modifies this`ClientSimulatedTime, this`ActorTransform, this`Velocity, this`ServerState
      ensures ClientSimulatedTime == old(ClientSimulatedTime) + move.DeltaTime
      ensures Kin() == Simulate(old(Kin()), move)
      ensures ServerState == GoKartState(move, ActorTransform, Velocity)
    {
      ClientSimulatedTime := ClientSimulatedTime + move.DeltaTime;
      SimulateMove(move);
      UpdateServerState(move);
    }

    /** Server_SendMove as the server receives it: declared WithValidation, so the
        implementation runs only for a move the validation accepts, and a rejected
        move changes nothing. */
    method ServerSendMove(move: Move, worldTime: real) returns (verdict: Verdict)
      modifies this`ClientSimulatedTime, this`ActorTransform, this`Velocity, this`ServerState
      ensures verdict == Validate(old(ClientSimulatedTime), worldTime, move, MoveIsValid)
      ensures ClientSimulatedTime == SimulatedTimeAfter(old(ClientSimulatedTime), worldTime, move, MoveIsValid)
      ensures verdict == Accepted ==>
                Kin() == Simulate(old(Kin()), move) && ServerState == GoKartState(move, ActorTransform, Velocity)
      ensures verdict != Accepted ==> Kin() == old(Kin()) && ServerState == old(ServerState)
    {
      verdict := Validate(ClientSimulatedTime, worldTime, move, MoveIsValid);
      if verdict == Accepted {
        ServerSendMoveImplementation(move);
      }
    }

    /** ClearAcknowledgedMoves: keep, in order, the moves strictly later than the acknowledged one. */
    method ClearAcknowledgedMoves(lastMove: Move)
      modifies this`UnacknowledgedMoves
      ensures UnacknowledgedMoves == Pruned(old(UnacknowledgedMoves), lastMove)
    {
      var newMoves: seq<Move> := [];
      var i := 0;
      while i < |UnacknowledgedMoves|
        invariant 0 <= i <= |UnacknowledgedMoves|
        invariant newMoves == Pruned(UnacknowledgedMoves[..i], lastMove)
      {
        var move := UnacknowledgedMoves[i];
        assert UnacknowledgedMoves[..i + 1][..i] == UnacknowledgedMoves[..i];
        if move.TimeStamp > lastMove.TimeStamp {
          newMoves := newMoves + [move];
        }
        i := i + 1;
      }
      assert UnacknowledgedMoves[..i] == UnacknowledgedMoves;
      UnacknowledgedMoves := newMoves;
    }

    /** The controlling client's reconciliation: the buffer is pruned against the
        snapshot's move, and the simulator ends where replaying the survivors
        from the snapshot's transform and velocity leads; the observer state is untouched. */
    twostate predicate Reconciled()
      reads this
    {
      && UnacknowledgedMoves == Pruned(old(UnacknowledgedMoves), ServerState.LastMove)
      && Kin() == Replay(Simulate, Kinematics(ServerState.Transform, ServerState.Velocity), UnacknowledgedMoves)
      && Clock() == old(Clock())
      && ClientStartTransform == old(ClientStartTransform) && ClientStartVelocity == old(ClientStartVelocity)
    }

    /** AutonomousProxy_OnRep_ReplicatedServerState: snap to the snapshot, prune, replay. */
    method AutonomousProxyOnRep()
      modifies this`ActorTransform, this`Velocity, this`UnacknowledgedMoves
      ensures Reconciled()
    {
      ActorTransform := ServerState.Transform;
      Velocity := ServerState.Velocity;
      ClearAcknowledgedMoves(ServerState.LastMove);
      ReplayMoves(UnacknowledgedMoves);
    }

    /** The loop over the buffer at the end of the reconciliation: each move is
        executed in order on the result of the ones before it. */
    method ReplayMoves(moves: seq<Move>)
      modifies this`ActorTransform, this`Velocity
      ensures Kin() == Replay(Simulate, old(Kin()), moves)
    {
      ghost var start := Kin();
      var i := 0;
      while i < |moves|
        invariant 0 <= i <= |moves|
        invariant Kin() == Replay(Simulate, start, moves[..i])
      {
        assert moves[..i + 1][..i] == moves[..i];
        SimulateMove(moves[i]);
        i := i + 1;
      }
      assert moves[..i] == moves;
    }

    /** A remote observer's record of a new snapshot: the timers shift, the
        current rendered pose and velocity become the start of the next segment,
        and the actor snaps to the snapshot. */
    twostate predicate SnapshotRecorded()
      reads this
    {
      && Clock() == OnSnapshot(old(Clock()))
      && ClientStartTransform == Transform(old(MeshLocation), old(MeshRotation))
      && ClientStartVelocity == old(Velocity)
      && ActorTransform == ServerState.Transform
      && Velocity == old(Velocity) && UnacknowledgedMoves == old(UnacknowledgedMoves)
    }

    /** SimulatedProxy_OnRep_ReplicatedServerState. */
    method SimulatedProxyOnRep()
      modifies this`ClientTimeSinceUpdate, this`ClientTimeBetweenLastUpdate,
               this`ClientStartTransform, this`ClientStartVelocity, this`ActorTransform
      ensures SnapshotRecorded()
    {
      ClientTimeBetweenLastUpdate := ClientTimeSinceUpdate;
      ClientTimeSinceUpdate := 0.0;
      ClientStartTransform := Transform(MeshLocation, MeshRotation);
      ClientStartVelocity := Velocity;
      ActorTransform := ServerState.Transform;
    }

    /** OnRep_ReplicatedServerState: dispatch on the role; other roles do nothing. */
    method OnRepReplicatedServerState(role: NetRole)
      modifies this`ActorTransform, this`Velocity, this`UnacknowledgedMoves,
               this`ClientTimeSinceUpdate, this`ClientTimeBetweenLastUpdate,
               this`ClientStartTransform, this`ClientStartVelocity
      ensures SnapshotDispatch(role) == Reconcile ==> Reconciled()
      ensures SnapshotDispatch(role) == RecordSnapshot ==> SnapshotRecorded()
      ensures SnapshotDispatch(role) == IgnoreSnapshot ==>
                && Kin() == old(Kin()) && UnacknowledgedMoves == old(UnacknowledgedMoves)
                && Clock() == old(Clock())
                && ClientStartTransform == old(ClientStartTransform) && ClientStartVelocity == old(ClientStartVelocity)
    {
      match role
      case AutonomousProxy =>
        AutonomousProxyOnRep();
      case SimulatedProxy =>
        SimulatedProxyOnRep();
      case _ =>
    }

    /** The replication of ServerState to a client, which then fires the OnRep callback. */
    method ReplicateServerState(state: GoKartState, role: NetRole)
      modifies this`ServerState, this`ActorTransform, this`Velocity, this`UnacknowledgedMoves,
               this`ClientTimeSinceUpdate, this`ClientTimeBetweenLastUpdate,
               this`ClientStartTransform, this`ClientStartVelocity
      ensures ServerState == state
      ensures SnapshotDispatch(role) == Reconcile ==> Reconciled()
      ensures SnapshotDispatch(role) == RecordSnapshot ==> SnapshotRecorded()
      ensures SnapshotDispatch(role) == IgnoreSnapshot ==>
                && Kin() == old(Kin()) && UnacknowledgedMoves == old(UnacknowledgedMoves)
                && Clock() == old(Clock())
                && ClientStartTransform == old(ClientStartTransform) && ClientStartVelocity == old(ClientStartVelocity)
    {
      ServerState := state;
      OnRepReplicatedServerState(role);
    }

    /** A remote observer's tick: the time since the update grows by DeltaTime;
        unless the interval is below KINDA_SMALL_NUMBER, the mesh is placed on the
        Hermite segment at the current ratio, rotated by slerp at that ratio, and
        the velocity is set from the segment's derivative. */
    twostate predicate ObserverTicked(deltaTime: real)
      reads this
    {
      && Clock() == OnTick(old(Clock()), deltaTime)
      && if CanInterpolate(Clock()) then
           var s := CreateSpline(Clock(), ClientStartTransform, ClientStartVelocity, ServerState);
           && MeshLocation == s.InterpolateLocation()
           && Velocity == InterpolatedVelocity(s)
           && MeshRotation == Slerp(ClientStartTransform.Rotation, ServerState.Transform.Rotation, s.LerpRatio)
         else
           MeshLocation == old(MeshLocation) && MeshRotation == old(MeshRotation) && Velocity == old(Velocity)
    }

    /** ClientTick. */
    method ClientTick(deltaTime: real)
      modifies this`ClientTimeSinceUpdate, this`MeshLocation, this`MeshRotation, this`Velocity
      ensures ObserverTicked(deltaTime)
    {
      ClientTimeSinceUpdate := ClientTimeSinceUpdate + deltaTime;
      if ClientTimeBetweenLastUpdate < KindaSmallNumber {
        return;
      }
      var spline := CreateSpline(Clock(), ClientStartTransform, ClientStartVelocity, ServerState);
      MeshLocation := spline.InterpolateLocation();
      Velocity := InterpolatedVelocity(spline);
      MeshRotation := Slerp(ClientStartTransform.Rotation, ServerState.Transform.Rotation, spline.LerpRatio);
    }

    /** SetupMove: one branch per tick, chosen in priority order. The controlling
        client appends the movement component's last move to the buffer and
        returns it as the move sent to the server; a server driving its own pawn
        publishes it; a remote observer ticks its interpolation. */
    method SetupMove(deltaTime: real, role: NetRole, locallyControlled: bool) returns (sent: Option<Move>)
      modifies this`UnacknowledgedMoves, this`ServerState,
               this`ClientTimeSinceUpdate, this`MeshLocation, this`MeshRotation, this`Velocity
      ensures var b := TickDispatch(role, locallyControlled);
              && sent == (if b == SendMoveToServer then Some(LastMove) else None)
              && UnacknowledgedMoves == (if b == SendMoveToServer then old(UnacknowledgedMoves) + [LastMove]
                                         else old(UnacknowledgedMoves))
              && ServerState == (if b == ServerDrivesPawn then GoKartState(LastMove, ActorTransform, Velocity)
                                 else old(ServerState))
              && (b == ObserverInterpolates ==> ObserverTicked(deltaTime))
              && (b != ObserverInterpolates ==>
                    Clock() == old(Clock()) && Velocity == old(Velocity)
                    && MeshLocation == old(MeshLocation) && MeshRotation == old(MeshRotation))
    {
      sent := None;
      var lastMove := LastMove;
      match TickDispatch(role, locallyControlled)
      case SendMoveToServer =>
        UnacknowledgedMoves := UnacknowledgedMoves + [lastMove];
        sent := Some(lastMove);
      case ServerDrivesPawn =>
        UpdateServerState(lastMove);
      case ObserverInterpolates =>
        ClientTick(deltaTime);
      case NoBranch =>
    }
  }
}
