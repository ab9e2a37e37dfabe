/** A controlling client and the server exchanging moves and a snapshot,
    through the component's own methods. */
module Scenarios {
  import opened KartTypes
  import opened MoveBuffer
  import opened ServerAuthority
  import opened Roles
  import opened Replication

  /** The client buffers moves stamped 0.0, 0.1 and 0.2 and sends each; the
      server accepts the first two; their snapshot reaches the client, which
      keeps only the move at 0.2 and, replaying it, ends where executing all
      three moves from the common start leads. */
  method ThreeMovesOneSnapshot(simulate: Simulator, moveIsValid: Move -> bool, slerp: (Quat, Quat, real) -> Quat,
                               start: Kinematics, m0: Move, m1: Move, m2: Move, w0: real, w1: real)
    returns (buffer: seq<Move>, predicted: Kinematics)
    requires m0.TimeStamp == 0.0 && m1.TimeStamp == 0.1 && m2.TimeStamp == 0.2
    requires moveIsValid(m0) && moveIsValid(m1)
    requires m0.DeltaTime < w0 && m0.DeltaTime + m1.DeltaTime < w1
    ensures buffer == [m2]
    ensures predicted == simulate(simulate(simulate(start, m0), m1), m2)
  {
    var client := new GoKartReplicationComponent(simulate, moveIsValid, slerp, start.Transform, start.Velocity, m0);
    var server := new GoKartReplicationComponent(simulate, moveIsValid, slerp, start.Transform, start.Velocity, m0);

    var sent0 := client.SetupMove(0.1, AutonomousProxy, true);
    client.LastMove := m1;
    var sent1 := client.SetupMove(0.1, AutonomousProxy, true);
    client.LastMove := m2;
    var sent2 := client.SetupMove(0.1, AutonomousProxy, true);
    assert client.UnacknowledgedMoves == [m0, m1, m2];

    var v0 := server.ServerSendMove(sent0.value, w0);
    var v1 := server.ServerSendMove(sent1.value, w1);
    assert v0 == Accepted && v1 == Accepted;
    assert server.ServerState.LastMove == m1;
    assert Kinematics(server.ServerState.Transform, server.ServerState.Velocity) == simulate(simulate(start, m0), m1);

    var snapshot := server.ServerState;
    ghost var snapped := Kinematics(snapshot.Transform, snapshot.Velocity);
    client.ReplicateServerState(snapshot, AutonomousProxy);
    PruneThreeMoves(m0, m1, m2);
    buffer := client.UnacknowledgedMoves;
    assert buffer == [m2];
    assert [m2][..0] == [];
    assert Replay(simulate, snapped, [m2]) == simulate(snapped, m2);
    predicted := client.Kin();
  }
}
