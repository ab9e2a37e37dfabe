/** Network-role dispatch of the replication component: which branch the
    per-tick SetupMove runs (GoKartReplicationComponent.cpp:28-50) and which
    handler a replicated snapshot reaches (GoKartReplicationComponent.cpp:176-189). */
module Roles {

  /** ENetRole, as the component sees it through GetOwnerRole(). */
  datatype NetRole = RoleNone | SimulatedProxy | AutonomousProxy | Authority

  /** The branches of SetupMove. */
  datatype TickBranch =
    | SendMoveToServer     // buffer the move and send it to the server
    | ServerDrivesPawn     // the server drives this pawn itself
    | ObserverInterpolates // a remote observer advances its interpolation
    | NoBranch

  /** SetupMove's dispatch, in the source's priority order: the
      autonomous proxy first, then local control, then the simulated proxy.
      `locallyControlled` is the owning pawn's IsLocallyControlled(). */
  function TickDispatch(role: NetRole, locallyControlled: bool): (b: TickBranch)
    ensures b == SendMoveToServer <==> role == AutonomousProxy
    ensures b == ServerDrivesPawn <==> role != AutonomousProxy && locallyControlled
    ensures b == ObserverInterpolates <==> role == SimulatedProxy && !locallyControlled
    ensures b == NoBranch <==> (role.RoleNone? || role.Authority?) && !locallyControlled
  {
    if role == AutonomousProxy then SendMoveToServer
    else if locallyControlled then ServerDrivesPawn
    else if role == SimulatedProxy then ObserverInterpolates
    else NoBranch
  }

  /** The handlers OnRep_ReplicatedServerState can reach. */
  datatype SnapshotBranch = Reconcile | RecordSnapshot | IgnoreSnapshot

  /** OnRep_ReplicatedServerState's switch on the owner's role. */
  function SnapshotDispatch(role: NetRole): (b: SnapshotBranch)
    ensures b == Reconcile <==> role == AutonomousProxy
    ensures b == RecordSnapshot <==> role == SimulatedProxy
    ensures b == IgnoreSnapshot <==> role.RoleNone? || role.Authority?
  {
    match role
    case AutonomousProxy => Reconcile
    case SimulatedProxy => RecordSnapshot
    case _ => IgnoreSnapshot
  }

  /** The peer that fills the move buffer on every tick is exactly the peer that
      prunes and replays it when a snapshot arrives. */
  lemma BufferOwnerReconciles(role: NetRole, locallyControlled: bool)
    ensures TickDispatch(role, locallyControlled) == SendMoveToServer <==> SnapshotDispatch(role) == Reconcile
  {
  }

  /** A peer that interpolates on ticks records the snapshots it interpolates
      towards. The converse fails: a locally controlled simulated proxy
      publishes its own state on ticks and yet records incoming snapshots. */
  lemma ObserverRecordsSnapshots(role: NetRole, locallyControlled: bool)
    ensures TickDispatch(role, locallyControlled) == ObserverInterpolates ==> SnapshotDispatch(role) == RecordSnapshot
    ensures role == SimulatedProxy && locallyControlled
            ==> TickDispatch(role, locallyControlled) == ServerDrivesPawn && SnapshotDispatch(role) == RecordSnapshot
  {
  }
}
