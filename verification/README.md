# KrazyKarts go-kart replication, modelled in Dafny

This project models `UGoKartReplicationComponent`, the per-kart replication component of the
KrazyKarts game. The component keeps a networked go-kart consistent across three kinds of peer:

- **The server.** It validates each move a client sends and accounts for the move's simulated
  time. It then executes the move and publishes a snapshot (`FGoKartState`: last move,
  transform, velocity).
- **The controlling client.** It buffers every move it sends. When a snapshot arrives it snaps
  to the snapshot, prunes the moves the snapshot acknowledges, and replays the rest.
- **Remote observers.** They keep two timers and render the kart on a cubic Hermite segment
  between the pose recorded at the last snapshot and the newest snapshot.

Modules:

- `KartTypes` holds the records: vectors, quaternions, transforms, `FGoKartMove`, `FGoKartState`
  and the simulator's kinematic state.
- `Hermite` holds `FHermiteCubicSpline` and the cubic Hermite polynomial, written per coordinate
  over reals.
- `MoveBuffer` is the functional specification of pruning (`Pruned`) and of replaying moves
  through the simulator (`Replay`).
- `ServerAuthority` holds `Server_SendMove_Validate` as a three-way `Verdict`, plus the server's
  time accounting over a stream of moves.
- `Roles` holds the role dispatch of the per-tick `SetupMove` and of the snapshot handler.
- `ObserverTimers` holds the observer's timer state machine and `CreateSpline`.
- `Replication` holds the class `GoKartReplicationComponent`. Its fields are the source's state
  fields. Its methods update them in place, each with a field-granular `modifies` clause, and each
  is proved against the functions above.
- `Scenarios` runs one client/server exchange of three moves and a snapshot through the class.

The movement component's `SimulateMove`, the move validity check `FGoKartMove::IsValid` and
`FQuat::Slerp` are not part of this model. They are fixed, deterministic, uninterpreted functions
given to the component at construction. The owner's role, `IsLocallyControlled()` and the
server's world time are method parameters. The move sent by `Server_SendMove` is returned as
`SetupMove`'s `sent` result.

Half-way along, the cubic Hermite location is the linear midpoint plus an eighth of the
difference of the endpoint derivatives, so it equals the linear midpoint exactly when the two
derivatives are equal (`Hermite.SplineMidpoint`, `ObserverTimers.HalfwayBetweenSnapshots`).

## Model

| member | source | states |
|---|---|---|
| Hermite.DerivativeIsSlope | Source/KrazyKarts/GoKartReplicationComponent.h:27-34 | The engine's CubicInterpDerivative formula is the derivative of CubicInterp: over a step h, the location changes by h times the derivative plus a term that is h squared times a factor |
| Hermite.HermiteCubicSpline.InterpolateLocation | Source/KrazyKarts/GoKartReplicationComponent.h:27-30 | InterpolateLocation is StartLocation at ratio 0 and TargetLocation at ratio 1 |
| Hermite.HermiteCubicSpline.InterpolateDerivative | Source/KrazyKarts/GoKartReplicationComponent.h:31-34 | InterpolateDerivative is StartDerivative at ratio 0 and TargetDerivative at ratio 1 |
| Hermite.Midpoint | Source/KrazyKarts/GoKartReplicationComponent.h:27-30 | At ratio 0.5 the location is the linear midpoint plus an eighth of the derivative difference; it equals the linear midpoint iff the two derivatives are equal |
| Hermite.SplineMidpoint | Source/KrazyKarts/GoKartReplicationComponent.h:27-30 | At ratio 0.5 the whole location vector is the linear midpoint of the endpoints plus an eighth of the derivative difference, and it is the linear midpoint iff the two derivative vectors are equal |
| MoveBuffer.Pruned | Source/KrazyKarts/GoKartReplicationComponent.cpp:160-173 | Pruning never makes the buffer longer |
| MoveBuffer.PrunedOnlyUnacknowledged | Source/KrazyKarts/GoKartReplicationComponent.cpp:166 | Every surviving move is in the old buffer and has a timestamp strictly greater than the acknowledged move's |
| MoveBuffer.PrunedKeepsUnacknowledged | Source/KrazyKarts/GoKartReplicationComponent.cpp:164-170 | Every buffered move stamped strictly later than the acknowledged move survives |
| MoveBuffer.PrunedMembership | Source/KrazyKarts/GoKartReplicationComponent.cpp:164-170 | A move survives iff it was buffered and is strictly later than the acknowledged move, so a move with an equal timestamp is dropped |
| MoveBuffer.PrunedConcat | Source/KrazyKarts/GoKartReplicationComponent.cpp:164-170 | Pruning distributes over concatenation, so the survivors keep their relative order |
| MoveBuffer.PrunedAllLater | Source/KrazyKarts/GoKartReplicationComponent.cpp:164-170 | A buffer whose moves are all later than the acknowledged one is kept whole |
| MoveBuffer.PrunedAllAcknowledged | Source/KrazyKarts/GoKartReplicationComponent.cpp:164-170 | A buffer with no move later than the acknowledged one is emptied |
| MoveBuffer.PrunedIdempotent | Source/KrazyKarts/GoKartReplicationComponent.cpp:160-173 | Pruning twice against the same acknowledged move is the same as pruning once |
| MoveBuffer.PrunedTwice | Source/KrazyKarts/GoKartReplicationComponent.cpp:160-173 | Pruning by one acknowledged move and then another equals pruning once by the later of the two |
| MoveBuffer.PrunedSortedIsSuffix | Source/KrazyKarts/GoKartReplicationComponent.cpp:160-173 | For a buffer in timestamp order, pruning drops exactly a prefix: the survivors are the buffer after its first AcknowledgedCount moves |
| MoveBuffer.PrunedSorted | Source/KrazyKarts/GoKartReplicationComponent.cpp:160-173 | Pruning a buffer in timestamp order leaves it in timestamp order |
| MoveBuffer.AppendSorted | Source/KrazyKarts/GoKartReplicationComponent.cpp:35-39 | Appending a move keeps the buffer in timestamp order iff the buffer was in order and the move is stamped no earlier than the last buffered move |
| MoveBuffer.Replay | Source/KrazyKarts/GoKartReplicationComponent.cpp:213-216 | Replaying the buffer reaches the state of executing its moves in order, the first on the start state and each later one on the result of those before it |
| MoveBuffer.ReplayConcat | Source/KrazyKarts/GoKartReplicationComponent.cpp:213-216 | Replaying two runs of moves one after the other is replaying their concatenation |
| MoveBuffer.ReconciliationConverges | Source/KrazyKarts/GoKartReplicationComponent.cpp:205-217 | If the snapshot is where the acknowledged prefix of an ordered buffer leads, replaying the pruned buffer from it ends where executing every move from the start leads |
| MoveBuffer.PruneThreeMoves | Source/KrazyKarts/GoKartReplicationComponent.cpp:160-173 | Moves stamped 0.0, 0.1 and 0.2, acknowledged up to the move stamped 0.1, prune to the last move alone |
| ServerAuthority.Validate | Source/KrazyKarts/GoKartReplicationComponent.cpp:59-77 | A move is accepted iff the client's simulated time plus its DeltaTime is below the world time and it is valid; the running-ahead rejection takes precedence over the invalid-move rejection |
| ServerAuthority.SimulatedTimeAfter | Source/KrazyKarts/GoKartReplicationComponent.cpp:219-227 | ClientSimulatedTime grows by exactly the move's DeltaTime, staying below the world time, when the move is accepted, and is unchanged otherwise |
| ServerAuthority.ServeAccounting | Source/KrazyKarts/GoKartReplicationComponent.cpp:223 | After a stream of moves, ClientSimulatedTime is its start value plus the DeltaTimes of exactly the accepted moves |
| ServerAuthority.ServeAcceptsOnlyValid | Source/KrazyKarts/GoKartReplicationComponent.cpp:70-74 | Every move the server accepts passes IsValid |
| ServerAuthority.ServeBounded | Source/KrazyKarts/GoKartReplicationComponent.cpp:61-68 | If the client's time starts within a bound the server's clock never exceeds, it stays within that bound whatever DeltaTimes are claimed |
| ServerAuthority.RejectedIsSkipped | Source/KrazyKarts/GoKartReplicationComponent.h:64-65 | A rejected move leaves the server exactly as if it had never arrived |
| Roles.TickDispatch | Source/KrazyKarts/GoKartReplicationComponent.cpp:28-50 | Exactly one branch per tick: send for the autonomous proxy; server update for any other locally controlled role; interpolation for a simulated proxy that is not locally controlled; nothing otherwise |
| Roles.SnapshotDispatch | Source/KrazyKarts/GoKartReplicationComponent.cpp:176-189 | The autonomous proxy reconciles, the simulated proxy records the snapshot, and every other role ignores it |
| Roles.BufferOwnerReconciles | Source/KrazyKarts/GoKartReplicationComponent.cpp:176-189 | The peer whose tick fills the move buffer is exactly the peer whose snapshot handler prunes and replays it |
| Roles.ObserverRecordsSnapshots | Source/KrazyKarts/GoKartReplicationComponent.cpp:176-189 | A peer that interpolates on ticks records snapshots; a locally controlled simulated proxy publishes its state on ticks and still records snapshots |
| ObserverTimers.OnSnapshot | Source/KrazyKarts/GoKartReplicationComponent.cpp:196-197 | A snapshot restarts the time since the update at 0 and makes the old elapsed time the interval; the following ticks interpolate iff that elapsed time was at least KINDA_SMALL_NUMBER |
| ObserverTimers.OnTick | Source/KrazyKarts/GoKartReplicationComponent.cpp:110 | A tick adds exactly its DeltaTime to the time since the update, leaves the interval alone, and never changes whether interpolation runs |
| ObserverTimers.CanInterpolate | Source/KrazyKarts/GoKartReplicationComponent.cpp:113 | Interpolation runs iff the interval is at least KINDA_SMALL_NUMBER, so the interval CreateSpline divides by is positive |
| ObserverTimers.TicksAccumulate | Source/KrazyKarts/GoKartReplicationComponent.cpp:110 | Ticks add their DeltaTimes to the time since the update, whether or not interpolation then runs, and leave the interval alone |
| ObserverTimers.IntervalBetweenSnapshots | Source/KrazyKarts/GoKartReplicationComponent.cpp:196-197 | On the next snapshot, the interval becomes the total tick time since the previous snapshot and the time since the update restarts at 0 |
| ObserverTimers.CreateSpline | Source/KrazyKarts/GoKartReplicationComponent.cpp:147-158 | The ratio times the interval is the time since the update (not clamped); the scale is interval times 100 and positive; the locations are the recorded start and the snapshot's; the derivatives are the velocities times the scale |
| ObserverTimers.InterpolatedVelocity | Source/KrazyKarts/GoKartReplicationComponent.cpp:130-135 | The velocity set on the movement component is the one that the derivative scale turns into the spline's derivative |
| ObserverTimers.SplineMatchesEndpoints | Source/KrazyKarts/GoKartReplicationComponent.cpp:116-135 | Just after a snapshot the kart is rendered at its recorded start location and velocity, and after one whole interval at the snapshot's |
| ObserverTimers.RatioAfterSnapshots | Source/KrazyKarts/GoKartReplicationComponent.cpp:108-113 | After two snapshots and further ticks, interpolation runs iff the ticks between the snapshots sum to at least KINDA_SMALL_NUMBER; the ratio is then elapsed time over that sum, and exceeds 1 once more time has passed |
| ObserverTimers.HalfwayBetweenSnapshots | Source/KrazyKarts/GoKartReplicationComponent.cpp:150 | Snapshots 0.5 apart, 0.25 after the second: the ratio is 0.5, the rendered location is the Hermite midpoint vector, and it is the linear midpoint of the two locations iff the recorded start velocity equals the snapshot's velocity |
| Replication.GoKartReplicationComponent.constructor | Source/KrazyKarts/GoKartReplicationComponent.h:81-87 | A new component has an empty buffer, zero timers, zero simulated time and a default snapshot |
| Replication.GoKartReplicationComponent.SimulateMove | Source/KrazyKarts/GoKartReplicationComponent.cpp:224 | The movement component's transform and velocity become the simulator's result for the move |
| Replication.GoKartReplicationComponent.UpdateServerState | Source/KrazyKarts/GoKartReplicationComponent.cpp:101-106 | The snapshot becomes the move with the actor's transform and velocity, and nothing else changes |
| Replication.GoKartReplicationComponent.ServerSendMoveImplementation | Source/KrazyKarts/GoKartReplicationComponent.cpp:219-227 | ClientSimulatedTime grows by the move's DeltaTime, the move is executed, and the snapshot is the result; the buffer and timers are untouched |
| Replication.GoKartReplicationComponent.ServerSendMove | Source/KrazyKarts/GoKartReplicationComponent.h:64-65 | The implementation runs exactly when Validate accepts the move; a rejected move changes nothing |
| Replication.GoKartReplicationComponent.ClearAcknowledgedMoves | Source/KrazyKarts/GoKartReplicationComponent.cpp:160-173 | The buffer becomes Pruned of the old buffer against the acknowledged move |
| Replication.GoKartReplicationComponent.AutonomousProxyOnRep | Source/KrazyKarts/GoKartReplicationComponent.cpp:205-217 | The buffer is pruned against the snapshot's move, and the kart ends at the in-order replay of the survivors from the snapshot's transform and velocity; the observer state is untouched |
| Replication.GoKartReplicationComponent.ReplayMoves | Source/KrazyKarts/GoKartReplicationComponent.cpp:213-216 | The loop executes the given moves in order, ending at their Replay from the state it started in |
| Replication.GoKartReplicationComponent.SimulatedProxyOnRep | Source/KrazyKarts/GoKartReplicationComponent.cpp:191-203 | The timers shift, the mesh pose and current velocity become the start of the next segment, and the actor snaps to the snapshot |
| Replication.GoKartReplicationComponent.OnRepReplicatedServerState | Source/KrazyKarts/GoKartReplicationComponent.cpp:176-189 | Reconciles for the autonomous proxy, records for the simulated proxy, and changes nothing for any other role |
| Replication.GoKartReplicationComponent.ReplicateServerState | Source/KrazyKarts/GoKartReplicationComponent.h:61-62 | The replicated snapshot is stored and the role's handler runs on it |
| Replication.GoKartReplicationComponent.ClientTick | Source/KrazyKarts/GoKartReplicationComponent.cpp:108-145 | The time since the update grows by DeltaTime; below KINDA_SMALL_NUMBER nothing else changes; otherwise the mesh location, velocity and rotation are set from CreateSpline's segment at its ratio |
| Replication.GoKartReplicationComponent.SetupMove | Source/KrazyKarts/GoKartReplicationComponent.cpp:28-50 | Runs only the branch TickDispatch selects: the controlling client appends exactly the last move to the buffer and sends it; the server driving its pawn updates the snapshot; the observer ticks; everything else is unchanged |
| Scenarios.ThreeMovesOneSnapshot | Source/KrazyKarts/GoKartReplicationComponent.cpp:205-217 | A client sends three moves and the server accepts two; after their snapshot the client's buffer holds only the third move, and the client is where executing all three from the start leads |

## Left out

- The component's constructor, `BeginPlay`, the `TickComponent` wrapper, `GetLifetimeReplicatedProps` and `SetMeshOffsetRoot` are left out: they are engine wiring. The model's constructor only sets the initial field values.
- The RPC and replication transport is left out: `SetupMove` returns the move it sends, and `ReplicateServerState` stands for a snapshot arriving.
- When a validation fails, the engine closes the client's connection. That is left out: the model drops the move and carries on.
- `DrawDebugString`, `GetEnumText` and `UE_LOG` are left out because they are display and logging only. The reason a move was rejected is kept as the `Verdict`.
- Floating-point arithmetic is left out: times, vectors and quaternions are reals, with no rounding.
- `FTransform` is modelled by its location and rotation; its scale is left out.
- `FQuat::Slerp` is left out: it is an uninterpreted function, so the rotation's endpoint values are not proved.
- `UGoKartMovementComponent::SimulateMove` and `FGoKartMove::IsValid` are left out: they are uninterpreted functions, so `IsValid`'s input ranges are not modelled.
- The movement component producing a new last move each tick is left out: `LastMove` is a field that a caller sets.
- The `ensure` and null checks on `MovementComponent` and `MeshOffsetRoot` are left out: both collaborators are always present, so the early returns cannot happen.
- The buffer's timestamp order is not guaranteed by the component: `SetupMove` appends whatever move `GetLastMove` returns, so the buffer stays sorted (`MoveBuffer.AppendSorted`) only if those stamps never decrease. That is the `Sorted` hypothesis of `MoveBuffer.ReconciliationConverges` and `MoveBuffer.PrunedSortedIsSuffix`; the movement component that stamps moves is not part of this model.
- The mesh offset root being attached to the actor is left out: the mesh pose (`MeshLocation`, `MeshRotation`) is kept apart from `ActorTransform`, so snapping the actor does not move the mesh.
- `GetOwnerRole()` and `IsLocallyControlled()` are not modelled as engine queries; they are method parameters.
