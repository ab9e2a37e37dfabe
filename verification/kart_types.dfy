/** Value records shared by the replication component: the engine's vector,
    quaternion and transform types (over reals), the go-kart move and the
    replicated server snapshot FGoKartState. */
module KartTypes {

  datatype Option<T> = None | Some(value: T)

  /** FVector, with the arithmetic the component uses. */
  datatype Vec3 = Vec3(X: real, Y: real, Z: real)

  const ZeroVector: Vec3 := Vec3(0.0, 0.0, 0.0)

  function Scale(v: Vec3, k: real): Vec3
  {
    Vec3(v.X * k, v.Y * k, v.Z * k)
  }

  function Add(v: Vec3, w: Vec3): Vec3
  {
    Vec3(v.X + w.X, v.Y + w.Y, v.Z + w.Z)
  }

  function Sub(v: Vec3, w: Vec3): Vec3
  {
    Vec3(v.X - w.X, v.Y - w.Y, v.Z - w.Z)
  }

  /** `FVector / float`. */
  function Div(v: Vec3, k: real): Vec3
    requires k != 0.0
  {
    Vec3(v.X / k, v.Y / k, v.Z / k)
  }

  /** Dividing a scaled vector by the same non-zero factor gives the vector back. */
  lemma DivScale(v: Vec3, k: real)
    requires k != 0.0
    ensures Div(Scale(v, k), k) == v
  {
  }

  /** Scaling a divided vector by the same non-zero factor gives the vector back. */
  lemma ScaleDiv(v: Vec3, k: real)
    requires k != 0.0
    ensures Scale(Div(v, k), k) == v
  {
  }

  /** Scaling by a non-zero factor tells vectors apart exactly when they differ. */
  lemma ScaleInjective(v: Vec3, w: Vec3, k: real)
    requires k != 0.0
    ensures Scale(v, k) == Scale(w, k) <==> v == w
  {
    DivScale(v, k);
    DivScale(w, k);
  }

  /** FQuat; its arithmetic (Slerp) is supplied by the engine. */
  datatype Quat = Quat(X: real, Y: real, Z: real, W: real)

  const IdentityQuat: Quat := Quat(0.0, 0.0, 0.0, 1.0)

  /** FTransform, restricted to the location and rotation the component reads and writes. */
  datatype Transform = Transform(Location: Vec3, Rotation: Quat)

  const IdentityTransform: Transform := Transform(ZeroVector, IdentityQuat)

  /** FGoKartMove: one timestamped input sample. */
  datatype Move = Move(Throttle: real, SteeringThrow: real, DeltaTime: real, TimeStamp: real)

  const ZeroMove: Move := Move(0.0, 0.0, 0.0, 0.0)

  /** FGoKartState: the single replicated snapshot (GoKartReplicationComponent.h:8-21). */
  datatype GoKartState = GoKartState(LastMove: Move, Transform: Transform, Velocity: Vec3)

  const InitialState: GoKartState := GoKartState(ZeroMove, IdentityTransform, ZeroVector)

  /** What the movement simulator reads and writes: the owning actor's
      transform and the movement component's velocity. */
  datatype Kinematics = Kinematics(Transform: Transform, Velocity: Vec3)

  /** UGoKartMovementComponent::SimulateMove as a deterministic function of the
      prior kinematic state and the move. */
  type Simulator = (Kinematics, Move) -> Kinematics
}
