/** The remote observer's smoothing state: the two timers that a snapshot
    shifts and a tick advances (GoKartReplicationComponent.cpp:110-113,
    196-197), and CreateSpline, which turns them and the recorded start pose
    into a Hermite segment towards the latest snapshot
    (GoKartReplicationComponent.cpp:147-158, 133). */
module ObserverTimers {
  import opened KartTypes
  import opened Hermite

  /** The engine's KINDA_SMALL_NUMBER. */
  const KindaSmallNumber: real := 0.0001

  /** Converts the velocity's metres into the locations' centimetres. */
  const DerivativeScale: real := 100.0

  /** ClientTimeSinceUpdate and ClientTimeBetweenLastUpdate. */
  datatype Timers = Timers(TimeSinceUpdate: real, TimeBetweenLastUpdate: real)

  /** A new snapshot: the elapsed time becomes the interval, and the clock
      restarts; whether the next ticks interpolate depends only on the time that
      had elapsed since the previous snapshot. */
  function OnSnapshot(t: Timers): (r: Timers)
    ensures r.TimeSinceUpdate == 0.0 && r.TimeBetweenLastUpdate == t.TimeSinceUpdate
    ensures CanInterpolate(r) <==> t.TimeSinceUpdate >= KindaSmallNumber
  {
    Timers(0.0, t.TimeSinceUpdate)
  }

  /** A tick adds its DeltaTime, before (and whether or not) interpolation
      runs; it never changes whether interpolation runs. */
  function OnTick(t: Timers, deltaTime: real): (r: Timers)
    ensures r.TimeSinceUpdate - t.TimeSinceUpdate == deltaTime && r.TimeBetweenLastUpdate == t.TimeBetweenLastUpdate
    ensures CanInterpolate(r) == CanInterpolate(t)
  {
    Timers(t.TimeSinceUpdate + deltaTime, t.TimeBetweenLastUpdate)
  }

  /** The guard of ClientTick: an interval below KINDA_SMALL_NUMBER skips
      interpolation, so the interval CreateSpline divides by is positive. */
  predicate CanInterpolate(t: Timers): (b: bool)
    ensures b <==> t.TimeBetweenLastUpdate >= KindaSmallNumber
    ensures b ==> t.TimeBetweenLastUpdate > 0.0
  {
    !(t.TimeBetweenLastUpdate < KindaSmallNumber)
  }

  function Sum(ds: seq<real>): real
  {
    if ds == [] then 0.0 else Sum(ds[..|ds| - 1]) + ds[|ds| - 1]
  }

  /** The timers after ticks with the given DeltaTimes. */
  function Ticks(t: Timers, ds: seq<real>): Timers
  {
    if ds == [] then t else OnTick(Ticks(t, ds[..|ds| - 1]), ds[|ds| - 1])
  }

  /** Ticks accumulate their DeltaTimes into the time since the update and leave the interval alone. */
  lemma {:induction false} TicksAccumulate(t: Timers, ds: seq<real>)
    ensures Ticks(t, ds) == Timers(t.TimeSinceUpdate + Sum(ds), t.TimeBetweenLastUpdate)
  {
    if ds != [] {
      TicksAccumulate(t, ds[..|ds| - 1]);
    }
  }

  /** The interval the observer interpolates over is the total of the tick
      DeltaTimes between its last two snapshots. */
  lemma IntervalBetweenSnapshots(t: Timers, ds: seq<real>)
    ensures OnSnapshot(Ticks(OnSnapshot(t), ds)) == Timers(0.0, Sum(ds))
  {
    TicksAccumulate(OnSnapshot(t), ds);
  }

  /** CreateSpline over the observer's timers, its recorded start transform and
      velocity, and the latest snapshot. The ratio is the elapsed fraction of the
      interval and is not clamped. */
  function CreateSpline(t: Timers, startTransform: Transform, startVelocity: Vec3, target: GoKartState): (s: HermiteCubicSpline)
    requires CanInterpolate(t)
    ensures s.LerpRatio * t.TimeBetweenLastUpdate == t.TimeSinceUpdate
    ensures s.VelocityToDerative == t.TimeBetweenLastUpdate * DerivativeScale && s.VelocityToDerative > 0.0
    ensures s.StartLocation == startTransform.Location && s.TargetLocation == target.Transform.Location
    ensures s.StartDerivative == Scale(startVelocity, s.VelocityToDerative)
    ensures s.TargetDerivative == Scale(target.Velocity, s.VelocityToDerative)
  {
    var k := t.TimeBetweenLastUpdate * DerivativeScale;
    HermiteCubicSpline(
      startTransform.Location, Scale(startVelocity, k),
      target.Transform.Location, Scale(target.Velocity, k),
      t.TimeSinceUpdate / t.TimeBetweenLastUpdate, k)
  }

  /** InterpDerivative: the spline's derivative converted back into a
      velocity, the one that the derivative scale turns into that derivative. */
  function InterpolatedVelocity(s: HermiteCubicSpline): (v: Vec3)
    requires s.VelocityToDerative != 0.0
    ensures Scale(v, s.VelocityToDerative) == s.InterpolateDerivative()
  {
    var d := s.InterpolateDerivative();
    ScaleDiv(d, s.VelocityToDerative);
    Div(d, s.VelocityToDerative)
  }

  /** Right after a snapshot the observer is rendered at the pose and velocity
      it had recorded, and once a whole interval has passed it is at the snapshot's. */
  lemma SplineMatchesEndpoints(t: Timers, startTransform: Transform, startVelocity: Vec3, target: GoKartState)
    requires CanInterpolate(t)
    ensures var s := CreateSpline(t, startTransform, startVelocity, target);
            t.TimeSinceUpdate == 0.0 ==>
              s.InterpolateLocation() == startTransform.Location && InterpolatedVelocity(s) == startVelocity
    ensures var s := CreateSpline(t, startTransform, startVelocity, target);
            t.TimeSinceUpdate == t.TimeBetweenLastUpdate ==>
              s.InterpolateLocation() == target.Transform.Location && InterpolatedVelocity(s) == target.Velocity
  {
    var s := CreateSpline(t, startTransform, startVelocity, target);
    if t.TimeSinceUpdate == t.TimeBetweenLastUpdate {
      assert s.LerpRatio == 1.0;
    }
    DivScale(startVelocity, s.VelocityToDerative);
    DivScale(target.Velocity, s.VelocityToDerative);
  }

  /** After snapshots separated by ticks `ds1` and further ticks `ds2`, the
      observer interpolates exactly when the ticks between the snapshots add up
      to at least KINDA_SMALL_NUMBER, at ratio Sum(ds2) / Sum(ds1); the ratio
      exceeds 1 once more time has passed than the last interval. */
  lemma RatioAfterSnapshots(t: Timers, ds1: seq<real>, ds2: seq<real>,
                            startTransform: Transform, startVelocity: Vec3, target: GoKartState)
    ensures var u := Ticks(OnSnapshot(Ticks(OnSnapshot(t), ds1)), ds2);
            CanInterpolate(u) <==> Sum(ds1) >= KindaSmallNumber
    ensures var u := Ticks(OnSnapshot(Ticks(OnSnapshot(t), ds1)), ds2);
            CanInterpolate(u) ==>
              var r := CreateSpline(u, startTransform, startVelocity, target).LerpRatio;
              r == Sum(ds2) / Sum(ds1) && (Sum(ds2) > Sum(ds1) ==> r > 1.0)
  {
    IntervalBetweenSnapshots(t, ds1);
    TicksAccumulate(OnSnapshot(Ticks(OnSnapshot(t), ds1)), ds2);
  }

  /** Snapshots half a second apart, a quarter second after the second one:
      the ratio is 0.5 and the kart is at the Hermite midpoint, which is the
      straight-line midpoint of the two locations exactly when the recorded
      start velocity equals the snapshot's velocity. */
  lemma HalfwayBetweenSnapshots(t: Timers, ds1: seq<real>, ds2: seq<real>,
                                startTransform: Transform, startVelocity: Vec3, target: GoKartState)
    requires Sum(ds1) == 0.5 && Sum(ds2) == 0.25
    ensures var u := Ticks(OnSnapshot(Ticks(OnSnapshot(t), ds1)), ds2);
            CanInterpolate(u) &&
            var s := CreateSpline(u, startTransform, startVelocity, target);
            var linear := Scale(Add(startTransform.Location, target.Transform.Location), 0.5);
            && s.LerpRatio == 0.5
            && s.InterpolateLocation() == Add(linear, Scale(Sub(s.StartDerivative, s.TargetDerivative), 0.125))
            && (s.InterpolateLocation() == linear <==> startVelocity == target.Velocity)
  {
    var u := Ticks(OnSnapshot(Ticks(OnSnapshot(t), ds1)), ds2);
    RatioAfterSnapshots(t, ds1, ds2, startTransform, startVelocity, target);
    var s := CreateSpline(u, startTransform, startVelocity, target);
    assert s.LerpRatio == 0.5;
    SplineMidpoint(s);
    ScaleInjective(startVelocity, target.Velocity, s.VelocityToDerative);
  }
}
