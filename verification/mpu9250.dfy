/** The MPU9250 driver's version of the sensor-event callback, its store and
    its getters. Unlike the ICM20948 version, its callback writes the
    gyroscope and accelerometer samples into the store, and keeps a single
    quaternion, from the game rotation vector.

    The vendor driver is not part of this model: the events one poll delivers
    are a parameter, as is the poll's return code. Floats are reals. */
module Mpu9250 {
  import opened Common
  import opened SensorIds

  /** The singleton's data fields the callback and the getters use. */
  datatype Device = Device(acc: Vec3, gyro: Vec3, mag: Vec3, gv: Vec3, quat: Quat)

  datatype Field = Acc | Gyro | Mag | Gv | QuatField

  /** `a` and `b` agree on every field outside `fs`. */
  predicate Agree(a: Device, b: Device, fs: set<Field>) {
    && (Acc !in fs ==> b.acc == a.acc)
    && (Gyro !in fs ==> b.gyro == a.gyro)
    && (Mag !in fs ==> b.mag == a.mag)
    && (Gv !in fs ==> b.gv == a.gv)
    && (QuatField !in fs ==> b.quat == a.quat)
  }

  /** One call of the callback: the chip sensor index, the payload (as
      4-byte words) and the `arg` word; the timestamp never reaches the
      store. */
  datatype Event = Event(sensor: ChipSensor, data: seq<real>, arg: real)

  /** How many payload words this version of the callback copies for each
      tag. */
  function PayloadWords(t: GenericTag): nat {
    match t
    case UncalGyroscope => 6
    case UncalMagnetometer => 6
    case RotationVector => 4
    case GeomagRotationVector => 4
    case GameRotationVector => 4
    case Gyroscope => 3
    case Gravity => 3
    case Accelerometer => 3
    case LinearAcceleration => 3
    case Magnetometer => 3
    case Orientation => 3
    case RawAccelerometer => 3
    case RawGyroscope => 3
    case Bac => 1
    case B2s => 1
    case StepCounter => 1
    case _ => 0
  }

  predicate WellFormed(e: Event) {
    |e.data| >= PayloadWords(ToGeneric(e.sensor))
  }

  /** The store field this version of the callback writes for each tag. */
  function Writes(t: GenericTag): (fs: set<Field>)
    ensures |fs| <= 1
  {
    match t
    case Gyroscope => {Gyro}
    case Gravity => {Gv}
    case Accelerometer => {Acc}
    case LinearAcceleration => {Acc}
    case Magnetometer => {Mag}
    case GameRotationVector => {QuatField}
    case _ => {}
  }

  /** `build_sensor_event_data`: store the payload's vector (or quaternion)
      in the field of the event's tag; every other tag only fills the local
      event. */
  function Dispatch(d: Device, e: Event): (r: Device)
    requires WellFormed(e)
    ensures Agree(d, r, Writes(ToGeneric(e.sensor)))
    ensures ToGeneric(e.sensor) == GenericTag.Gyroscope ==> r.gyro == Vec3Of(e.data)
    ensures ToGeneric(e.sensor) in {Accelerometer, LinearAcceleration} ==> r.acc == Vec3Of(e.data)
    ensures ToGeneric(e.sensor) == GenericTag.Gravity ==> r.gv == Vec3Of(e.data)
    ensures ToGeneric(e.sensor) == GenericTag.Magnetometer ==> r.mag == Vec3Of(e.data)
    ensures ToGeneric(e.sensor) == GameRotationVector ==> r.quat == QuatOf(e.data)
  {
    match ToGeneric(e.sensor)
    case Gyroscope => d.(gyro := Vec3Of(e.data))
    case Gravity => d.(gv := Vec3Of(e.data))
    case LinearAcceleration => d.(acc := Vec3Of(e.data))
    case Accelerometer => d.(acc := Vec3Of(e.data))
    case Magnetometer => d.(mag := Vec3Of(e.data))
    case GameRotationVector => d.(quat := QuatOf(e.data))
    case _ => d
  }

  /** The tags that write nothing: delivering such an event leaves the whole
      store as it was. */
  lemma SilentTags(d: Device, e: Event)
    requires WellFormed(e)
    requires ToGeneric(e.sensor) !in
               {GenericTag.Gyroscope, GenericTag.Gravity, Accelerometer, LinearAcceleration,
                GenericTag.Magnetometer, GameRotationVector}
    ensures Dispatch(d, e) == d
  {
  }

  /** Delivering the same event twice stores what delivering it once does. */
  lemma DispatchIdempotent(d: Device, e: Event)
    requires WellFormed(e)
    ensures Dispatch(Dispatch(d, e), e) == Dispatch(d, e)
  {
  }

  /** Of two events writing the same field, the later one wins. */
  lemma LaterEventWins(d: Device, e1: Event, e2: Event)
    requires WellFormed(e1) && WellFormed(e2)
    requires Writes(ToGeneric(e1.sensor)) == Writes(ToGeneric(e2.sensor))
    ensures Dispatch(Dispatch(d, e1), e2) == Dispatch(d, e2)
  {
  }

  /** The fields any of the events `es` may write. */
  function WritesAll(es: seq<Event>): (fs: set<Field>)
    decreases |es|
  {
    if |es| == 0 then {}
    else WritesAll(es[..|es| - 1]) + Writes(ToGeneric(es[|es| - 1].sensor))
  }

  /** The callback run on every event one poll delivers, in order. */
  function Poll(d: Device, es: seq<Event>): (r: Device)
    requires forall i :: 0 <= i < |es| ==> WellFormed(es[i])
    ensures Agree(d, r, WritesAll(es))
    decreases |es|
  {
    if |es| == 0 then d
    else Dispatch(Poll(d, es[..|es| - 1]), es[|es| - 1])
  }

  /** `ReadSensorData` as written: the poll's return code is dropped and the
      local `retVal`, initialised to MPU_ERROR, is returned. */
  function ReadSensorDataAsWritten(d: Device, es: seq<Event>, rc: Status): (r: (Status, Device))
    requires forall i :: 0 <= i < |es| ==> WellFormed(es[i])
    ensures r.0 == Error
    ensures Agree(d, r.1, WritesAll(es))
  {
    (Error, Poll(d, es))
  }

  /** `ReadSensorData` as the ICM20948 version writes it: the poll's return
      code is returned. */
  function ReadSensorData(d: Device, es: seq<Event>, rc: Status): (r: (Status, Device))
    requires forall i :: 0 <= i < |es| ==> WellFormed(es[i])
    ensures r.0 == rc
    ensures Agree(d, r.1, WritesAll(es))
  {
    (rc, Poll(d, es))
  }

  /** As written, a poll that succeeds is still reported as MPU_ERROR; both
      versions store the same data. */
  lemma ReadSensorDataAsWrittenReportsError(d: Device, es: seq<Event>)
    requires forall i :: 0 <= i < |es| ==> WellFormed(es[i])
    ensures ReadSensorDataAsWritten(d, es, Success).0 == Error
    ensures ReadSensorData(d, es, Success).0 == Success
    ensures ReadSensorDataAsWritten(d, es, Success).1 == ReadSensorData(d, es, Success).1
  {
  }

  /** `Acceleration`: the stored acceleration, in g, scaled to the caller's
      unit by the gravity constant `g` (defined in the driver's headers);
      the store is not touched. */
  function Acceleration(d: Device, g: real): (r: (Status, Vec3))
    ensures r.0 == Success
    ensures forall a: Axis :: r.1.Get(a) == g * d.acc.Get(a)
  {
    (Success, d.acc.Scale(g))
  }

  /** `Gyroscope`. */
  function Gyroscope(d: Device): (Status, Vec3) {
    (Success, d.gyro)
  }

  /** `Magnetometer`. */
  function Magnetometer(d: Device): (Status, Vec3) {
    (Success, d.mag)
  }

  /** `Gravity`. */
  function Gravity(d: Device): (Status, Vec3) {
    (Success, d.gv)
  }

  /** What the callback stores, the getters hand back (the acceleration
      scaled), and an event of another tag leaves each getter's answer as it
      was. */
  lemma GettersReturnDispatched(d: Device, e: Event, g: real)
    requires WellFormed(e)
    ensures var t, r := ToGeneric(e.sensor), Dispatch(d, e);
      && (t == GenericTag.Gyroscope ==> Gyroscope(r) == (Success, Vec3Of(e.data)))
      && (t == Accelerometer ==> Acceleration(r, g) == (Success, Vec3Of(e.data).Scale(g)))
      && (t == LinearAcceleration ==> Acceleration(r, g) == (Success, Vec3Of(e.data).Scale(g)))
      && (t == GenericTag.Magnetometer ==> Magnetometer(r) == (Success, Vec3Of(e.data)))
      && (t == GenericTag.Gravity ==> Gravity(r) == (Success, Vec3Of(e.data)))
      && (t != GenericTag.Gyroscope ==> Gyroscope(r) == Gyroscope(d))
      && (t != Accelerometer && t != LinearAcceleration ==> Acceleration(r, g) == Acceleration(d, g))
      && (t != GenericTag.Magnetometer ==> Magnetometer(r) == Magnetometer(d))
      && (t != GenericTag.Gravity ==> Gravity(r) == Gravity(d))
  {
  }
}
