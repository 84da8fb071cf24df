/** The ICM20948 driver's state and the operations on it: the sensor-event
    callback `build_sensor_event_data` that stores DMP output into the
    singleton's fields, the configuration setters gated by `_initialized`,
    the getters, `ReadSensorData`'s scaling of `_acc`, and the two median
    filters as they update `_acc[0]` and `_gyro`.

    The vendor driver is not part of this model: the events one poll delivers
    to the callback are a parameter, as are the poll's return code and the
    outcome of the vendor calls `InitSW` makes. Floats are reals. */
module Icm20948 {
  import opened BoundedInts
  import opened Common
  import opened SensorIds
  import SortedList
  import AccelMedian
  import GyroMedian
  import Order

  /** The file-level configuration statics `cfg_acc_fsr`, `cfg_gyr_fsr` and
      `cfg_mounting_matrix`. */
  datatype Config = Config(accFsr: int32, gyrFsr: int32, mountingMatrix: seq<real>)

  const IDENTITY: seq<real> := [1.0, 0.0, 0.0, 0.0, 1.0, 0.0, 0.0, 0.0, 1.0]

  /** The configuration as the program starts: +/- 2 g, +/- 250 dps and the
      identity mounting matrix. */
  const DEFAULT_CONFIG: Config := Config(2, 250, IDENTITY)

  /** The singleton's data fields, the `_initialized` flag, and the
      configuration statics it guards. */
  datatype Device = Device(
    initialized: bool,
    acc: Vec3,
    accRaw: Vec3,
    gyro: Vec3,
    mag: Vec3,
    gv: Vec3,
    quat9: Quat,
    quat9Accuracy: real,
    quat6: Quat,
    quat6Accuracy: real,
    config: Config)

  /** The constructor `ICM20948()`, with the configuration statics at their
      initial values: not initialized, every array and accuracy zero. */
  function New(): (d: Device) {
    Device(false, ZERO3, ZERO3, ZERO3, ZERO3, ZERO3, ZERO_QUAT, 0.0, ZERO_QUAT, 0.0, DEFAULT_CONFIG)
  }

  /** The field groups of `Device`, to say which of them an operation may
      write. */
  datatype Field =
    | Initialized | Acc | AccRaw | Gyro | Mag | Gv
    | Quat9 | Quat9Accuracy | Quat6 | Quat6Accuracy | Cfg

  /** `a` and `b` agree on every field outside `fs`. */
  predicate Agree(a: Device, b: Device, fs: set<Field>) {
    && (Initialized !in fs ==> b.initialized == a.initialized)
    && (Acc !in fs ==> b.acc == a.acc)
    && (AccRaw !in fs ==> b.accRaw == a.accRaw)
    && (Gyro !in fs ==> b.gyro == a.gyro)
    && (Mag !in fs ==> b.mag == a.mag)
    && (Gv !in fs ==> b.gv == a.gv)
    && (Quat9 !in fs ==> b.quat9 == a.quat9)
    && (Quat9Accuracy !in fs ==> b.quat9Accuracy == a.quat9Accuracy)
    && (Quat6 !in fs ==> b.quat6 == a.quat6)
    && (Quat6Accuracy !in fs ==> b.quat6Accuracy == a.quat6Accuracy)
    && (Cfg !in fs ==> b.config == a.config)
  }

  // ---------------------------------------------------------------------
  // The sensor-event callback
  // ---------------------------------------------------------------------

  /** One call of the callback: the chip sensor index, the payload (as
      4-byte words) and the `arg` word. The timestamp never reaches the
      store and is left out. */
  datatype Event = Event(sensor: ChipSensor, data: seq<real>, arg: real)

  /** How many payload words the callback copies for each tag. */
  function PayloadWords(t: GenericTag): nat {
    match t
    case UncalGyroscope => 6
    case UncalMagnetometer => 6
    case RotationVector => 4
    case GameRotationVector => 4
    case Gyroscope => 3
    case Gravity => 3
    case Accelerometer => 3
    case LinearAcceleration => 3
    case Magnetometer => 3
    case Orientation => 3
    case RawAccelerometer => 3
    case RawGyroscope => 3
    case Bac => 1
    case B2s => 1
    case StepCounter => 1
    case _ => 0
  }

  /** The payload is as long as the callback reads for the event's tag. */
  predicate WellFormed(e: Event) {
    |e.data| >= PayloadWords(ToGeneric(e.sensor))
  }

  /** The store fields the callback writes for each tag. */
  function Writes(t: GenericTag): (fs: set<Field>)
    ensures Initialized !in fs && Acc !in fs && Gyro !in fs && Cfg !in fs
  {
    match t
    case Gravity => {Gv}
    case Magnetometer => {Mag}
    case RotationVector => {Quat9, Quat9Accuracy}
    case GameRotationVector => {Quat6, Quat6Accuracy}
    case RawAccelerometer => {AccRaw}
    case _ => {}
  }

  /** `build_sensor_event_data`: translate the chip sensor to its generic tag
      and store the payload in the field group of that tag. The gyroscope,
      accelerometer and linear-acceleration cases copy from the store into
      the local event, so they leave the store as it was; so do the cases
      that only fill the local event. The game rotation vector's accuracy is
      read from the event's `accuracy` word, which the callback never sets
      after clearing the event, so it is stored as zero. */
  function Dispatch(d: Device, e: Event): (r: Device)
    requires WellFormed(e)
    ensures Agree(d, r, Writes(ToGeneric(e.sensor)))
    ensures ToGeneric(e.sensor) == Gravity ==> r.gv == Vec3Of(e.data)
    ensures ToGeneric(e.sensor) == Magnetometer ==> r.mag == Vec3Of(e.data)
    ensures ToGeneric(e.sensor) == RawAccelerometer ==> r.accRaw == Vec3Of(e.data)
    ensures ToGeneric(e.sensor) == RotationVector ==>
              r.quat9 == QuatOf(e.data) && r.quat9Accuracy == e.arg
    ensures ToGeneric(e.sensor) == GameRotationVector ==>
              r.quat6 == QuatOf(e.data) && r.quat6Accuracy == 0.0
  {
    match ToGeneric(e.sensor)
    case Gravity => d.(gv := Vec3Of(e.data))
    case Magnetometer => d.(mag := Vec3Of(e.data))
    case RotationVector => d.(quat9 := QuatOf(e.data), quat9Accuracy := e.arg)
    case GameRotationVector => d.(quat6 := QuatOf(e.data), quat6Accuracy := 0.0)
    case RawAccelerometer => d.(accRaw := Vec3Of(e.data))
    case _ => d
  }

  /** The tags that leave the whole store as it was: those whose case only
      fills the local event, and the gyroscope and acceleration cases, which
      copy the other way, from the store into the event. */
  lemma SilentTags(d: Device, e: Event)
    requires WellFormed(e)
    requires ToGeneric(e.sensor) !in {Gravity, Magnetometer, RotationVector, GameRotationVector, RawAccelerometer}
    ensures Dispatch(d, e) == d
  {
  }

  /** Delivering the same event twice stores what delivering it once does. */
  lemma DispatchIdempotent(d: Device, e: Event)
    requires WellFormed(e)
    ensures Dispatch(Dispatch(d, e), e) == Dispatch(d, e)
  {
  }

  /** Events whose tags write disjoint field groups can be delivered in
      either order. */
  lemma DispatchCommutes(d: Device, e1: Event, e2: Event)
    requires WellFormed(e1) && WellFormed(e2)
    requires Writes(ToGeneric(e1.sensor)) !! Writes(ToGeneric(e2.sensor))
    ensures Dispatch(Dispatch(d, e1), e2) == Dispatch(Dispatch(d, e2), e1)
  {
  }

  /** The fields any of the events `es` may write. */
  function WritesAll(es: seq<Event>): (fs: set<Field>)
    ensures Initialized !in fs && Acc !in fs && Gyro !in fs && Cfg !in fs
    decreases |es|
  {
    if |es| == 0 then {}
    else WritesAll(es[..|es| - 1]) + Writes(ToGeneric(es[|es| - 1].sensor))
  }

  /** The callback run on every event one poll of the vendor driver
      delivers, in order. Only the fields of the delivered tags change. */
  function Poll(d: Device, es: seq<Event>): (r: Device)
    requires forall i :: 0 <= i < |es| ==> WellFormed(es[i])
    ensures Agree(d, r, WritesAll(es))
    decreases |es|
  {
    if |es| == 0 then d
    else Dispatch(Poll(d, es[..|es| - 1]), es[|es| - 1])
  }

  // ---------------------------------------------------------------------
  // Reading, and the getters
  // ---------------------------------------------------------------------

  /** `ReadSensorData`: poll, keeping the poll's `int` code `rc` in the
      `int8_t` `retVal`, then scale `_acc` by the gravity constant `g`, whose
      value the driver's headers define. No event writes `_acc`, so the call
      leaves `_acc` scaled by `g` from what it was before, and changes nothing
      else the events do not write. */
  function ReadSensorData(d: Device, es: seq<Event>, rc: int32, g: real): (r: (int8, Device))
    requires forall i :: 0 <= i < |es| ==> WellFormed(es[i])
    ensures -0x80 <= rc < 0x80 ==> r.0 == rc
    ensures (rc - r.0) % 0x100 == 0
    ensures r.1.acc == d.acc.Scale(g)
    ensures Agree(d, r.1, WritesAll(es) + {Acc})
  {
    var p := Poll(d, es);
    (ToInt8(rc), p.(acc := p.acc.Scale(g)))
  }

  /** A sequence of `ReadSensorData` calls, one per batch of events. */
  function Session(d: Device, batches: seq<seq<Event>>, g: real): (r: Device)
    requires forall b, i :: 0 <= b < |batches| && 0 <= i < |batches[b]| ==> WellFormed(batches[b][i])
    decreases |batches|
  {
    if |batches| == 0 then d
    else ReadSensorData(Session(d, batches[..|batches| - 1], g), batches[|batches| - 1], 0, g).1
  }

  /** Since no event writes `_acc` and the median filter is never called
      from the callback, a zero acceleration stays zero through any number
      of reads; so does a zero angular rate. */
  lemma {:induction false} SessionKeepsAccAndGyro(d: Device, batches: seq<seq<Event>>, g: real)
    requires forall b, i :: 0 <= b < |batches| && 0 <= i < |batches[b]| ==> WellFormed(batches[b][i])
    ensures d.acc == ZERO3 ==> Session(d, batches, g).acc == ZERO3
    ensures Session(d, batches, g).gyro == d.gyro
    ensures Session(d, batches, g).config == d.config
    decreases |batches|
  {
    if |batches| > 0 {
      var past := batches[..|batches| - 1];
      SessionKeepsAccAndGyro(d, past, g);
    }
  }

  /** `_acc` is scaled on every read, not once: two reads in a row scale it
      by `g * g`. */
  lemma ReadsCompound(d: Device, es1: seq<Event>, es2: seq<Event>, g: real)
    requires forall i :: 0 <= i < |es1| ==> WellFormed(es1[i])
    requires forall i :: 0 <= i < |es2| ==> WellFormed(es2[i])
    ensures ReadSensorData(ReadSensorData(d, es1, 0, g).1, es2, 0, g).1.acc == d.acc.Scale(g * g)
  {
    var once := ReadSensorData(d, es1, 0, g).1;
    var twice := ReadSensorData(once, es2, 0, g).1;
    assert twice.acc == once.acc.Scale(g) && once.acc == d.acc.Scale(g);
    ScaleTwice(d.acc, g, g);
  }

  /** `GetAcceleration`. */
  function GetAcceleration(d: Device): (r: (Status, Vec3)) {
    (Success, d.acc)
  }

  /** `GetAccelerationRaw`. */
  function GetAccelerationRaw(d: Device): (r: (Status, Vec3)) {
    (Success, d.accRaw)
  }

  /** `GetGyroscope`. */
  function GetGyroscope(d: Device): (r: (Status, Vec3)) {
    (Success, d.gyro)
  }

  /** `GetMagnetometer`. */
  function GetMagnetometer(d: Device): (r: (Status, Vec3)) {
    (Success, d.mag)
  }

  /** `GetGravity`. */
  function GetGravity(d: Device): (r: (Status, Vec3)) {
    (Success, d.gv)
  }

  datatype OrientationDof = Orientation6Dof | Orientation9Dof

  /** `GetOrientationQuat` as written: both branches copy the 6-DOF
      quaternion. */
  function GetOrientationQuatAsWritten(d: Device, dof: OrientationDof): (r: (Status, Quat))
    ensures r.0 == Success && r.1 == d.quat6
  {
    match dof
    case Orientation6Dof => (Success, d.quat6)
    case Orientation9Dof => (Success, d.quat6)
  }

  /** `GetOrientationQuat` as its documentation describes it: the quaternion
      of the fusion asked for. */
  function GetOrientationQuat(d: Device, dof: OrientationDof): (r: (Status, Quat))
    ensures r.0 == Success
    ensures dof == Orientation9Dof ==> r.1 == d.quat9
    ensures dof == Orientation6Dof ==> r.1 == d.quat6
  {
    match dof
    case Orientation6Dof => (Success, d.quat6)
    case Orientation9Dof => (Success, d.quat9)
  }

  /** What the callback stores, the getters hand back, and nothing else
      changes what they hand back. */
  lemma GettersReturnDispatched(d: Device, e: Event)
    requires WellFormed(e)
    ensures var t, r := ToGeneric(e.sensor), Dispatch(d, e);
      && (t == Gravity ==> GetGravity(r) == (Success, Vec3Of(e.data)))
      && (t == Magnetometer ==> GetMagnetometer(r) == (Success, Vec3Of(e.data)))
      && (t == RawAccelerometer ==> GetAccelerationRaw(r) == (Success, Vec3Of(e.data)))
      && (t == RotationVector ==> GetOrientationQuat(r, Orientation9Dof) == (Success, QuatOf(e.data)))
      && (t == GameRotationVector ==> GetOrientationQuat(r, Orientation6Dof) == (Success, QuatOf(e.data)))
      && (t != Gravity ==> GetGravity(r) == GetGravity(d))
      && (t != Magnetometer ==> GetMagnetometer(r) == GetMagnetometer(d))
      && (t != RawAccelerometer ==> GetAccelerationRaw(r) == GetAccelerationRaw(d))
      && GetAcceleration(r) == GetAcceleration(d)
      && GetGyroscope(r) == GetGyroscope(d)
  {
  }

  /** The 9-DOF quaternion the callback stores is not what the getter as
      written returns: on a fresh device, after a rotation-vector event with
      payload (1, 0, 0, 0), it still returns the zero quaternion. */
  lemma GetOrientationQuatAsWrittenMisses()
    ensures var e := Event(ChipRotationVector, [1.0, 0.0, 0.0, 0.0], 0.0);
      && WellFormed(e)
      && GetOrientationQuatAsWritten(Dispatch(New(), e), Orientation9Dof).1 == ZERO_QUAT
      && GetOrientationQuat(Dispatch(New(), e), Orientation9Dof).1 == Quat(1.0, 0.0, 0.0, 0.0)
  {
  }

  // ---------------------------------------------------------------------
  // Configuration, gated by `_initialized`
  // ---------------------------------------------------------------------

  /** `SetAccelerationFSR`. */
  function SetAccelerationFsr(d: Device, fsr: int32): (r: (Status, Device))
    ensures r.0 == Success <==> !d.initialized
    ensures r.0 != Success ==> r.0 == NotAllowed && r.1 == d
    ensures r.0 == Success ==>
              && Agree(d, r.1, {Cfg})
              && r.1.config == d.config.(accFsr := fsr)
  {
    if d.initialized then (NotAllowed, d)
    else (Success, d.(config := d.config.(accFsr := fsr)))
  }

  /** `SetGyroscopeFSR`. */
  function SetGyroscopeFsr(d: Device, fsr: int32): (r: (Status, Device))
    ensures r.0 == Success <==> !d.initialized
    ensures r.0 != Success ==> r.0 == NotAllowed && r.1 == d
    ensures r.0 == Success ==>
              && Agree(d, r.1, {Cfg})
              && r.1.config == d.config.(gyrFsr := fsr)
  {
    if d.initialized then (NotAllowed, d)
    else (Success, d.(config := d.config.(gyrFsr := fsr)))
  }

  /** `SetMountingMatrix` as written: the configured matrix is copied OUT into
      the caller's array, and the configuration is left as it was. The third
      component is the caller's array after the call. */
  function SetMountingMatrixAsWritten(d: Device, m: seq<real>): (r: (Status, Device, seq<real>))
    requires |m| == 9
    ensures r.1 == d
    ensures r.0 == Success <==> !d.initialized
    ensures r.0 != Success ==> r.0 == NotAllowed && r.2 == m
    ensures r.0 == Success ==> r.2 == d.config.mountingMatrix
  {
    if d.initialized then (NotAllowed, d, m)
    else (Success, d, d.config.mountingMatrix)
  }

  /** `SetMountingMatrix` as its name and the neighbouring setters describe
      it: the argument becomes the configured matrix. */
  function SetMountingMatrix(d: Device, m: seq<real>): (r: (Status, Device))
    requires |m| == 9
    ensures r.0 == Success <==> !d.initialized
    ensures r.0 != Success ==> r.0 == NotAllowed && r.1 == d
    ensures r.0 == Success ==>
              && Agree(d, r.1, {Cfg})
              && r.1.config == d.config.(mountingMatrix := m)
  {
    if d.initialized then (NotAllowed, d)
    else (Success, d.(config := d.config.(mountingMatrix := m)))
  }

  /** As written, setting a mounting matrix before initialization reports
      success but the configured matrix is still the identity. */
  lemma SetMountingMatrixAsWrittenIgnoresArgument()
    ensures var m := [0.0, 1.0, 0.0, 1.0, 0.0, 0.0, 0.0, 0.0, 1.0];
      && SetMountingMatrixAsWritten(New(), m).0 == Success
      && SetMountingMatrixAsWritten(New(), m).1.config.mountingMatrix == IDENTITY
      && SetMountingMatrixAsWritten(New(), m).1.config.mountingMatrix != m
      && SetMountingMatrix(New(), m).1.config.mountingMatrix == m
  {
  }

  /** `InitSW`, with the vendor calls abstracted to their outcomes: it fails
      with MPU_ERROR, changing nothing, when the WHOAMI check, the driver
      initialization or the DMP image load fails; otherwise it sets
      `_initialized` and succeeds (sensor-enable errors are only reported
      on the debug port). */
  function InitSw(d: Device, whoamiOk: bool, initOk: bool, loadOk: bool): (r: (Status, Device))
    ensures r.0 == Success <==> whoamiOk && initOk && loadOk
    ensures r.0 != Success ==> r.0 == Error && r.1 == d
    ensures r.0 == Success ==> r.1.initialized && Agree(d, r.1, {Initialized})
  {
    if !whoamiOk || !initOk || !loadOk then (Error, d)
    else (Success, d.(initialized := true))
  }

  /** The configuration gate: after a successful `InitSW` every setter is
      refused and changes nothing; before it, the FSR setters take effect.
      Reading data never reopens the gate. */
  lemma ConfigGate(d: Device, aFsr: int32, gFsr: int32, m: seq<real>,
                   es: seq<Event>, rc: int32, g: real)
    requires |m| == 9
    requires forall i :: 0 <= i < |es| ==> WellFormed(es[i])
    ensures var i := InitSw(d, true, true, true).1;
      && SetAccelerationFsr(i, aFsr) == (NotAllowed, i)
      && SetGyroscopeFsr(i, gFsr) == (NotAllowed, i)
      && SetMountingMatrix(i, m) == (NotAllowed, i)
      && SetMountingMatrixAsWritten(i, m) == (NotAllowed, i, m)
      && ReadSensorData(i, es, rc, g).1.initialized
    ensures !d.initialized ==>
              && SetAccelerationFsr(d, aFsr).1.config.accFsr == aFsr
              && SetGyroscopeFsr(d, gFsr).1.config.gyrFsr == gFsr
  {
  }

  /** A fresh device: every getter reads zero, and the setters are open. */
  lemma FreshDevice(fsr: int32)
    ensures GetAcceleration(New()) == (Success, ZERO3)
    ensures GetAccelerationRaw(New()) == (Success, ZERO3)
    ensures GetGyroscope(New()) == (Success, ZERO3)
    ensures GetMagnetometer(New()) == (Success, ZERO3)
    ensures GetGravity(New()) == (Success, ZERO3)
    ensures GetOrientationQuat(New(), Orientation6Dof) == (Success, ZERO_QUAT)
    ensures GetOrientationQuat(New(), Orientation9Dof) == (Success, ZERO_QUAT)
    ensures SetAccelerationFsr(New(), fsr).0 == Success
  {
  }

  // ---------------------------------------------------------------------
  // The median filters as they update the store
  // ---------------------------------------------------------------------

  /** `_SetAcceleration`: only the x-axis sample is filtered, and only
      `_acc[0]` can change: it becomes the filter's output. */
  function SetAcceleration(d: Device, f: AccelMedian.Filter, a: Vec3): (r: (Device, AccelMedian.Filter))
    requires SortedList.Size(f.buffer) == AccelMedian.WINDOW_SIZE ==> |f.buffer.nodes| >= 2
    ensures Agree(d, r.0, {Acc})
    ensures r.0.acc.y == d.acc.y && r.0.acc.z == d.acc.z
    ensures r.0.acc.x == AccelMedian.Push(f, a.x, d.acc.x).1
    ensures r.1 == AccelMedian.Step(f, a.x)
  {
    var p := AccelMedian.Push(f, a.x, d.acc.x);
    (d.(acc := d.acc.(x := p.1)), p.0)
  }

  /** For a filter in step with the x-axis history `h`, `_acc[0]` keeps its
      value until 23 samples have arrived and is then the median of the last
      23 of them. */
  lemma SetAccelerationMedian(d: Device, f: AccelMedian.Filter, h: seq<real>, a: Vec3)
    requires AccelMedian.Tracks(f, h)
    ensures SortedList.Size(f.buffer) == AccelMedian.WINDOW_SIZE ==> |f.buffer.nodes| >= 2
    ensures |h| + 1 < AccelMedian.WINDOW_SIZE ==> SetAcceleration(d, f, a).0.acc.x == d.acc.x
    ensures |h| + 1 >= AccelMedian.WINDOW_SIZE ==>
              SetAcceleration(d, f, a).0.acc.x == Order.Median(AccelMedian.LastWindow(h + [a.x]))
  {
    AccelMedian.TrackedSize(f, h);
    AccelMedian.PushOutput(f, h, a.x, d.acc.x);
  }

  /** `_SetAcceleration` reads nothing of its argument but `acc[0]`. */
  lemma SetAccelerationReadsOnlyX(d: Device, f: AccelMedian.Filter, a: Vec3, b: Vec3)
    requires SortedList.Size(f.buffer) == AccelMedian.WINDOW_SIZE ==> |f.buffer.nodes| >= 2
    requires a.x == b.x
    ensures SetAcceleration(d, f, a) == SetAcceleration(d, f, b)
  {
  }

  /** `_SetGyroscope`: `_gyro` becomes, axis by axis, the median of the three
      buffered samples, and nothing else in the store changes. */
  method SetGyroscope(d: Device, f: GyroMedian.Filter, gyro: Vec3)
    returns (r: Device, f': GyroMedian.Filter)
    requires GyroMedian.Valid(f)
    ensures GyroMedian.Valid(f')
    ensures f'.rows == f.rows[f.counter := gyro]
    ensures f'.counter == (f.counter + 1) % GyroMedian.TAPS
    ensures Agree(d, r, {Gyro})
    ensures forall a: Axis :: r.gyro.Get(a) == Order.Median(GyroMedian.Column(f'.rows, a))
  {
    var res;
    f', res := GyroMedian.SetGyroscope(f, gyro, d.gyro);
    r := d.(gyro := res);
  }
}
