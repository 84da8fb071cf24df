/** The two sensor numberings the drivers translate between: the chip's own
    sensor enumeration, which the vendor driver passes to the data callback,
    and the generic sensor-type tags the callback switches on. The table
    `convert_to_generic_ids` maps the first to the second (both driver
    versions hold the same table) and `idd_sensortype_conversion` maps back.
    The numeric values of the generic tags are defined by the vendor headers,
    which are not part of this model, so tags are a datatype; `Other` stands
    for any numeric tag outside the twenty the drivers name. */
module SensorIds {

  /** The generic sensor-type tags of the vendor's sensor-type header. */
  datatype GenericTag =
    | Accelerometer
    | Gyroscope
    | RawAccelerometer
    | RawGyroscope
    | UncalMagnetometer
    | UncalGyroscope
    | Bac
    | StepDetector
    | StepCounter
    | GameRotationVector
    | RotationVector
    | GeomagRotationVector
    | Magnetometer
    | Smd
    | PickUpGesture
    | TiltDetector
    | Gravity
    | LinearAcceleration
    | Orientation
    | B2s
    | Other(code: int)

  /** The chip's sensor enumeration, in the order the conversion table is
      indexed (its ordinals 0 .. 19). */
  datatype ChipSensor =
    | ChipAccelerometer
    | ChipGyroscope
    | ChipRawAccelerometer
    | ChipRawGyroscope
    | ChipMagneticFieldUncalibrated
    | ChipGyroscopeUncalibrated
    | ChipActivityClassification
    | ChipStepDetector
    | ChipStepCounter
    | ChipGameRotationVector
    | ChipRotationVector
    | ChipGeomagneticRotationVector
    | ChipGeomagneticField
    | ChipWakeupSignificantMotion
    | ChipFlipPickup
    | ChipWakeupTiltDetector
    | ChipGravity
    | ChipLinearAcceleration
    | ChipOrientation
    | ChipB2s

  /** What `idd_sensortype_conversion` returns: a chip sensor, or the
      enumeration's end marker for a tag with no chip sensor. */
  datatype ChipId = Sensor(s: ChipSensor) | SensorMax

  /** The number of chip sensors: the size of the conversion table. */
  const SENSOR_MAX: nat := 20

  function Ordinal(s: ChipSensor): (n: nat)
    ensures n < SENSOR_MAX
  {
    match s
    case ChipAccelerometer => 0
    case ChipGyroscope => 1
    case ChipRawAccelerometer => 2
    case ChipRawGyroscope => 3
    case ChipMagneticFieldUncalibrated => 4
    case ChipGyroscopeUncalibrated => 5
    case ChipActivityClassification => 6
    case ChipStepDetector => 7
    case ChipStepCounter => 8
    case ChipGameRotationVector => 9
    case ChipRotationVector => 10
    case ChipGeomagneticRotationVector => 11
    case ChipGeomagneticField => 12
    case ChipWakeupSignificantMotion => 13
    case ChipFlipPickup => 14
    case ChipWakeupTiltDetector => 15
    case ChipGravity => 16
    case ChipLinearAcceleration => 17
    case ChipOrientation => 18
    case ChipB2s => 19
  }

  /** The table `convert_to_generic_ids`, entry i for the chip sensor with
      ordinal i. */
  const CONVERT_TO_GENERIC_IDS: seq<GenericTag> := [
    Accelerometer,
    Gyroscope,
    RawAccelerometer,
    RawGyroscope,
    UncalMagnetometer,
    UncalGyroscope,
    Bac,
    StepDetector,
    StepCounter,
    GameRotationVector,
    RotationVector,
    GeomagRotationVector,
    Magnetometer,
    Smd,
    PickUpGesture,
    TiltDetector,
    Gravity,
    LinearAcceleration,
    Orientation,
    B2s
  ]

  /** `convert_to_generic_ids[sensortype]`, the first step of the callback. */
  function ToGeneric(s: ChipSensor): (t: GenericTag)
    ensures !t.Other?
  {
    CONVERT_TO_GENERIC_IDS[Ordinal(s)]
  }

  /** `idd_sensortype_conversion`: the chip sensor for a generic tag, or the
      end marker for every tag it does not list. */
  function ToChip(t: GenericTag): (c: ChipId)
    ensures c.SensorMax? <==> t.Other?
  {
    match t
    case RawAccelerometer => Sensor(ChipRawAccelerometer)
    case RawGyroscope => Sensor(ChipRawGyroscope)
    case Accelerometer => Sensor(ChipAccelerometer)
    case Gyroscope => Sensor(ChipGyroscope)
    case UncalMagnetometer => Sensor(ChipMagneticFieldUncalibrated)
    case UncalGyroscope => Sensor(ChipGyroscopeUncalibrated)
    case Bac => Sensor(ChipActivityClassification)
    case StepDetector => Sensor(ChipStepDetector)
    case StepCounter => Sensor(ChipStepCounter)
    case GameRotationVector => Sensor(ChipGameRotationVector)
    case RotationVector => Sensor(ChipRotationVector)
    case GeomagRotationVector => Sensor(ChipGeomagneticRotationVector)
    case Magnetometer => Sensor(ChipGeomagneticField)
    case Smd => Sensor(ChipWakeupSignificantMotion)
    case PickUpGesture => Sensor(ChipFlipPickup)
    case TiltDetector => Sensor(ChipWakeupTiltDetector)
    case Gravity => Sensor(ChipGravity)
    case LinearAcceleration => Sensor(ChipLinearAcceleration)
    case Orientation => Sensor(ChipOrientation)
    case B2s => Sensor(ChipB2s)
    case Other(_) => SensorMax
  }

  /** Translating a chip sensor to its generic tag and back gives the chip
      sensor it started from. */
  lemma ChipRoundTrip(s: ChipSensor)
    ensures ToChip(ToGeneric(s)) == Sensor(s)
  {
  }

  /** Translating a named generic tag to its chip sensor and through the
      table gives the tag it started from. */
  lemma GenericRoundTrip(t: GenericTag)
    requires !t.Other?
    ensures ToChip(t).Sensor?
    ensures ToGeneric(ToChip(t).s) == t
  {
  }

  /** The conversion gives distinct named tags distinct chip sensors. */
  lemma ToChipInjective(t: GenericTag, u: GenericTag)
    requires !t.Other? && !u.Other?
    ensures ToChip(t) == ToChip(u) <==> t == u
  {
    GenericRoundTrip(t);
    GenericRoundTrip(u);
  }

  /** The table gives distinct chip sensors distinct tags. */
  lemma ToGenericInjective(s: ChipSensor, r: ChipSensor)
    ensures ToGeneric(s) == ToGeneric(r) <==> s == r
  {
    ChipRoundTrip(s);
    ChipRoundTrip(r);
  }
}
