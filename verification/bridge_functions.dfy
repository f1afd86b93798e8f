// The sensor side of the bridge: the global readings the sensor handlers
// return, the clock behind getCurrentTime, the zero-argument check, and
// registerBridgeFunctions, which adds the five sensor names to the registry.

module Sensors {
  import opened Values
  import TimeLiteral

  datatype SensorKind = Temperature | Humidity | PhotoSensor | LightSwitch | CurrentTime

  /** What the clock reports: no time yet, a local time of day, or the native build's fixed noon. */
  datatype Clock = NoClock | LocalTime(hour: nat, minute: nat, second: nat) | NativeBuild

  /** The globals the sensor loop keeps up to date, read by the handlers. */
  datatype Snapshot = Snapshot(
    temperature: real,
    humidity: real,
    lightLevel: real,
    switchOn: int,
    clock: Clock)

  /** getCurrentSeconds: seconds since midnight, or -1 when no local time is available. */
  function CurrentSeconds(c: Clock): (r: int)
    ensures c.NoClock? ==> r == -1
    ensures c.NativeBuild? ==> r == 12 * 3600
    ensures c.LocalTime? && c.hour < 24 && c.minute < 60 && c.second <= 60 ==> 0 <= r <= TimeLiteral.SecondsPerDay
  {
    match c
    case NoClock => -1
    case LocalTime(h, m, s) => h * 60 * 60 + m * 60 + s
    case NativeBuild => 43200
  }

  /** The clock and the time literals of rules count seconds the same way. */
  lemma ClockMatchesTimeLiteral(h: nat, m: nat, s: nat)
    requires h < 24 && m < 60 && s < 60
    ensures CurrentSeconds(LocalTime(h, m, s)) == TimeLiteral.ParseTimeLiteral(TimeLiteral.TimeText(h, m, s))
  {
    TimeLiteral.ParseTimeText(h, m, s);
  }

  /** The reading each sensor handler returns, as a float. */
  function Reading(kind: SensorKind, snap: Snapshot): real {
    match kind
    case Temperature => snap.temperature
    case Humidity => snap.humidity
    case PhotoSensor => snap.lightLevel
    case LightSwitch => snap.switchOn as real
    case CurrentTime => CurrentSeconds(snap.clock) as real
  }

  /** A sensor call takes no arguments: any array other than ["name"] is an error. */
  function ValidateZeroArgSensor(size: nat, reading: real): (r: Value)
    ensures r.Error? <==> size != 1
    ensures r.Error? ==> r.code == UnrecFunc
    ensures !r.Error? ==> r == Float(reading)
  {
    if size != 1 then Error(UnrecFunc) else Float(reading)
  }

  /** A clock failure reaches the rule as the number -1, not as an error. */
  lemma ClockFailureIsMinusOne(snap: Snapshot)
    requires snap.clock.NoClock?
    ensures ValidateZeroArgSensor(1, Reading(CurrentTime, snap)) == Float(-1.0)
  {
  }
}

module BridgeFunctions {
  import opened Registry
  import opened Sensors

  /** The entries registerBridgeFunctions adds. */
  function BridgeTable(): map<string, Handler> {
    map["getTemperature" := Sensor(Temperature), "getHumidity" := Sensor(Humidity),
        "getPhotoSensor" := Sensor(PhotoSensor), "getLightSwitch" := Sensor(LightSwitch),
        "getCurrentTime" := Sensor(CurrentTime)]
  }

  /** No sensor name shadows a core operator, so no registration overwrites another. */
  lemma BridgeTableDisjointFromCore()
    ensures BridgeTable().Keys !! CoreTable().Keys
  {
  }

  method RegisterBridgeFunctions(registry: FunctionRegistry)
    modifies registry
    ensures registry.handlers == old(registry.handlers) + BridgeTable()
  {
    ghost var base := registry.handlers;
    ghost var added: map<string, Handler> := map[];
    assert base + added == base;
    registry.Register("getTemperature", Sensor(Temperature));
    AddEntry(base, added, "getTemperature", Sensor(Temperature));
    added := added["getTemperature" := Sensor(Temperature)];
    registry.Register("getHumidity", Sensor(Humidity));
    AddEntry(base, added, "getHumidity", Sensor(Humidity));
    added := added["getHumidity" := Sensor(Humidity)];
    registry.Register("getPhotoSensor", Sensor(PhotoSensor));
    AddEntry(base, added, "getPhotoSensor", Sensor(PhotoSensor));
    added := added["getPhotoSensor" := Sensor(PhotoSensor)];
    registry.Register("getLightSwitch", Sensor(LightSwitch));
    AddEntry(base, added, "getLightSwitch", Sensor(LightSwitch));
    added := added["getLightSwitch" := Sensor(LightSwitch)];
    registry.Register("getCurrentTime", Sensor(CurrentTime));
    AddEntry(base, added, "getCurrentTime", Sensor(CurrentTime));
    added := added["getCurrentTime" := Sensor(CurrentTime)];
  }
}
