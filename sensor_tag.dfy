/** The sensor tag object: the last reading of every sensor, overwritten by
    the `check_*` method of that sensor. Each check method receives the
    characteristic value read from the sensor's data handle
    (Commands.DataHandle) as a parameter, and each check method that rounds
    also receives Python's `round`. */
module LightOffSensor {
  import opened Registers
  import opened Decoding

  /** The keys "x", "y" and "z" of the three vector dictionaries. */
  datatype Axis = X | Y | Z

  /** The dictionary has the keys x, y and z (and so no others). */
  ghost predicate HasAxes(m: map<Axis, real>)
  {
    X in m && Y in m && Z in m
  }

  class SensorTag {
    /** The Bluetooth address the tag was created for. */
    const address: string

    var humidity: real
    var temperature: real
    var objectTemperature: real
    var barometer: real
    var gyrometer: map<Axis, real>
    var acceleration: map<Axis, real>
    var geomagnetism: map<Axis, real>
    var lux: real

    /** Each vector dictionary has an entry for every axis. */
    ghost predicate Valid()
      reads this
    {
      HasAxes(gyrometer) && HasAxes(acceleration) && HasAxes(geomagnetism)
    }

    constructor (address: string)
      ensures Valid()
      ensures this.address == address
      ensures humidity == 0.0 && temperature == 0.0 && objectTemperature == 0.0 && barometer == 0.0
      ensures gyrometer == map[X := 0.0, Y := 0.0, Z := 0.0]
      ensures acceleration == map[X := 0.0, Y := 0.0, Z := 0.0]
      ensures geomagnetism == map[X := 0.0, Y := 0.0, Z := 0.0]
      ensures lux == 0.0
    {
      this.address := address;
      humidity := 0.0;
      temperature := 0.0;
      objectTemperature := 0.0;
      barometer := 0.0;
      gyrometer := map[X := 0.0, Y := 0.0, Z := 0.0];
      acceleration := map[X := 0.0, Y := 0.0, Z := 0.0];
      geomagnetism := map[X := 0.0, Y := 0.0, Z := 0.0];
      lux := 0.0;
    }

    /** The three vector dictionaries are as they were. */
    twostate predicate KeepsNineAxis()
      reads this
    {
      gyrometer == old(gyrometer) && acceleration == old(acceleration) && geomagnetism == old(geomagnetism)
    }

    /** `check_humidity`: with at least 4 bytes, the temperature and humidity
        become the rounded readings; with fewer the source raises IndexError
        before writing anything, and ok is false. */
    method CheckHumidity(data: seq<byte>, round: (real, nat) -> real) returns (ok: bool)
      requires Valid()
      modifies this
      ensures Valid()
      ensures ok <==> |data| >= 4
      ensures ok ==> temperature == round(DecodeHumidity(data).value.temperature, 1)
      ensures ok ==> humidity == round(DecodeHumidity(data).value.humidity, 1)
      ensures !ok ==> temperature == old(temperature) && humidity == old(humidity)
      ensures objectTemperature == old(objectTemperature) && barometer == old(barometer) && lux == old(lux)
      ensures KeepsNineAxis()
    {
      if |data| < 4 {
        return false;
      }
      var r := DecodeHumidity(data).value;
      temperature := round(r.temperature, 1);
      humidity := round(r.humidity, 1);
      return true;
    }

    /** `check_IRtemperature`: the word at bytes 0..1 becomes the object
        temperature and the word at bytes 2..3 the shared temperature. */
    method CheckIrTemperature(data: seq<byte>, round: (real, nat) -> real) returns (ok: bool)
      requires Valid()
      modifies this
      ensures Valid()
      ensures ok <==> |data| >= 4
      ensures ok ==> objectTemperature == round(DecodeIrTemperature(data).value.objectTemperature, 1)
      ensures ok ==> temperature == round(DecodeIrTemperature(data).value.ambientTemperature, 1)
      ensures !ok ==> objectTemperature == old(objectTemperature) && temperature == old(temperature)
      ensures humidity == old(humidity) && barometer == old(barometer) && lux == old(lux)
      ensures KeepsNineAxis()
    {
      if |data| < 4 {
        return false;
      }
      var r := DecodeIrTemperature(data).value;
      objectTemperature := round(r.objectTemperature, 1);
      temperature := round(r.ambientTemperature, 1);
      return true;
    }

    /** `check_Barometer`: the 24-bit words at bytes 0..2 and 3..5 become the
        shared temperature and the pressure. */
    method CheckBarometer(data: seq<byte>, round: (real, nat) -> real) returns (ok: bool)
      requires Valid()
      modifies this
      ensures Valid()
      ensures ok <==> |data| >= 6
      ensures ok ==> temperature == round(DecodeBarometer(data).value.temperature, 1)
      ensures ok ==> barometer == round(DecodeBarometer(data).value.pressure, 1)
      ensures !ok ==> temperature == old(temperature) && barometer == old(barometer)
      ensures humidity == old(humidity) && objectTemperature == old(objectTemperature) && lux == old(lux)
      ensures KeepsNineAxis()
    {
      if |data| < 6 {
        return false;
      }
      var r := DecodeBarometer(data).value;
      temperature := round(r.temperature, 1);
      barometer := round(r.pressure, 1);
      return true;
    }

    /** `check_9AxisSensor`: the x, y and z entries of the three dictionaries
        are overwritten one by one: the gyroscope rounded to two places, the
        acceleration and the magnetometer as they are. No other field changes. */
    method CheckNineAxis(data: seq<byte>, round: (real, nat) -> real) returns (ok: bool)
      requires Valid()
      modifies this
      ensures Valid()
      ensures ok <==> |data| >= 18
      ensures ok ==> var r := DecodeNineAxis(data).value;
        && gyrometer == old(gyrometer)[X := round(r.gyro.x, 2)][Y := round(r.gyro.y, 2)][Z := round(r.gyro.z, 2)]
        && acceleration == old(acceleration)[X := r.accel.x][Y := r.accel.y][Z := r.accel.z]
        && geomagnetism == old(geomagnetism)[X := r.mag.x][Y := r.mag.y][Z := r.mag.z]
      ensures !ok ==> KeepsNineAxis()
      ensures humidity == old(humidity) && temperature == old(temperature)
      ensures objectTemperature == old(objectTemperature) && barometer == old(barometer) && lux == old(lux)
    {
      if |data| < 18 {
        return false;
      }
      var r := DecodeNineAxis(data).value;
      gyrometer := gyrometer[X := round(r.gyro.x, 2)];
      gyrometer := gyrometer[Y := round(r.gyro.y, 2)];
      gyrometer := gyrometer[Z := round(r.gyro.z, 2)];
      acceleration := acceleration[X := r.accel.x];
      acceleration := acceleration[Y := r.accel.y];
      acceleration := acceleration[Z := r.accel.z];
      geomagnetism := geomagnetism[X := r.mag.x];
      geomagnetism := geomagnetism[Y := r.mag.y];
      geomagnetism := geomagnetism[Z := r.mag.z];
      return true;
    }

    /** `check_Optical`: the lux value, not rounded, is the only field written. */
    method CheckOptical(data: seq<byte>) returns (ok: bool)
      requires Valid()
      modifies this
      ensures Valid()
      ensures ok <==> |data| >= 2
      ensures ok ==> lux == DecodeOptical(data).value
      ensures !ok ==> lux == old(lux)
      ensures humidity == old(humidity) && temperature == old(temperature)
      ensures objectTemperature == old(objectTemperature) && barometer == old(barometer)
      ensures KeepsNineAxis()
    {
      if |data| < 2 {
        return false;
      }
      lux := DecodeOptical(data).value;
      return true;
    }
  }
}
