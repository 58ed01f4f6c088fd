/** Decoding of each characteristic value into readings, as exact real numbers
    computed before Python's `round`. Each decoder returns None when the buffer
    is too short for the bytes it indexes (the source raises IndexError there)
    and reads nothing past those bytes. */
module Decoding {
  import opened Registers

  datatype Option<+T> = None | Some(value: T)

  // ---------------------------------------------------------------------------
  // Scaling formulas

  /** `(raw / 65536) * 165 - 40`: degrees Celsius from the humidity sensor. */
  function HumidityTemperature(raw: nat): (t: real)
    requires raw < 0x1_0000
    ensures -40.0 <= t < 125.0
  {
    (raw as real / 65536.0) * 165.0 - 40.0
  }

  /** `(raw / 65536) * 100`: relative humidity in percent. */
  function RelativeHumidity(raw: nat): (h: real)
    requires raw < 0x1_0000
    ensures 0.0 <= h < 100.0
  {
    (raw as real / 65536.0) * 100.0
  }

  /** `(raw / 4.0) * 0.03125`: degrees Celsius from the IR thermopile sensor,
      that is one 128th of a degree per unit. */
  function IrTemperature(raw: nat): (t: real)
    requires raw < 0x1_0000
    ensures t * 128.0 == raw as real
    ensures 0.0 <= t < 512.0
  {
    (raw as real / 4.0) * 0.03125
  }

  /** `raw / 100.0`: the barometer's temperature (Celsius) and pressure (hPa)
      are both 24-bit counts of hundredths. */
  function Hundredths(raw: nat): (v: real)
    requires raw < 0x100_0000
    ensures v * 100.0 == raw as real
    ensures 0.0 <= v < 167772.16
  {
    raw as real / 100.0
  }

  /** `65536 / 500` in Python 2, where `/` on two integers floors: the
      largest q with q * 500 <= 65536. */
  function GyroDivisor(): (q: nat)
    ensures q * 500 <= 65536 < (q + 1) * 500
  {
    65536 / 500
  }

  /** `raw / (65536 / 500)`: degrees per second. */
  function GyroRate(raw: int): (r: real)
    requires -0x8000 <= raw < 0x8000
    ensures r * 131.0 == raw as real
    ensures -0x8000 as real / 131.0 <= r < 0x8000 as real / 131.0
  {
    raw as real / GyroDivisor() as real
  }

  /** `raw / (32768.0 / 8.0)`: acceleration in g, full scale +-8 g. */
  function Acceleration(raw: int): (a: real)
    requires -0x8000 <= raw < 0x8000
    ensures a * 4096.0 == raw as real
    ensures -8.0 <= a < 8.0
  {
    raw as real / (32768.0 / 8.0)
  }

  /** `m * (0.01 * pow(2.0, e))`: illuminance in lux. */
  function Lux(m: nat, e: nat): (l: real)
    ensures l * 100.0 == (m * Pow2(e)) as real
    ensures l >= 0.0
    ensures l == 0.0 <==> m == 0
  {
    m as real * (0.01 * Pow2(e) as real)
  }

  // ---------------------------------------------------------------------------
  // Readings

  datatype HumidityReading = HumidityReading(temperature: real, humidity: real)

  /** Bytes 0..1 are the temperature word, bytes 2..3 the humidity word. */
  function DecodeHumidity(data: seq<byte>): (r: Option<HumidityReading>)
    ensures r.Some? <==> |data| >= 4
    ensures r.Some? ==> -40.0 <= r.value.temperature < 125.0 && 0.0 <= r.value.humidity < 100.0
  {
    if |data| < 4 then None
    else
      var rawTemp := Word16(data[0], data[1]);
      var rawHumi := Word16(data[2], data[3]);
      Some(HumidityReading(HumidityTemperature(rawTemp), RelativeHumidity(rawHumi)))
  }

  /** The IR reading as the source assigns it: the word at bytes 0..1 goes to
      the object temperature, the word at bytes 2..3 to the (ambient) temperature. */
  datatype IrReading = IrReading(objectTemperature: real, ambientTemperature: real)

  function DecodeIrTemperature(data: seq<byte>): (r: Option<IrReading>)
    ensures r.Some? <==> |data| >= 4
    ensures r.Some? ==> 0.0 <= r.value.objectTemperature < 512.0 && 0.0 <= r.value.ambientTemperature < 512.0
  {
    if |data| < 4 then None
    else
      var rawObj := Word16(data[0], data[1]);
      var rawAmb := Word16(data[2], data[3]);
      Some(IrReading(IrTemperature(rawObj), IrTemperature(rawAmb)))
  }

  datatype BarometerReading = BarometerReading(temperature: real, pressure: real)

  /** Bytes 0..2 are the temperature, bytes 3..5 the pressure, each a 24-bit
      little-endian count. */
  function DecodeBarometer(data: seq<byte>): (r: Option<BarometerReading>)
    ensures r.Some? <==> |data| >= 6
    ensures r.Some? ==> 0.0 <= r.value.temperature < 167772.16 && 0.0 <= r.value.pressure < 167772.16
  {
    if |data| < 6 then None
    else
      var rawTemp := Word24(data[0], data[1], data[2]);
      var rawBaro := Word24(data[3], data[4], data[5]);
      Some(BarometerReading(Hundredths(rawTemp), Hundredths(rawBaro)))
  }

  /** Three signed 16-bit words, one per axis. */
  datatype Triple = Triple(x: int, y: int, z: int)

  predicate InInt16Range(t: Triple)
  {
    -0x8000 <= t.x < 0x8000 && -0x8000 <= t.y < 0x8000 && -0x8000 <= t.z < 0x8000
  }

  datatype NineAxisWords = NineAxisWords(gyro: Triple, accel: Triple, mag: Triple)

  /** The nine signed words of the movement sensor, with the byte pairs exactly
      as the source picks them: (low, high) is (0, 1), (2, 3), (4, 5) for the
      gyroscope, (8, 7), (10, 9), (10, 11) for the accelerometer and (12, 13),
      (14, 15), (16, 17) for the magnetometer. */
  function NineAxisRaw(data: seq<byte>): (r: Option<NineAxisWords>)
    ensures r.Some? <==> |data| >= 18
    ensures r.Some? ==> InInt16Range(r.value.gyro) && InInt16Range(r.value.accel) && InInt16Range(r.value.mag)
  {
    if |data| < 18 then None
    else
      Some(NineAxisWords(
        Triple(Int16(data[0], data[1]), Int16(data[2], data[3]), Int16(data[4], data[5])),
        Triple(Int16(data[8], data[7]), Int16(data[10], data[9]), Int16(data[10], data[11])),
        Triple(Int16(data[12], data[13]), Int16(data[14], data[15]), Int16(data[16], data[17]))))
  }

  datatype Vector = Vector(x: real, y: real, z: real)

  datatype NineAxisReading = NineAxisReading(gyro: Vector, accel: Vector, mag: Vector)

  /** Gyroscope in degrees per second, acceleration in g, magnetometer unscaled. */
  function ScaleNineAxis(w: NineAxisWords): (r: NineAxisReading)
    requires InInt16Range(w.gyro) && InInt16Range(w.accel) && InInt16Range(w.mag)
    ensures -8.0 <= r.accel.x < 8.0 && -8.0 <= r.accel.y < 8.0 && -8.0 <= r.accel.z < 8.0
    ensures r.gyro.x * 131.0 == w.gyro.x as real && r.gyro.y * 131.0 == w.gyro.y as real
    ensures r.gyro.z * 131.0 == w.gyro.z as real
    ensures r.accel.x * 4096.0 == w.accel.x as real && r.accel.y * 4096.0 == w.accel.y as real
    ensures r.accel.z * 4096.0 == w.accel.z as real
    ensures r.mag == Vector(w.mag.x as real, w.mag.y as real, w.mag.z as real)
  {
    NineAxisReading(
      Vector(GyroRate(w.gyro.x), GyroRate(w.gyro.y), GyroRate(w.gyro.z)),
      Vector(Acceleration(w.accel.x), Acceleration(w.accel.y), Acceleration(w.accel.z)),
      Vector(w.mag.x as real, w.mag.y as real, w.mag.z as real))
  }

  function DecodeNineAxis(data: seq<byte>): (r: Option<NineAxisReading>)
    ensures r.Some? <==> |data| >= 18
  {
    match NineAxisRaw(data)
    case None => None
    case Some(w) => Some(ScaleNineAxis(w))
  }

  /** Bytes 0..1, little-endian, hold a 12-bit mantissa and a 4-bit exponent. */
  function DecodeOptical(data: seq<byte>): (r: Option<real>)
    ensures r.Some? <==> |data| >= 2
    ensures r.Some? ==> r.value >= 0.0
    ensures r.Some? ==> (r.value == 0.0 <==> LuxMantissa(Word16(data[0], data[1])) == 0)
  {
    if |data| < 2 then None
    else
      var rawLux := Word16(data[0], data[1]);
      Some(Lux(LuxMantissa(rawLux), LuxExponent(rawLux)))
  }

  // ---------------------------------------------------------------------------
  // Which bytes each reading depends on

  /** The humidity temperature is decided by bytes 0..1 and decides them; the
      humidity by bytes 2..3 likewise. */
  lemma HumidityBytes(d: seq<byte>, d': seq<byte>)
    requires |d| >= 4 && |d'| >= 4
    ensures DecodeHumidity(d).value.temperature == DecodeHumidity(d').value.temperature
        <==> d[0] == d'[0] && d[1] == d'[1]
    ensures DecodeHumidity(d).value.humidity == DecodeHumidity(d').value.humidity
        <==> d[2] == d'[2] && d[3] == d'[3]
  {
  }

  /** The object temperature is decided by bytes 0..1 and decides them; the
      ambient temperature by bytes 2..3 likewise. */
  lemma IrTemperatureBytes(d: seq<byte>, d': seq<byte>)
    requires |d| >= 4 && |d'| >= 4
    ensures DecodeIrTemperature(d).value.objectTemperature == DecodeIrTemperature(d').value.objectTemperature
        <==> d[0] == d'[0] && d[1] == d'[1]
    ensures DecodeIrTemperature(d).value.ambientTemperature == DecodeIrTemperature(d').value.ambientTemperature
        <==> d[2] == d'[2] && d[3] == d'[3]
  {
  }

  /** Bytes 0..2 affect only the barometer's temperature and bytes 3..5 only its
      pressure, and each value determines its three bytes. */
  lemma BarometerBytes(d: seq<byte>, d': seq<byte>)
    requires |d| >= 6 && |d'| >= 6
    ensures DecodeBarometer(d).value.temperature == DecodeBarometer(d').value.temperature
        <==> d[0] == d'[0] && d[1] == d'[1] && d[2] == d'[2]
    ensures DecodeBarometer(d).value.pressure == DecodeBarometer(d').value.pressure
        <==> d[3] == d'[3] && d[4] == d'[4] && d[5] == d'[5]
  {
  }

  /** Each of the nine words equals another buffer's word exactly when the two
      byte pairs it is read from are equal. */
  lemma NineAxisBytes(d: seq<byte>, d': seq<byte>)
    requires |d| >= 18 && |d'| >= 18
    ensures var w, w' := NineAxisRaw(d).value, NineAxisRaw(d').value;
      && (w.gyro.x == w'.gyro.x <==> d[0] == d'[0] && d[1] == d'[1])
      && (w.gyro.y == w'.gyro.y <==> d[2] == d'[2] && d[3] == d'[3])
      && (w.gyro.z == w'.gyro.z <==> d[4] == d'[4] && d[5] == d'[5])
      && (w.accel.x == w'.accel.x <==> d[7] == d'[7] && d[8] == d'[8])
      && (w.accel.y == w'.accel.y <==> d[9] == d'[9] && d[10] == d'[10])
      && (w.accel.z == w'.accel.z <==> d[10] == d'[10] && d[11] == d'[11])
      && (w.mag.x == w'.mag.x <==> d[12] == d'[12] && d[13] == d'[13])
      && (w.mag.y == w'.mag.y <==> d[14] == d'[14] && d[15] == d'[15])
      && (w.mag.z == w'.mag.z <==> d[16] == d'[16] && d[17] == d'[17])
  {
    Int16Injective(d[0], d[1], d'[0], d'[1]);
    Int16Injective(d[2], d[3], d'[2], d'[3]);
    Int16Injective(d[4], d[5], d'[4], d'[5]);
    Int16Injective(d[8], d[7], d'[8], d'[7]);
    Int16Injective(d[10], d[9], d'[10], d'[9]);
    Int16Injective(d[10], d[11], d'[10], d'[11]);
    Int16Injective(d[12], d[13], d'[12], d'[13]);
    Int16Injective(d[14], d[15], d'[14], d'[15]);
    Int16Injective(d[16], d[17], d'[16], d'[17]);
  }

  /** Byte 6 of the movement characteristic is never read. */
  lemma NineAxisIgnoresByte6(d: seq<byte>, v: byte)
    requires |d| >= 18
    ensures DecodeNineAxis(d[6 := v]) == DecodeNineAxis(d)
  {
    assert NineAxisRaw(d[6 := v]) == NineAxisRaw(d);
  }

  /** Changing byte 10 changes both the y and the z acceleration. */
  lemma NineAxisByte10(d: seq<byte>, v: byte)
    requires |d| >= 18 && v != d[10]
    ensures DecodeNineAxis(d[10 := v]).value.accel.y != DecodeNineAxis(d).value.accel.y
    ensures DecodeNineAxis(d[10 := v]).value.accel.z != DecodeNineAxis(d).value.accel.z
  {
    NineAxisBytes(d[10 := v], d);
  }

  /** Only the first 4, 4, 6, 18 and 2 bytes of a characteristic are read. */
  lemma ReadsOnlyPrefix(d: seq<byte>, d': seq<byte>)
    ensures |d| >= 4 && |d'| >= 4 && d[..4] == d'[..4] ==>
      DecodeHumidity(d) == DecodeHumidity(d') && DecodeIrTemperature(d) == DecodeIrTemperature(d')
    ensures |d| >= 6 && |d'| >= 6 && d[..6] == d'[..6] ==> DecodeBarometer(d) == DecodeBarometer(d')
    ensures |d| >= 18 && |d'| >= 18 && d[..18] == d'[..18] ==> DecodeNineAxis(d) == DecodeNineAxis(d')
    ensures |d| >= 2 && |d'| >= 2 && d[..2] == d'[..2] ==> DecodeOptical(d) == DecodeOptical(d')
  {
    if |d| >= 4 && |d'| >= 4 && d[..4] == d'[..4] {
      assert forall i :: 0 <= i < 4 ==> d[i] == d[..4][i] == d'[i];
    }
    if |d| >= 6 && |d'| >= 6 && d[..6] == d'[..6] {
      assert forall i :: 0 <= i < 6 ==> d[i] == d[..6][i] == d'[i];
    }
    if |d| >= 18 && |d'| >= 18 && d[..18] == d'[..18] {
      assert forall i :: 0 <= i < 18 ==> d[i] == d[..18][i] == d'[i];
      assert NineAxisRaw(d) == NineAxisRaw(d');
    }
    if |d| >= 2 && |d'| >= 2 && d[..2] == d'[..2] {
      assert forall i :: 0 <= i < 2 ==> d[i] == d[..2][i] == d'[i];
    }
  }

  // ---------------------------------------------------------------------------
  // The movement sensor's layout

  /** Nine signed words laid out as consecutive little-endian pairs at offsets
      0, 2, ..., 16 (gyroscope, accelerometer, magnetometer), as the sensor's
      register layout has them. */
  function NineAxisLayout(w: NineAxisWords): (d: seq<byte>)
    requires InInt16Range(w.gyro) && InInt16Range(w.accel) && InInt16Range(w.mag)
    ensures |d| == 18
  {
    Pair(w.gyro.x) + Pair(w.gyro.y) + Pair(w.gyro.z)
      + Pair(w.accel.x) + Pair(w.accel.y) + Pair(w.accel.z)
      + Pair(w.mag.x) + Pair(w.mag.y) + Pair(w.mag.z)
  }

  function Pair(v: int): (p: seq<byte>)
    requires -0x8000 <= v < 0x8000
    ensures |p| == 2 && p[0] == Int16Bytes(v).0 && p[1] == Int16Bytes(v).1
  {
    [Int16Bytes(v).0, Int16Bytes(v).1]
  }

  /** Decoding a buffer laid out from nine words recovers the gyroscope and
      magnetometer words and the z acceleration. */
  lemma NineAxisLayoutRoundTrip(w: NineAxisWords)
    requires InInt16Range(w.gyro) && InInt16Range(w.accel) && InInt16Range(w.mag)
    ensures NineAxisRaw(NineAxisLayout(w)).value.gyro == w.gyro
    ensures NineAxisRaw(NineAxisLayout(w)).value.mag == w.mag
    ensures NineAxisRaw(NineAxisLayout(w)).value.accel.z == w.accel.z
  {
    var d := NineAxisLayout(w);
    assert d[0] == Int16Bytes(w.gyro.x).0 && d[1] == Int16Bytes(w.gyro.x).1;
    assert d[2] == Int16Bytes(w.gyro.y).0 && d[3] == Int16Bytes(w.gyro.y).1;
    assert d[4] == Int16Bytes(w.gyro.z).0 && d[5] == Int16Bytes(w.gyro.z).1;
    assert d[10] == Int16Bytes(w.accel.z).0 && d[11] == Int16Bytes(w.accel.z).1;
    assert d[12] == Int16Bytes(w.mag.x).0 && d[13] == Int16Bytes(w.mag.x).1;
    assert d[14] == Int16Bytes(w.mag.y).0 && d[15] == Int16Bytes(w.mag.y).1;
    assert d[16] == Int16Bytes(w.mag.z).0 && d[17] == Int16Bytes(w.mag.z).1;
    Int16OfBytes(w.gyro.x);
    Int16OfBytes(w.gyro.y);
    Int16OfBytes(w.gyro.z);
    Int16OfBytes(w.accel.z);
    Int16OfBytes(w.mag.x);
    Int16OfBytes(w.mag.y);
    Int16OfBytes(w.mag.z);
  }

  /** The x acceleration is not read back from that layout: a buffer holding
      only an x acceleration of 1 decodes to all-zero acceleration. */
  lemma AccelXNotRecovered()
    ensures var w := NineAxisWords(Triple(0, 0, 0), Triple(1, 0, 0), Triple(0, 0, 0));
      NineAxisRaw(NineAxisLayout(w)).value.accel == Triple(0, 0, 0)
  {
    var w := NineAxisWords(Triple(0, 0, 0), Triple(1, 0, 0), Triple(0, 0, 0));
    var d := NineAxisLayout(w);
    assert d[7] == 0 && d[8] == 0 && d[9] == 0 && d[10] == 0 && d[11] == 0;
  }

  /** Nor is the y acceleration: a buffer holding only a y acceleration of 1
      decodes to an x acceleration of 1 and a y acceleration of 0. */
  lemma AccelYNotRecovered()
    ensures var w := NineAxisWords(Triple(0, 0, 0), Triple(0, 1, 0), Triple(0, 0, 0));
      NineAxisRaw(NineAxisLayout(w)).value.accel == Triple(1, 0, 0)
  {
    var w := NineAxisWords(Triple(0, 0, 0), Triple(0, 1, 0), Triple(0, 0, 0));
    var d := NineAxisLayout(w);
    assert d[7] == 0 && d[8] == 1 && d[9] == 0 && d[10] == 0 && d[11] == 0;
  }

  // ---------------------------------------------------------------------------
  // The optical sensor's fields

  /** The optical word is 12 bits of mantissa under 4 bits of exponent, and the
      reading is mantissa * 2^exponent / 100, at most 4095 * 2^15 / 100. */
  lemma OpticalFields(d: seq<byte>)
    requires |d| >= 2
    ensures var raw := Word16(d[0], d[1]);
      var m, e := LuxMantissa(raw), LuxExponent(raw);
      && m < 0x1000 && e < 0x10 && raw == m + 0x1000 * e
      && DecodeOptical(d).value * 100.0 == (m * Pow2(e)) as real
      && DecodeOptical(d).value <= 1341849.6
  {
    var raw := Word16(d[0], d[1]);
    var m, e := LuxMantissa(raw), LuxExponent(raw);
    LuxFields(raw);
    Pow2Monotone(e, 15);
    assert Pow2(15) == 0x8000;
    ProductBound(m, Pow2(e));
  }

  /** A 12-bit mantissa times at most 2^15 is at most 4095 * 2^15. */
  lemma ProductBound(m: nat, p: nat)
    requires m < 0x1000 && p <= 0x8000
    ensures m * p <= 0xFFF * 0x8000
  {
    assert m * p <= 0xFFF * p;
  }

  /** Humidity and barometer readings of a few specific buffers. */
  lemma SpecimenReadings()
    ensures DecodeHumidity([0x00, 0x00, 0x00, 0x00]) == Some(HumidityReading(-40.0, 0.0))
    ensures DecodeHumidity([0xFF, 0xFF, 0xFF, 0xFF])
      == Some(HumidityReading(8191835.0 / 65536.0, 6553500.0 / 65536.0))
    ensures DecodeBarometer([0x10, 0x27, 0x00, 0x20, 0x4E, 0x00]) == Some(BarometerReading(100.0, 200.0))
  {
  }

  // The two optical specimens take the buffer as a parameter fixed by their
  // precondition: on a literal buffer the recursive bit functions would unroll.

  /** Register 0x1000 has mantissa 0 and exponent 1, and so reads 0 lux. */
  lemma OpticalSpecimenZero(d: seq<byte>)
    requires d == [0x00, 0x10]
    ensures DecodeOptical(d) == Some(0.0)
  {
    var raw := Word16(d[0], d[1]);
    assert raw == 0x1000;
    LuxFields(raw);
  }

  /** Register 0x0FFF has mantissa 4095 and exponent 0, and reads 40.95 lux. */
  lemma OpticalSpecimenFull(d: seq<byte>)
    requires d == [0xFF, 0x0F]
    ensures DecodeOptical(d) == Some(40.95)
  {
    var raw := Word16(d[0], d[1]);
    assert raw == 0x0FFF;
    LuxFields(raw);
  }
}
